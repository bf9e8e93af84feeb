/** How `App` (`src/App.tsx`) puts the pieces together: the marker of `ISSMarker` and the light
    of `Sun` are both placed by `LatLonToVector3`, at two different radii. */
module Scene {
  import opened Wrappers
  import opened Trigonometry
  import opened Astronomy
  import opened IssService

  /** Height of the marker above the Earth sphere, in scene units. */
  const MARKER_ALTITUDE_OFFSET: real := 0.2

  /** The marker is drawn only when a sample is held, at the sample's latitude and longitude
      just above the surface. */
  function MarkerPosition(t: Trig, data: Option<IssData>): (p: Option<Vector3>)
    ensures p.Some? <==> data.Some?
  {
    match data
    case None => None
    case Some(d) => Some(LatLonToVector3(t, d.latitude, d.longitude, EARTH_RADIUS + MARKER_ALTITUDE_OFFSET))
  }

  /** The light sits over the sub-solar point, ten Earth radii out: at distance 50 from the
      centre at every instant. */
  function SunPosition(t: Trig, nowMs: int, startOfYearMs: int): (v: Vector3)
    ensures Valid(t) ==> NormSquared(v) == 50.0 * 50.0
  {
    var p := SubSolarPoint(t, nowMs, startOfYearMs);
    assert Valid(t) ==> NormSquared(LatLonToVector3(t, p.lat, p.lon, EARTH_RADIUS * 10.0)) == 50.0 * 50.0 by {
      if Valid(t) {
        NormIsRadius(t, p.lat, p.lon, EARTH_RADIUS * 10.0);
      }
    }
    LatLonToVector3(t, p.lat, p.lon, EARTH_RADIUS * 10.0)
  }

  /** The marker floats on the sphere of radius 5.2. */
  lemma MarkerOnSphere(t: Trig, d: IssData)
    requires Valid(t)
    ensures MarkerPosition(t, Some(d)).Some?
    ensures NormSquared(MarkerPosition(t, Some(d)).value) == 5.2 * 5.2
  {
    NormIsRadius(t, d.latitude, d.longitude, EARTH_RADIUS + MARKER_ALTITUDE_OFFSET);
  }

  /** A sample at latitude 0, longitude 0 puts the marker at (5.2, 0, 0). */
  lemma MarkerAtReferencePoint(t: Trig, d: IssData)
    requires Valid(t)
    requires d.latitude == 0.0 && d.longitude == 0.0
    ensures MarkerPosition(t, Some(d)) == Some(Vector3(5.2, 0.0, 0.0))
  {
    ReferenceAxis(t, EARTH_RADIUS + MARKER_ALTITUDE_OFFSET);
  }

  /** The marker appears with the first successful fetch and stays from then on. */
  lemma {:induction false} MarkerPresentAfterSuccess(t: Trig, os: seq<Outcome>)
    ensures MarkerPosition(t, Run(Initial(), os).data).Some?
            <==> exists i :: 0 <= i < |os| && os[i].Success?
  {
    RunFromInitial(os);
    NoDataWithoutSuccess(os);
  }
}
