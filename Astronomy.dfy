/** The geodetic transform and the sub-solar approximation of `src/utils/astronomy.ts`.

    Numbers are idealised to `real`; sine, cosine and pi come from a `Trig` parameter (see module
    Trigonometry). Instants are integers counting milliseconds since the Unix epoch, as
    `Date.getTime()` returns them. */
module Astronomy {
  import opened Trigonometry

  /** Radius of the Earth sphere in scene units. */
  const EARTH_RADIUS: real := 5.0

  /** `oneDay`: milliseconds in a day. */
  const MS_PER_DAY: int := 1000 * 60 * 60 * 24

  /** Amplitude of the declination formula: the axial tilt in degrees. */
  const AXIAL_TILT: real := 23.45

  datatype Vector3 = Vector3(x: real, y: real, z: real)

  datatype LatLon = LatLon(lat: real, lon: real)

  function NormSquared(v: Vector3): real {
    v.x * v.x + v.y * v.y + v.z * v.z
  }

  // ---------------------------------------------------------------------------------------------
  // latLonToVector3

  /** The point at latitude `lat` and longitude `lon` (degrees) on the sphere of radius `radius`:
      the polar angle is measured from the +y axis, the azimuth from the -x axis. */
  function LatLonToVector3(t: Trig, lat: real, lon: real, radius: real): (v: Vector3)
    ensures radius == 0.0 ==> v == Vector3(0.0, 0.0, 0.0)
  {
    var phi := Radians(t, 90.0 - lat);
    var theta := Radians(t, lon + 180.0);
    Vector3(-(radius * t.sin(phi) * t.cos(theta)),
            radius * t.cos(phi),
            radius * t.sin(phi) * t.sin(theta))
  }

  /** r^2 s^2 a^2 + r^2 c^2 + r^2 s^2 b^2 = r^2 when s^2 + c^2 = 1 and a^2 + b^2 = 1. */
  lemma SphericalSum(r: real, s: real, c: real, a: real, b: real)
    requires s * s + c * c == 1.0 && a * a + b * b == 1.0
    ensures (r * s * a) * (r * s * a) + (r * c) * (r * c) + (r * s * b) * (r * s * b) == r * r
  {
    var rs := r * s;
    calc {
      (rs * a) * (rs * a) + (r * c) * (r * c) + (rs * b) * (rs * b);
      (rs * rs) * (a * a + b * b) + (r * r) * (c * c);
      rs * rs + (r * r) * (c * c);
      (r * r) * (s * s + c * c);
      r * r;
    }
  }

  /** Every point lies on the sphere: its squared length is the squared radius. */
  lemma NormIsRadius(t: Trig, lat: real, lon: real, radius: real)
    requires Valid(t)
    ensures NormSquared(LatLonToVector3(t, lat, lon, radius)) == radius * radius
  {
    var phi := Radians(t, 90.0 - lat);
    var theta := Radians(t, lon + 180.0);
    var v := LatLonToVector3(t, lat, lon, radius);
    SphericalSum(radius, t.sin(phi), t.cos(phi), t.cos(theta), t.sin(theta));
    assert v.x * v.x == (radius * t.sin(phi) * t.cos(theta)) * (radius * t.sin(phi) * t.cos(theta));
  }

  /** The height above the equatorial plane depends on latitude and radius only. */
  lemma HeightIgnoresLongitude(t: Trig, lat: real, lon1: real, lon2: real, radius: real)
    ensures LatLonToVector3(t, lat, lon1, radius).y == LatLonToVector3(t, lat, lon2, radius).y
  {
  }

  /** Latitude 90 is the up axis, whatever the longitude. */
  lemma NorthPoleIsUp(t: Trig, lon: real, radius: real)
    requires Valid(t)
    ensures LatLonToVector3(t, 90.0, lon, radius) == Vector3(0.0, radius, 0.0)
  {
    assert Radians(t, 90.0 - 90.0) == 0.0;
  }

  /** Latitude -90 is the down axis, whatever the longitude. */
  lemma SouthPoleIsDown(t: Trig, lon: real, radius: real)
    requires Valid(t)
    ensures LatLonToVector3(t, -90.0, lon, radius) == Vector3(0.0, -radius, 0.0)
  {
    assert Radians(t, 90.0 - -90.0) == t.pi;
  }

  /** Latitude 0, longitude 0 is the +x axis. */
  lemma ReferenceAxis(t: Trig, radius: real)
    requires Valid(t)
    ensures LatLonToVector3(t, 0.0, 0.0, radius) == Vector3(radius, 0.0, 0.0)
  {
    assert Radians(t, 90.0 - 0.0) == t.pi / 2.0;
    assert Radians(t, 0.0 + 180.0) == t.pi;
  }

  // ---------------------------------------------------------------------------------------------
  // getSubSolarPoint: declination

  /** Whole days elapsed since `startOfYearMs` (day 0 of January, i.e. the last day of the previous
      year), rounded down as `Math.floor(diff / oneDay)` does. */
  function DayOfYear(nowMs: int, startOfYearMs: int): (d: int)
    ensures startOfYearMs + d * MS_PER_DAY <= nowMs < startOfYearMs + (d + 1) * MS_PER_DAY
  {
    (nowMs - startOfYearMs) / MS_PER_DAY
  }

  /** The first instant of 1 January is day 1; the instant before it is day 0. */
  lemma NewYearIsDayOne(startOfYearMs: int)
    ensures DayOfYear(startOfYearMs + MS_PER_DAY, startOfYearMs) == 1
    ensures DayOfYear(startOfYearMs + MS_PER_DAY - 1, startOfYearMs) == 0
  {
  }

  /** `-23.45 * cos((360 / 365) * (dayOfYear + 10) * (PI / 180))`: the tilt scaled by the cosine
      of the year's phase, so it lies in the tropics whenever the trigonometry is valid. */
  function Declination(t: Trig, dayOfYear: int): (d: real)
    ensures Valid(t) ==> -AXIAL_TILT <= d <= AXIAL_TILT
  {
    var phase := Radians(t, (360.0 / 365.0) * (dayOfYear + 10) as real);
    assert Valid(t) ==> -1.0 <= t.cos(phase) <= 1.0 by {
      if Valid(t) {
        CosBounded(t, phase);
      }
    }
    -AXIAL_TILT * t.cos(phase)
  }

  // ---------------------------------------------------------------------------------------------
  // getSubSolarPoint: longitude

  datatype UtcClock = UtcClock(hours: int, minutes: int, seconds: int)

  /** `getUTCHours`, `getUTCMinutes` and `getUTCSeconds` of an instant: floor division followed by
      a modulo whose result is never negative, also before 1970. */
  function UtcClockOf(nowMs: int): (c: UtcClock)
    ensures 0 <= c.hours < 24 && 0 <= c.minutes < 60 && 0 <= c.seconds < 60
  {
    UtcClock((nowMs / 3600000) % 24, (nowMs / 60000) % 60, (nowMs / 1000) % 60)
  }

  /** The clock reading of the `s`-th second of a day. */
  function ClockAtSecond(s: int): UtcClock
    requires 0 <= s < 86400
  {
    UtcClock(s / 3600, (s / 60) % 60, s % 60)
  }

  /** The clock reading depends only on the whole second of the UTC day. */
  lemma ClockIsSecondOfDay(nowMs: int)
    ensures UtcClockOf(nowMs) == ClockAtSecond((nowMs / 1000) % 86400)
  {
    var q := nowMs / 1000;
    MinutesFromSeconds(nowMs);
    HoursFromSeconds(nowMs);
    HourOfDay(q);
    MinuteOfHour(q);
    SecondOfMinute(q);
  }

  lemma MinutesFromSeconds(n: int)
    ensures n / 60000 == (n / 1000) / 60
  {
  }

  lemma HoursFromSeconds(n: int)
    ensures n / 3600000 == (n / 1000) / 3600
  {
  }

  lemma HourOfDay(q: int)
    ensures (q / 3600) % 24 == (q % 86400) / 3600
  {
  }

  lemma MinuteOfHour(q: int)
    ensures (q / 60) % 60 == ((q % 86400) / 60) % 60
  {
  }

  lemma SecondOfMinute(q: int)
    ensures q % 60 == (q % 86400) % 60
  {
  }

  /** `utcHours`: the time of day in fractional hours. A reading within the clock's ranges gives
      a time of day in [0, 24), and each field moves it by its own weight. */
  function UtcHours(c: UtcClock): (h: real)
    ensures 0 <= c.hours < 24 && 0 <= c.minutes < 60 && 0 <= c.seconds < 60 ==> 0.0 <= h < 24.0
    ensures c.minutes == 0 && c.seconds == 0 ==> h == c.hours as real
  {
    c.hours as real + c.minutes as real / 60.0 + c.seconds as real / 3600.0
  }

  /** `(12 - utcHours) * 15`: the longitude where it is solar noon, before normalisation. It lies
      in (-180, 180] already, since the hour of the day lies in [0, 24). */
  function SolarNoonLongitude(nowMs: int): (lon: real)
    ensures -180.0 < lon <= 180.0
  {
    (12.0 - UtcHours(UtcClockOf(nowMs))) * 15.0
  }

  /** Rounding toward zero, as a truncating remainder needs. */
  function Trunc(x: real): (n: int)
    ensures 0.0 <= x ==> n as real <= x < n as real + 1.0
    ensures x < 0.0 ==> n as real - 1.0 < x <= n as real
  {
    if x >= 0.0 then x.Floor else -((-x).Floor)
  }

  /** `x` and `y` differ by a whole number of turns. */
  ghost predicate SameAngle(x: real, y: real) {
    exists k: int :: x - y == Turns(k)
  }

  function Turns(k: int): real {
    360.0 * k as real
  }

  /** JavaScript's `x % 360` on numbers: the remainder of a division truncated toward zero, so
      it carries the sign of `x` and differs from `x` by whole turns. */
  function Rem360(x: real): (r: real)
    ensures 0.0 <= x ==> 0.0 <= r < 360.0
    ensures x < 0.0 ==> -360.0 < r <= 0.0
    ensures -360.0 < x < 360.0 ==> r == x
    ensures SameAngle(x, r)
  {
    var k := Trunc(x / 360.0);
    assert x - (x - 360.0 * k as real) == Turns(k);
    x - 360.0 * k as real
  }

  /** The normalisation of lines 57-59: remainder by 360, then at most one correction by 360. */
  function NormalizeLongitude(x: real): (n: real)
    ensures -180.0 <= n <= 180.0
    ensures SameAngle(x, n)
    ensures 0.0 <= x ==> -180.0 < n
    ensures x < 0.0 ==> n < 180.0
  {
    var r := Rem360(x);
    var k := Trunc(x / 360.0);
    assert x - r == Turns(k);
    if r > 180.0 then
      assert x - (r - 360.0) == Turns(k + 1);
      r - 360.0
    else if r < -180.0 then
      assert x - (r + 360.0) == Turns(k - 1);
      r + 360.0
    else
      r
  }

  /** A longitude already in [-180, 180] is left as it is; so normalising twice is normalising once. */
  lemma NormalizeFixesRange(x: real)
    requires -180.0 <= x <= 180.0
    ensures NormalizeLongitude(x) == x
  {
  }

  lemma NormalizeIdempotent(x: real)
    ensures NormalizeLongitude(NormalizeLongitude(x)) == NormalizeLongitude(x)
  {
    NormalizeFixesRange(NormalizeLongitude(x));
  }

  /** The sub-solar point: declination from the day of the year, longitude from the UTC clock.
      The longitude is a proper one in (-180, 180] at every instant; the latitude stays within the
      tropics whenever the trigonometry is valid. */
  function SubSolarPoint(t: Trig, nowMs: int, startOfYearMs: int): (p: LatLon)
    ensures -180.0 < p.lon <= 180.0
    ensures Valid(t) ==> -AXIAL_TILT <= p.lat <= AXIAL_TILT
  {
    NormalizeFixesRange(SolarNoonLongitude(nowMs));
    LatLon(Declination(t, DayOfYear(nowMs, startOfYearMs)),
           NormalizeLongitude(SolarNoonLongitude(nowMs)))
  }

  /** The sub-solar longitude is (12 - h - m/60 - s/3600) * 15 for the UTC clock reading h:m:s,
      and it lies in (-180, 180]: the normalisation never changes it. */
  lemma SubSolarLongitudeOfClock(t: Trig, nowMs: int, startOfYearMs: int)
    ensures var c := UtcClockOf(nowMs);
            SubSolarPoint(t, nowMs, startOfYearMs).lon
            == (12.0 - c.hours as real - c.minutes as real / 60.0 - c.seconds as real / 3600.0) * 15.0
    ensures -180.0 < SubSolarPoint(t, nowMs, startOfYearMs).lon <= 180.0
  {
    var c := UtcClockOf(nowMs);
    assert 0.0 <= UtcHours(c) < 24.0;
    NormalizeFixesRange(SolarNoonLongitude(nowMs));
  }

  /** Neither the calendar date nor the milliseconds move the sub-solar longitude. */
  lemma LongitudeIgnoresDateAndMillis(t: Trig, day: int, second: int, ms: int, startOfYearMs: int)
    requires 0 <= second < 86400 && 0 <= ms < 1000
    ensures SubSolarPoint(t, day * 86400000 + second * 1000 + ms, startOfYearMs).lon
            == SubSolarPoint(t, second * 1000, startOfYearMs).lon
  {
    var nowMs := day * 86400000 + second * 1000 + ms;
    assert nowMs / 1000 == day * 86400 + second;
    assert (nowMs / 1000) % 86400 == second;
    ClockIsSecondOfDay(nowMs);
    ClockIsSecondOfDay(second * 1000);
    assert UtcClockOf(nowMs) == UtcClockOf(second * 1000);
  }

  /** At 12:00:00 UTC the sun is over longitude 0, at 00:00:00 over 180, at 13:00:00 over -15. */
  lemma SubSolarLongitudeExamples(t: Trig, day: int, startOfYearMs: int)
    ensures SubSolarPoint(t, day * 86400000 + 12 * 3600000, startOfYearMs).lon == 0.0
    ensures SubSolarPoint(t, day * 86400000, startOfYearMs).lon == 180.0
    ensures SubSolarPoint(t, day * 86400000 + 13 * 3600000, startOfYearMs).lon == -15.0
  {
    ClockOnDay(day, 12);
    SubSolarLongitudeOfClock(t, day * 86400000 + 12 * 3600000, startOfYearMs);
    ClockOnDay(day, 0);
    SubSolarLongitudeOfClock(t, day * 86400000, startOfYearMs);
    ClockOnDay(day, 13);
    SubSolarLongitudeOfClock(t, day * 86400000 + 13 * 3600000, startOfYearMs);
  }

  /** The clock reads h:00:00 at hour `h` of any day. */
  lemma ClockOnDay(day: int, h: int)
    requires 0 <= h < 24
    ensures UtcClockOf(day * 86400000 + h * 3600000) == UtcClock(h, 0, 0)
  {
    var nowMs := day * 86400000 + h * 3600000;
    assert nowMs / 3600000 == day * 24 + h;
    assert nowMs / 60000 == day * 1440 + h * 60;
    assert nowMs / 1000 == day * 86400 + h * 3600;
  }
}
