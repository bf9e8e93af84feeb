/** The telemetry poller of `src/services/issService.ts`: two state cells, `data` and `error`,
    written by `fetchData` when a fetch settles, and a timer that starts a fetch at mount and then
    every 5000 ms until the effect's cleanup clears it.

    The HTTP request and `response.json()` are outside the model: a fetch is seen only through
    the `Response` it settles with. Timer callbacks and fetch completions are explicit method
    calls on `Poller`, in whatever order the environment chooses. */
module IssService {
  import opened Wrappers

  /** `ISSData`: the JSON body of a successful response, with all thirteen fields of `ISSData`. */
  datatype IssData = IssData(
    name: string,
    id: int,
    latitude: real,
    longitude: real,
    altitude: real,
    velocity: real,
    visibility: string,
    footprint: real,
    timestamp: int,
    daynum: real,
    solarLat: real,
    solarLon: real,
    units: string)

  /** The one message a failure shows, whatever went wrong. */
  const FAILURE_MESSAGE: string := "Failed to connect to telemetry stream"

  /** Period of the interval timer, in milliseconds. */
  const POLL_INTERVAL_MS: int := 5000

  /** How a fetch settles: the request is rejected (network error), or a response arrives with
      its `ok` flag and a body that `json()` either parses (`Some`) or rejects (`None`). */
  datatype Response = NetworkError | HttpResponse(ok: bool, body: Option<IssData>)

  /** Which branch of `fetchData` a settled fetch ends in. */
  datatype Outcome = Success(payload: IssData) | Failure

  /** The `try` block: a non-ok status throws before the body is read, and every throw (network
      error, bad status, unparsable body) lands in the same `catch`. No field is checked. */
  function OutcomeOf(r: Response): (o: Outcome)
    ensures o.Success? <==> r.HttpResponse? && r.ok && r.body.Some?
    ensures o.Success? ==> o.payload == r.body.value
  {
    match r
    case NetworkError => Failure
    case HttpResponse(ok, body) =>
      if !ok then Failure
      else if body.None? then Failure
      else Success(body.value)
  }

  /** A bad HTTP status is handled exactly like a network error, whatever the body holds. */
  lemma BadStatusIsNetworkError(body: Option<IssData>)
    ensures OutcomeOf(HttpResponse(false, body)) == OutcomeOf(NetworkError)
  {
  }

  // ---------------------------------------------------------------------------------------------
  // The state as a value, and its evolution as a fold over settled fetches

  /** The hook's result `{ data, error }`; `None` stands for `null`. */
  datatype State = State(data: Option<IssData>, error: Option<string>)

  /** Both `useState` cells start as `null`. */
  function Initial(): (s: State)
    ensures s.data.None? && s.error.None?
  {
    State(None, None)
  }

  /** One settled fetch: success stores the payload as it is and clears the error; failure sets
      the fixed message and keeps the last sample. */
  function Step(s: State, o: Outcome): (r: State)
    ensures r.error.None? <==> o.Success?
    ensures r.error.Some? ==> r.error.value == FAILURE_MESSAGE
    ensures o.Success? ==> r.data == Some(o.payload)
    ensures o.Failure? ==> r.data == s.data
  {
    match o
    case Success(p) => State(Some(p), None)
    case Failure => State(s.data, Some(FAILURE_MESSAGE))
  }

  /** The state after the fetches settle with `os`, in order of settling. Once anything has
      settled, the error cell reflects the last fetch alone, and a last success leaves its payload
      in `data`, whatever came before. */
  function Run(s: State, os: seq<Outcome>): (r: State)
    ensures os == [] ==> r == s
    ensures os != [] ==> (r.error.None? <==> os[|os| - 1].Success?)
    ensures os != [] && os[|os| - 1].Success? ==> r.data == Some(os[|os| - 1].payload)
    decreases |os|
  {
    if os == [] then s else Run(Step(s, os[0]), os[1..])
  }

  /** Reference definition: the payload of the last success in `os`, if any. */
  function LastSuccess(os: seq<Outcome>): Option<IssData>
    decreases |os|
  {
    if os == [] then None
    else if os[|os| - 1].Success? then Some(os[|os| - 1].payload)
    else LastSuccess(os[..|os| - 1])
  }

  lemma {:induction false} RunSnoc(s: State, os: seq<Outcome>, o: Outcome)
    ensures Run(s, os + [o]) == Step(Run(s, os), o)
    decreases |os|
  {
    if os == [] {
      assert [] + [o] == [o];
    } else {
      assert (os + [o])[1..] == os[1..] + [o];
      RunSnoc(Step(s, os[0]), os[1..], o);
    }
  }

  /** Running a concatenation runs its parts in turn. */
  lemma {:induction false} RunPrefix(s: State, xs: seq<Outcome>, ys: seq<Outcome>)
    ensures Run(s, xs + ys) == Run(Run(s, xs), ys)
    decreases |xs|
  {
    if xs != [] {
      assert (xs + ys)[1..] == xs[1..] + ys;
      RunPrefix(Step(s, xs[0]), xs[1..], ys);
    } else {
      assert xs + ys == ys;
    }
  }

  /** After any sequence of settled fetches, `data` is the last successful payload (`null` if
      none), and `error` is `null` exactly when nothing has settled yet or the last fetch
      succeeded; otherwise it is the fixed failure message. */
  lemma {:induction false} RunFromInitial(os: seq<Outcome>)
    ensures Run(Initial(), os).data == LastSuccess(os)
    ensures Run(Initial(), os).error.None? <==> os == [] || os[|os| - 1].Success?
    ensures Run(Initial(), os).error.Some? ==> Run(Initial(), os).error.value == FAILURE_MESSAGE
    decreases |os|
  {
    if os != [] {
      var init, last := os[..|os| - 1], os[|os| - 1];
      assert os == init + [last];
      RunSnoc(Initial(), init, last);
      RunFromInitial(init);
    }
  }

  /** `data` is `null` exactly until the first fetch succeeds. */
  lemma {:induction false} NoDataWithoutSuccess(os: seq<Outcome>)
    ensures LastSuccess(os).None? <==> forall i :: 0 <= i < |os| ==> os[i].Failure?
    decreases |os|
  {
    if os != [] {
      NoDataWithoutSuccess(os[..|os| - 1]);
      assert forall i :: 0 <= i < |os| - 1 ==> os[..|os| - 1][i] == os[i];
    }
  }

  /** Once a sample is held it is never dropped: the only write to `data` stores a payload. */
  lemma {:induction false} DataNeverCleared(s: State, os: seq<Outcome>)
    requires s.data.Some?
    ensures Run(s, os).data.Some?
    decreases |os|
  {
    if os != [] {
      DataNeverCleared(Step(s, os[0]), os[1..]);
    }
  }

  // ---------------------------------------------------------------------------------------------
  // The poll schedule

  /** Number of calls to `fetchData` when the effect runs at `mountMs` and its cleanup at
      `stopMs`: the immediate call, then one per full period that ends before the cleanup. */
  function AttemptCount(mountMs: int, stopMs: int): nat
    requires mountMs <= stopMs
  {
    if stopMs == mountMs then 1 else 1 + (stopMs - mountMs - 1) / POLL_INTERVAL_MS
  }

  /** The instants at which `fetchData` is called: at mount, then every 5000 ms while the
      interval lives; nothing is started at or after the cleanup except the call made at mount. */
  function AttemptTimes(mountMs: int, stopMs: int): (ts: seq<int>)
    requires mountMs <= stopMs
    ensures |ts| >= 1 && ts[0] == mountMs
    ensures forall i :: 0 <= i < |ts| ==> ts[i] == mountMs + i * POLL_INTERVAL_MS
    ensures forall i :: 1 <= i < |ts| ==> ts[i] < stopMs
    ensures stopMs <= mountMs + |ts| * POLL_INTERVAL_MS
  {
    seq(AttemptCount(mountMs, stopMs), i => mountMs + i * POLL_INTERVAL_MS)
  }

  // ---------------------------------------------------------------------------------------------
  // The hook as an object

  /** `useISSData` while mounted. `active` says whether the interval is registered; `issued`
      counts calls to `fetchData`, `pending` those whose fetch has not settled; `settled` records
      the outcomes in the order they settled. */
  class Poller {
    var data: Option<IssData>
    var error: Option<string>
    var active: bool
    var issued: nat
    var pending: nat
    ghost var settled: seq<Outcome>

    ghost predicate Valid()
      reads this
    {
      && Snapshot() == Run(Initial(), settled)
      && issued == pending + |settled|
    }

    /** What the hook returns to its caller. */
    function Snapshot(): State
      reads this
    {
      State(data, error)
    }

    /** The first render: both cells `null`, no effect run yet. */
    constructor ()
      ensures Valid()
      ensures Snapshot() == Initial() && !active && issued == 0 && pending == 0 && settled == []
    {
      data, error := None, None;
      active, issued, pending := false, 0, 0;
      settled := [];
    }

    /** The effect: call `fetchData` once, then register the interval. With an empty dependency
        list the effect runs again only after its cleanup, so no interval is registered yet. */
    method Mount()
      requires Valid() && !active
      modifies this
      ensures Valid()
      ensures active && issued == old(issued) + 1 && pending == old(pending) + 1
      ensures Snapshot() == old(Snapshot()) && settled == old(settled)
    {
      issued, pending := issued + 1, pending + 1;
      active := true;
    }

    /** The interval fires: `fetchData` is called if the interval is still registered, whether or
        not earlier fetches are still pending. A cleared interval starts nothing. */
    method Tick()
      requires Valid()
      modifies this
      ensures Valid()
      ensures active == old(active)
      ensures issued == old(issued) + (if old(active) then 1 else 0)
      ensures pending == old(pending) + (if old(active) then 1 else 0)
      ensures Snapshot() == old(Snapshot()) && settled == old(settled)
    {
      if active {
        issued, pending := issued + 1, pending + 1;
      }
    }

    /** `setData(jsonData); setError(null)`, applied as one step. */
    method OnSuccess(payload: IssData)
      requires Valid() && pending > 0
      modifies this
      ensures Valid()
      ensures data == Some(payload) && error == None
      ensures settled == old(settled) + [Success(payload)] && pending == old(pending) - 1
      ensures active == old(active) && issued == old(issued)
    {
      RunSnoc(Initial(), settled, Success(payload));
      data, error := Some(payload), None;
      settled := settled + [Success(payload)];
      pending := pending - 1;
    }

    /** `setError('Failed to connect to telemetry stream')`; `data` keeps its last sample. */
    method OnFailure()
      requires Valid() && pending > 0
      modifies this
      ensures Valid()
      ensures data == old(data) && error == Some(FAILURE_MESSAGE)
      ensures settled == old(settled) + [Failure] && pending == old(pending) - 1
      ensures active == old(active) && issued == old(issued)
    {
      RunSnoc(Initial(), settled, Failure);
      error := Some(FAILURE_MESSAGE);
      settled := settled + [Failure];
      pending := pending - 1;
    }

    /** A pending fetch settles with `r` and `fetchData` runs its `try` or its `catch` branch.
        This may happen after `Stop`: the cleanup does not cancel fetches in flight. */
    method Settle(r: Response)
      requires Valid() && pending > 0
      modifies this
      ensures Valid()
      ensures Snapshot() == Step(old(Snapshot()), OutcomeOf(r))
      ensures settled == old(settled) + [OutcomeOf(r)] && pending == old(pending) - 1
      ensures active == old(active) && issued == old(issued)
    {
      match OutcomeOf(r)
      case Success(p) => OnSuccess(p);
      case Failure => OnFailure();
    }

    /** The cleanup: `clearInterval`. Nothing else changes; pending fetches stay pending. */
    method Stop()
      requires Valid()
      modifies this
      ensures Valid()
      ensures !active
      ensures issued == old(issued) && pending == old(pending)
      ensures Snapshot() == old(Snapshot()) && settled == old(settled)
    {
      active := false;
    }
  }

  /** The cleanup clears only the interval: a fetch started before it that settles afterwards
      still writes the hook's state, and no tick after it starts a new fetch. React shows that
      write only when the instance outlives the cleanup, as when an effect is re-run. */
  method StopThenSettle(payload: IssData) returns (held: Option<IssData>, issued: nat)
    ensures held == Some(payload)
    ensures issued == 1
  {
    var p := new Poller();
    p.Mount();
    p.Stop();
    p.Tick();
    p.Settle(HttpResponse(true, Some(payload)));
    held, issued := p.data, p.issued;
  }
}
