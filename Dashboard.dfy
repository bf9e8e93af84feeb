/** The view selection of `Dashboard` (`src/components/Dashboard.tsx`): three early returns on
    `(data, error)`, and how they read the poller's state over time. */
module Dashboard {
  import opened Wrappers
  import opened IssService

  /** The three panels: SIGNAL LOST with the error text, ACQUIRING SIGNAL..., and the LIVE
      metrics of a sample. */
  datatype View = SignalLost(message: string) | Acquiring | Live(sample: IssData)

  /** `if (error)` is a JavaScript truthiness test: `null` and the empty string are false. */
  predicate Truthy(error: Option<string>) {
    error.Some? && error.value != ""
  }

  /** An error takes precedence; without one, no sample means acquiring, a sample means live. */
  function SelectView(data: Option<IssData>, error: Option<string>): (v: View)
    ensures v.SignalLost? <==> Truthy(error)
    ensures v.SignalLost? ==> v.message == error.value
    ensures v.Acquiring? <==> !Truthy(error) && data.None?
    ensures v.Live? <==> !Truthy(error) && data.Some?
    ensures v.Live? ==> v.sample == data.value
  {
    if Truthy(error) then SignalLost(error.value)
    else if data.None? then Acquiring
    else Live(data.value)
  }

  /** The view of the hook's current state. */
  function ViewOf(s: State): View {
    SelectView(s.data, s.error)
  }

  /** Over the poller's life the view is ACQUIRING only before any fetch has settled, LIVE
      exactly when the last settled fetch succeeded (showing that sample), and SIGNAL LOST with
      the fixed message otherwise. */
  lemma {:induction false} ViewAfterOutcomes(os: seq<Outcome>)
    ensures ViewOf(Run(Initial(), os)).Acquiring? <==> os == []
    ensures os != [] && os[|os| - 1].Success?
            ==> ViewOf(Run(Initial(), os)) == Live(os[|os| - 1].payload)
    ensures os != [] && os[|os| - 1].Failure?
            ==> ViewOf(Run(Initial(), os)) == SignalLost(FAILURE_MESSAGE)
  {
    RunFromInitial(os);
    if os != [] && os[|os| - 1].Success? {
      assert LastSuccess(os) == Some(os[|os| - 1].payload);
    }
  }

  /** After the first success the view never returns to ACQUIRING, and a later failure shows
      SIGNAL LOST while the stale sample is still held. */
  lemma {:induction false} NeverAcquiringAfterSuccess(before: seq<Outcome>, p: IssData, after: seq<Outcome>)
    ensures ViewOf(Run(Initial(), before + [Success(p)] + after)) != Acquiring
    ensures Run(Initial(), before + [Success(p)] + after).data.Some?
    ensures after != [] && after[|after| - 1].Failure?
            ==> ViewOf(Run(Initial(), before + [Success(p)] + after)) == SignalLost(FAILURE_MESSAGE)
  {
    var os := before + [Success(p)] + after;
    ViewAfterOutcomes(os);
    RunSnoc(Initial(), before, Success(p));
    RunPrefix(Initial(), before + [Success(p)], after);
    DataNeverCleared(Run(Initial(), before + [Success(p)]), after);
    if after != [] {
      assert os[|os| - 1] == after[|after| - 1];
    }
  }

  /** Success, failure, success: the panels go ACQUIRING, LIVE, SIGNAL LOST, LIVE, and the
      failure keeps the first sample in `data` while the error is shown. */
  lemma RecoveryScenario(s1: IssData, s2: IssData)
    ensures ViewOf(Initial()) == Acquiring
    ensures ViewOf(Run(Initial(), [Success(s1)])) == Live(s1)
    ensures Run(Initial(), [Success(s1), Failure]) == State(Some(s1), Some(FAILURE_MESSAGE))
    ensures ViewOf(Run(Initial(), [Success(s1), Failure])) == SignalLost(FAILURE_MESSAGE)
    ensures ViewOf(Run(Initial(), [Success(s1), Failure, Success(s2)])) == Live(s2)
  {
    var live1 := State(Some(s1), None);
    var lost := State(Some(s1), Some(FAILURE_MESSAGE));
    assert [Success(s1), Failure][1..] == [Failure];
    assert Run(live1, [Failure]) == lost;
    assert [Success(s1), Failure, Success(s2)][1..] == [Failure, Success(s2)];
    assert [Failure, Success(s2)][1..] == [Success(s2)];
    assert Run(lost, [Success(s2)]) == State(Some(s2), None);
    assert Run(live1, [Failure, Success(s2)]) == State(Some(s2), None);
  }
}
