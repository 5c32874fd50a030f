/**
 Worked examples joining checker construction and the report store: a
 checker's resolved settings become its alerting limits.
 */
module Scenarios {
  import opened CInts
  import opened LuaTables
  import opened Checkers
  import opened ResultFilter

  /** The alerting limits a constructed checker contributes to the filter. */
  function LimitsOfChecker<N>(c: Construction<N>): Limits
  {
    Limits(c.minFailures, c.failureWindow)
  }

  /** A checker whose table sets no integer `minFailures`, built with a
      minimum of at most 1 (or none), alerts on its first report that lies
      inside its resolved failure window. */
  lemma {:induction false} UnconfiguredCheckerAlertsOnFirstReport<C(!new), N>(
    f: Filter<C>, limits: map<C, Limits>, data: Table, notifiers: seq<N>, minFailures: Int32,
    source: C, reason: string, t: Time, now: Time)
    requires !("minFailures" in data && data["minFailures"].Int?)
    requires minFailures <= 1
    requires now - Construct(data, notifiers, minFailures).failureWindow as int < t
    ensures (source, reason) in FilteredResults(
              Report(f, source, reason, t),
              limits[source := LimitsOfChecker(Construct(data, notifiers, minFailures))],
              now)
  {
    var checker := Construct(data, notifiers, minFailures);
    var limits' := limits[source := LimitsOfChecker(checker)];
    assert LimitsOf(f, limits', source) == LimitsOfChecker(checker);
    ReportInWindowRaises(f, limits', source, reason, t, now);
  }

  /** The store after "timeout" was reported at 0, 30, 70 and 125. */
  function TimeoutHistory<C(!new)>(c: C): Filter<C>
  {
    Report(Report(Report(Report(NewFilter(), c, "timeout", 0), c, "timeout", 30), c, "timeout", 70), c, "timeout", 125)
  }

  lemma {:induction false} TimeoutHistoryTimes<C(!new)>(c: C)
    ensures Timestamps(TimeoutHistory(c), c, "timeout") == {0, 30, 70, 125}
  {
    var f0: Filter<C> := NewFilter();
    var f1 := Report(f0, c, "timeout", 0);
    var f2 := Report(f1, c, "timeout", 30);
    var f3 := Report(f2, c, "timeout", 70);
    ReportTimestamps(f0, c, "timeout", 0, c, "timeout");
    ReportTimestamps(f1, c, "timeout", 30, c, "timeout");
    ReportTimestamps(f2, c, "timeout", 70, c, "timeout");
    ReportTimestamps(f3, c, "timeout", 125, c, "timeout");
  }

  /** A checker configured with `minFailures = 3` resolves the default
      window of 120 seconds. */
  lemma ThreeFailuresChecker<N>(notifiers: seq<N>)
    ensures LimitsOfChecker(Construct(map["minFailures" := Int(3), "subject" := Str("ns1")], notifiers))
         == Limits(3, 120)
  {
  }

  lemma {:induction false} TimeoutHistoryAlertsAt125<C(!new)>(c: C)
    ensures (c, "timeout") in FilteredResults(TimeoutHistory(c), map[c := Limits(3, 120)], 125)
  {
    TimeoutHistoryTimes(c);
    ThreeOfFourRecent(TimeoutHistory(c), c);
  }

  lemma {:induction false} ThreeOfFourRecent<C(!new)>(f: Filter<C>, c: C)
    requires Timestamps(f, c, "timeout") == {0, 30, 70, 125}
    ensures Alerting(f, map[c := Limits(3, 120)], c, "timeout", 125)
  {
    var w := Recent({0, 30, 70, 125}, 125, 120);
    assert w == {30, 70, 125} by {
      assert forall t :: t in w <==> t == 30 || t == 70 || t == 125;
    }
    assert |w| == 3;
    assert LimitsOf(f, map[c := Limits(3, 120)], c) == Limits(3, 120);
  }

  lemma {:induction false} TimeoutHistoryClearsAt260<C(!new)>(c: C)
    ensures (c, "timeout") !in FilteredResults(TimeoutHistory(c), map[c := Limits(3, 120)], 260)
  {
    TimeoutHistoryTimes(c);
    NoneOfFourRecent(TimeoutHistory(c), c);
  }

  lemma {:induction false} NoneOfFourRecent<C(!new)>(f: Filter<C>, c: C)
    requires Timestamps(f, c, "timeout") == {0, 30, 70, 125}
    ensures !Alerting(f, map[c := Limits(3, 120)], c, "timeout", 260)
  {
    assert Recent({0, 30, 70, 125}, 260, 120) == {};
  }

  /** Such a checker reports "timeout" at 0, 30, 70 and 125: at 125 the
      three reports after 5 alert; at 260 all are stale and the pair no
      longer alerts. */
  lemma {:induction false} ThreeFailuresInWindow<C(!new), N>(c: C, notifiers: seq<N>)
    ensures var checker := Construct(map["minFailures" := Int(3), "subject" := Str("ns1")], notifiers);
            var limits := map[c := LimitsOfChecker(checker)];
            && (c, "timeout") in FilteredResults(TimeoutHistory(c), limits, 125)
            && (c, "timeout") !in FilteredResults(TimeoutHistory(c), limits, 260)
  {
    ThreeFailuresChecker(notifiers);
    TimeoutHistoryAlertsAt125(c);
    TimeoutHistoryClearsAt260(c);
  }

  /** The store after "timeout" was reported at 10 and "wrong answer" at
      10 and 20. */
  function MixedHistory<C(!new)>(c: C): Filter<C>
  {
    Report(Report(Report(NewFilter(), c, "timeout", 10), c, "wrong answer", 10), c, "wrong answer", 20)
  }

  lemma {:induction false} MixedHistoryTimes<C(!new)>(c: C)
    ensures Timestamps(MixedHistory(c), c, "wrong answer") == {10, 20}
    ensures Timestamps(MixedHistory(c), c, "timeout") == {10}
  {
    var f0: Filter<C> := NewFilter();
    var f1 := Report(f0, c, "timeout", 10);
    var f2 := Report(f1, c, "wrong answer", 10);
    ReportTimestamps(f0, c, "timeout", 10, c, "wrong answer");
    ReportTimestamps(f1, c, "wrong answer", 10, c, "wrong answer");
    ReportTimestamps(f2, c, "wrong answer", 20, c, "wrong answer");
    ReportTimestamps(f0, c, "timeout", 10, c, "timeout");
    ReportTimestamps(f1, c, "wrong answer", 10, c, "timeout");
    ReportTimestamps(f2, c, "wrong answer", 20, c, "timeout");
  }

  lemma {:induction false} TwoAgainstOne<C(!new)>(f: Filter<C>, c: C)
    requires Timestamps(f, c, "wrong answer") == {10, 20}
    requires Timestamps(f, c, "timeout") == {10}
    ensures Alerting(f, map[c := Limits(2, 120)], c, "wrong answer", 20)
    ensures !Alerting(f, map[c := Limits(2, 120)], c, "timeout", 20)
  {
    assert LimitsOf(f, map[c := Limits(2, 120)], c) == Limits(2, 120);
    assert Recent({10, 20}, 20, 120) == {10, 20};
    assert Recent({10}, 20, 120) == {10};
  }

  /** Two reasons of one checker are tracked apart: with `minFailures = 2`,
      two "wrong answer" reports alert while one "timeout" report does not. */
  lemma {:induction false} ReasonsAreIndependent<C(!new)>(c: C)
    ensures var limits := map[c := Limits(2, 120)];
            && (c, "wrong answer") in FilteredResults(MixedHistory(c), limits, 20)
            && (c, "timeout") !in FilteredResults(MixedHistory(c), limits, 20)
  {
    MixedHistoryTimes(c);
    TwoAgainstOne(MixedHistory(c), c);
  }
}
