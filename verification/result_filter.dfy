/**
 The report store that turns timestamped failure reports into alerts
 (simplomon.hh:72-90). Checkers are opaque identities `C`; the store maps
 each checker to each failure reason to the set of times it was reported.

 Only `reportResult` and the constructor have bodies in the header. The
 alert decision (`getFilteredResults`) is declared there without a body;
 `Alerting`, `FilteredResults` and `Prune` below are this model's own
 specification of it, derived from the header comment "sets alert status
 if there have been more than x alerts in y seconds" (simplomon.hh:72) and
 from the checker fields it would read, `d_minfailures` and `d_failurewin`
 (simplomon.hh:62-63):
 - the y seconds are the checker's `failureWindow`: times strictly later
   than `now - failureWindow` count, so a report stops counting exactly
   `failureWindow` seconds after it was made;
 - the x is the checker's `minFailures`, read as a minimum: a pair alerts
   when at least `minFailures` of its times lie in the window, so a checker
   left at the default of 1 alerts on its first failure. A pair with no
   time in the window never alerts, whatever `minFailures` says.
 */
module ResultFilter {
  import opened CInts

  type Time = int

  const DefaultMaxSeconds: Int32 := 3600

  /** `CheckResultFilter`: `d_reports` and `d_maxseconds`. */
  datatype Filter<C> = Filter(reports: map<C, map<string, set<Time>>>, maxSeconds: Int32)

  /** `CheckResultFilter(maxseconds = 3600)`: an empty store. */
  function NewFilter<C(!new)>(maxSeconds: Int32 := DefaultMaxSeconds): (f: Filter<C>)
    ensures f.maxSeconds == maxSeconds
    ensures |f.reports| == 0
  {
    Filter(map[], maxSeconds)
  }

  /** A new filter raises no alert, whatever the limits and the time. */
  lemma NewFilterQuiet<C(!new)>(limits: map<C, Limits>, now: Time)
    ensures FilteredResults(NewFilter<C>(), limits, now) == {}
  {
  }

  /** The times recorded for one (checker, reason) pair; a missing entry
      reads as no reports, as `operator[]` would create it empty. */
  function Timestamps<C(!new)>(f: Filter<C>, c: C, reason: string): set<Time>
  {
    if c in f.reports && reason in f.reports[c] then f.reports[c][reason] else {}
  }

  /** The reasons recorded for one checker. */
  function Reasons<C(!new)>(f: Filter<C>, c: C): map<string, set<Time>>
  {
    if c in f.reports then f.reports[c] else map[]
  }

  /** `reportResult(source, cr, t)`: `d_reports[source][cr].insert(t)`. */
  function Report<C(!new)>(f: Filter<C>, source: C, reason: string, t: Time): (g: Filter<C>)
    ensures g.maxSeconds == f.maxSeconds
    ensures Timestamps(g, source, reason) == Timestamps(f, source, reason) + {t}
    ensures forall c, r :: (c, r) != (source, reason) ==> Timestamps(g, c, r) == Timestamps(f, c, r)
    ensures g.reports.Keys == f.reports.Keys + {source}
    ensures forall c :: c in f.reports && c != source ==> g.reports[c] == f.reports[c]
    ensures g.reports[source].Keys == Reasons(f, source).Keys + {reason}
  {
    var inner := Reasons(f, source);
    var ts := if reason in inner then inner[reason] else {};
    Filter(f.reports[source := inner[reason := ts + {t}]], f.maxSeconds)
  }

  /** Repeating a report changes nothing: timestamps form a set. */
  lemma {:induction false} ReportIsIdempotent<C(!new)>(f: Filter<C>, source: C, reason: string, t: Time)
    ensures Report(Report(f, source, reason, t), source, reason, t) == Report(f, source, reason, t)
  {
    var g := Report(f, source, reason, t);
    var h := Report(g, source, reason, t);
    assert h.reports[source] == g.reports[source];
  }

  /** Two stores are equal when they hold the same checkers, the same
      reasons per checker and the same times per pair. */
  lemma {:induction false} FilterExtensionality<C(!new)>(a: Filter<C>, b: Filter<C>)
    requires a.maxSeconds == b.maxSeconds
    requires a.reports.Keys == b.reports.Keys
    requires forall c :: c in a.reports ==> Reasons(a, c).Keys == Reasons(b, c).Keys
    requires forall c, r :: Timestamps(a, c, r) == Timestamps(b, c, r)
    ensures a == b
  {
    forall c | c in a.reports
      ensures a.reports[c] == b.reports[c]
    {
      assert Reasons(a, c).Keys == Reasons(b, c).Keys;
      forall r | r in a.reports[c]
        ensures a.reports[c][r] == b.reports[c][r]
      {
        assert Timestamps(a, c, r) == Timestamps(b, c, r);
      }
    }
    assert a.reports == b.reports;
  }

  /** No checker without reasons and no reason without times: the shape a
      store has right after pruning. */
  predicate Normalized<C(!new)>(f: Filter<C>)
  {
    && (forall c :: c in f.reports ==> f.reports[c] != map[])
    && (forall c, r :: c in f.reports && r in f.reports[c] ==> f.reports[c][r] != {})
  }

  /** Normalized stores are determined by their maximum and their times. */
  lemma {:induction false} NormalizedExtensionality<C(!new)>(a: Filter<C>, b: Filter<C>)
    requires Normalized(a) && Normalized(b)
    requires a.maxSeconds == b.maxSeconds
    requires forall c, r :: Timestamps(a, c, r) == Timestamps(b, c, r)
    ensures a == b
  {
    forall c | c in a.reports
      ensures c in b.reports
    {
      var r := SomeKey(a.reports[c]);
      assert Timestamps(a, c, r) != {};
    }
    forall c | c in b.reports
      ensures c in a.reports
    {
      var r := SomeKey(b.reports[c]);
      assert Timestamps(b, c, r) != {};
    }
    forall c | c in a.reports
      ensures Reasons(a, c).Keys == Reasons(b, c).Keys
    {
      forall r | r in a.reports[c]
        ensures r in b.reports[c]
      {
        assert Timestamps(a, c, r) != {};
      }
      forall r | r in b.reports[c]
        ensures r in a.reports[c]
      {
        assert Timestamps(b, c, r) != {};
      }
    }
    FilterExtensionality(a, b);
  }

  lemma SomeKey<K, V>(m: map<K, V>) returns (k: K)
    requires m != map[]
    ensures k in m
  {
    assert m.Keys == {} ==> m == map[];
    k :| k in m.Keys;
  }

  /** The reasons a report leaves a checker with. */
  lemma ReportReasons<C(!new)>(f: Filter<C>, source: C, reason: string, t: Time, c: C)
    ensures Reasons(Report(f, source, reason, t), c).Keys
         == Reasons(f, c).Keys + (if c == source then {reason} else {})
  {
  }

  /** The times a report leaves a pair with. */
  lemma ReportTimestamps<C(!new)>(f: Filter<C>, source: C, reason: string, t: Time, c: C, r: string)
    ensures Timestamps(Report(f, source, reason, t), c, r)
         == Timestamps(f, c, r) + (if (c, r) == (source, reason) then {t} else {})
  {
  }

  /** The order in which two reports arrive does not matter. */
  lemma {:induction false} ReportsCommute<C(!new)>(f: Filter<C>, s1: C, r1: string, t1: Time, s2: C, r2: string, t2: Time)
    ensures Report(Report(f, s1, r1, t1), s2, r2, t2) == Report(Report(f, s2, r2, t2), s1, r1, t1)
  {
    var f1, f2 := Report(f, s1, r1, t1), Report(f, s2, r2, t2);
    var a, b := Report(f1, s2, r2, t2), Report(f2, s1, r1, t1);
    forall c | c in a.reports
      ensures Reasons(a, c).Keys == Reasons(b, c).Keys
    {
      ReportReasons(f, s1, r1, t1, c);
      ReportReasons(f1, s2, r2, t2, c);
      ReportReasons(f, s2, r2, t2, c);
      ReportReasons(f2, s1, r1, t1, c);
    }
    forall c, r
      ensures Timestamps(a, c, r) == Timestamps(b, c, r)
    {
      ReportTimestamps(f, s1, r1, t1, c, r);
      ReportTimestamps(f1, s2, r2, t2, c, r);
      ReportTimestamps(f, s2, r2, t2, c, r);
      ReportTimestamps(f2, s1, r1, t1, c, r);
    }
    FilterExtensionality(a, b);
  }

  // ---------------------------------------------------------------------
  // Specification of `getFilteredResults` (its body is not in the header).
  // ---------------------------------------------------------------------

  /** A checker's alerting parameters, `d_minfailures` and `d_failurewin`. */
  datatype Limits = Limits(minFailures: Int32, failureWindow: Int32)

  /** The limits applying to checker `c`. In the system every checker
      carries its own; a checker this model was given no limits for falls
      back to one failure within the filter's `maxSeconds`. */
  function LimitsOf<C(!new)>(f: Filter<C>, limits: map<C, Limits>, c: C): (lim: Limits)
    ensures c in limits ==> lim == limits[c]
    ensures c !in limits ==> lim.minFailures == 1 && lim.failureWindow == f.maxSeconds
  {
    if c in limits then limits[c] else Limits(1, f.maxSeconds)
  }

  /** The times that lie in the trailing window of `window` seconds ending
      at `now`: strictly later than `now - window`. */
  function Recent(ts: set<Time>, now: Time, window: int): (w: set<Time>)
  {
    set t | t in ts && now - window < t
  }

  /** Whether the pair (c, reason) alerts at time `now`. An alerting pair
      was reported at least once inside its window, and at least
      `minFailures` times in all. */
  predicate Alerting<C(!new)>(f: Filter<C>, limits: map<C, Limits>, c: C, reason: string, now: Time)
    ensures Alerting(f, limits, c, reason, now) ==>
              exists t :: t in Timestamps(f, c, reason) && now - LimitsOf(f, limits, c).failureWindow as int < t
    ensures Alerting(f, limits, c, reason, now) ==>
              |Timestamps(f, c, reason)| >= LimitsOf(f, limits, c).minFailures as int
  {
    var lim := LimitsOf(f, limits, c);
    var ts := Timestamps(f, c, reason);
    var n := |Recent(ts, now, lim.failureWindow as int)|;
    SubsetCardinality(Recent(ts, now, lim.failureWindow as int), ts);
    n > 0 && n >= lim.minFailures as int
  }

  /** `getFilteredResults()` evaluated at time `now`: the set of alerting
      pairs, as an unordered set. */
  function FilteredResults<C(!new)>(f: Filter<C>, limits: map<C, Limits>, now: Time): (alerts: set<(C, string)>)
    ensures forall c, reason :: (c, reason) in alerts <==> Alerting(f, limits, c, reason, now)
  {
    set c, reason | c in f.reports && reason in f.reports[c] && Alerting(f, limits, c, reason, now) :: (c, reason)
  }

  /** Only pairs with a stored entry can alert. */
  lemma AlertingHasEntry<C(!new)>(f: Filter<C>, limits: map<C, Limits>, c: C, reason: string, now: Time)
    requires Alerting(f, limits, c, reason, now)
    ensures c in f.reports && reason in f.reports[c]
  {
  }

  /** Fewer reports inside the window than `minFailures` never alert, and
      neither does a pair with no report inside the window. */
  lemma BelowThresholdNeverAlerts<C(!new)>(f: Filter<C>, limits: map<C, Limits>, c: C, reason: string, now: Time)
    requires var lim := LimitsOf(f, limits, c);
             var n := |Recent(Timestamps(f, c, reason), now, lim.failureWindow as int)|;
             n < lim.minFailures as int || n == 0
    ensures (c, reason) !in FilteredResults(f, limits, now)
  {
  }

  /** Once every report of a pair is at least one window old, the pair no
      longer alerts. */
  lemma ExpiredReportsNeverAlert<C(!new)>(f: Filter<C>, limits: map<C, Limits>, c: C, reason: string, now: Time)
    requires forall t :: t in Timestamps(f, c, reason) ==> t + LimitsOf(f, limits, c).failureWindow as int <= now
    ensures (c, reason) !in FilteredResults(f, limits, now)
  {
  }

  /** Adding a report never withdraws an alert. */
  lemma {:induction false} ReportKeepsAlerts<C(!new)>(f: Filter<C>, limits: map<C, Limits>, source: C, reason: string, t: Time, now: Time)
    ensures FilteredResults(f, limits, now) <= FilteredResults(Report(f, source, reason, t), limits, now)
  {
    var g := Report(f, source, reason, t);
    forall p | p in FilteredResults(f, limits, now)
      ensures p in FilteredResults(g, limits, now)
    {
      var (c, r) := p;
      var w := LimitsOf(f, limits, c).failureWindow as int;
      ReportTimestamps(f, source, reason, t, c, r);
      SubsetCardinality(Recent(Timestamps(f, c, r), now, w), Recent(Timestamps(g, c, r), now, w));
    }
  }

  /** A report touches the decision for its own pair only. */
  lemma ReportAffectsOnlyItsPair<C(!new)>(f: Filter<C>, limits: map<C, Limits>, source: C, reason: string, t: Time, c: C, r: string, now: Time)
    requires (c, r) != (source, reason)
    ensures (c, r) in FilteredResults(Report(f, source, reason, t), limits, now)
        <==> (c, r) in FilteredResults(f, limits, now)
  {
  }

  /** For a checker that alerts on a single failure, a report inside the
      window raises the alert for its pair. */
  lemma ReportInWindowRaises<C(!new)>(f: Filter<C>, limits: map<C, Limits>, source: C, reason: string, t: Time, now: Time)
    requires LimitsOf(f, limits, source).minFailures <= 1
    requires now - LimitsOf(f, limits, source).failureWindow as int < t
    ensures (source, reason) in FilteredResults(Report(f, source, reason, t), limits, now)
  {
    var g := Report(f, source, reason, t);
    assert t in Recent(Timestamps(g, source, reason), now, LimitsOf(f, limits, source).failureWindow as int);
  }

  lemma SubsetCardinality<T>(a: set<T>, b: set<T>)
    requires a <= b
    ensures |a| <= |b|
  {
    assert b == a + (b - a);
  }

  // ---------------------------------------------------------------------
  // Pruning, which `getFilteredResults` is expected to do as it evaluates.
  // ---------------------------------------------------------------------

  /** One checker's reasons with stale times dropped, and reasons left
      without times dropped entirely. */
  function PruneReasons(reasons: map<string, set<Time>>, now: Time, window: int): (pruned: map<string, set<Time>>)
    ensures pruned.Keys <= reasons.Keys
    ensures forall r :: r in reasons ==> (r in pruned <==> Recent(reasons[r], now, window) != {})
    ensures forall r :: r in pruned ==> pruned[r] == Recent(reasons[r], now, window)
  {
    map r | r in reasons && Recent(reasons[r], now, window) != {} :: Recent(reasons[r], now, window)
  }

  /** The store after every pair dropped its stale times and every empty
      entry was removed. */
  function Prune<C(!new)>(f: Filter<C>, limits: map<C, Limits>, now: Time): (g: Filter<C>)
    ensures g.maxSeconds == f.maxSeconds
    ensures g.reports.Keys <= f.reports.Keys
    ensures forall c, r :: Timestamps(g, c, r)
                        == Recent(Timestamps(f, c, r), now, LimitsOf(f, limits, c).failureWindow as int)
    ensures Normalized(g)
  {
    var pruned := map c | c in f.reports
                        && PruneReasons(f.reports[c], now, LimitsOf(f, limits, c).failureWindow as int) != map[]
                        :: PruneReasons(f.reports[c], now, LimitsOf(f, limits, c).failureWindow as int);
    var g := Filter(pruned, f.maxSeconds);
    forall c, r
      ensures Timestamps(g, c, r)
           == Recent(Timestamps(f, c, r), now, LimitsOf(f, limits, c).failureWindow as int)
    {
      var w := LimitsOf(f, limits, c).failureWindow as int;
      if c in f.reports && r in f.reports[c] && Recent(f.reports[c][r], now, w) != {} {
        assert r in PruneReasons(f.reports[c], now, w);
      }
    }
    g
  }

  /** The trailing window at a later time lies inside the one at an earlier
      time, so dropping what is stale now loses nothing later. */
  lemma RecentOfRecent(ts: set<Time>, now: Time, later: Time, window: int)
    requires now <= later
    ensures Recent(Recent(ts, now, window), later, window) == Recent(ts, later, window)
  {
  }

  /** Pruning at `now` leaves every decision at `now` or later unchanged:
      a pruned time never contributes again. */
  lemma {:induction false} PruneKeepsDecisions<C(!new)>(f: Filter<C>, limits: map<C, Limits>, now: Time, later: Time)
    requires now <= later
    ensures FilteredResults(Prune(f, limits, now), limits, later) == FilteredResults(f, limits, later)
  {
    var g := Prune(f, limits, now);
    forall c, r
      ensures Alerting(g, limits, c, r, later) <==> Alerting(f, limits, c, r, later)
    {
      RecentOfRecent(Timestamps(f, c, r), now, later, LimitsOf(f, limits, c).failureWindow as int);
    }
  }

  /** Pruning twice at the same time is pruning once. */
  lemma {:induction false} PruneIsIdempotent<C(!new)>(f: Filter<C>, limits: map<C, Limits>, now: Time)
    ensures Prune(Prune(f, limits, now), limits, now) == Prune(f, limits, now)
  {
    var g := Prune(f, limits, now);
    var h := Prune(g, limits, now);
    forall c, r
      ensures Timestamps(h, c, r) == Timestamps(g, c, r)
    {
      RecentOfRecent(Timestamps(f, c, r), now, now, LimitsOf(f, limits, c).failureWindow as int);
    }
    NormalizedExtensionality(h, g);
  }

  // ---------------------------------------------------------------------
  // An evaluation procedure meeting the specification.
  // ---------------------------------------------------------------------

  /** The number of times within the trailing window, counted one by one. */
  method CountRecent(ts: set<Time>, now: Time, window: int) returns (n: nat)
    ensures n == |Recent(ts, now, window)|
  {
    n := 0;
    var rest := ts;
    while rest != {}
      invariant rest <= ts
      invariant n + |Recent(rest, now, window)| == |Recent(ts, now, window)|
      decreases |rest|
    {
      var t :| t in rest;
      assert Recent(rest - {t}, now, window) == Recent(rest, now, window) - {t};
      if now - window < t {
        n := n + 1;
      }
      rest := rest - {t};
    }
  }

  /** The alerting reasons of one checker. */
  method AlertingReasons<C(!new)>(f: Filter<C>, limits: map<C, Limits>, c: C, now: Time)
    returns (reasons: set<string>)
    ensures forall r :: r in reasons <==> Alerting(f, limits, c, r, now)
  {
    var lim := LimitsOf(f, limits, c);
    var all := Reasons(f, c);
    reasons := {};
    var todo := all.Keys;
    while todo != {}
      invariant todo <= all.Keys
      invariant forall r :: r in reasons <==> r in all.Keys - todo && Alerting(f, limits, c, r, now)
      decreases |todo|
    {
      var r :| r in todo;
      var n := CountRecent(all[r], now, lim.failureWindow as int);
      if n > 0 && n >= lim.minFailures as int {
        reasons := reasons + {r};
      }
      todo := todo - {r};
    }
  }

  /** `getFilteredResults()` at time `now`, checker by checker. */
  method GetFilteredResults<C(!new)>(f: Filter<C>, limits: map<C, Limits>, now: Time)
    returns (alerts: set<(C, string)>)
    ensures alerts == FilteredResults(f, limits, now)
  {
    alerts := {};
    var todo := f.reports.Keys;
    while todo != {}
      invariant todo <= f.reports.Keys
      invariant forall c, r :: (c, r) in alerts <==> c in f.reports.Keys - todo && Alerting(f, limits, c, r, now)
      decreases |todo|
    {
      var c :| c in todo;
      var reasons := AlertingReasons(f, limits, c, now);
      alerts := alerts + set r | r in reasons :: (c, r);
      todo := todo - {c};
    }
    var spec := FilteredResults(f, limits, now);
    forall p | p in spec
      ensures p in alerts
    {
      var (c, r) := p;
      AlertingHasEntry(f, limits, c, r, now);
    }
    forall p | p in alerts
      ensures p in spec
    {
      var (c, r) := p;
      assert Alerting(f, limits, c, r, now);
    }
  }
}
