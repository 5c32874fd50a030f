/**
 The part of a checker that every check kind shares (simplomon.hh:28-70):
 resolving its alert thresholds from the configuration table, consuming the
 keys it understands, taking a snapshot of the notifier list, and keeping
 its last-known status.
 */
module Checkers {
  import opened CInts
  import opened LuaTables
  import opened CheckResults

  /** Built-in defaults of `d_minfailures` and `d_failurewin`. */
  const DefaultMinFailures: Int32 := 1
  const DefaultFailureWindow: Int32 := 120

  /** The constructor's default argument: "no minimum given". */
  const NoMinFailures: Int32 := -1

  /** The keys the shared constructor consumes; all others are left for the
      check kind's own parsing and validation. */
  const ConsumedKeys: set<string> := {"subject", "minFailures", "failureWindow"}

  /** What the shared constructor leaves behind: the resolved settings, the
      configuration table with the consumed keys removed, and the checker's
      own copy of the notifier list. Notifiers are opaque identities. */
  datatype Construction<N> = Construction(
    minFailures: Int32,
    failureWindow: Int32,
    table: Table,
    notifiers: seq<N>)

  /** `Checker(data, minFailures)`, with the process-wide notifier list
      passed in explicitly. The table entry beats the argument, the argument
      beats the built-in default, and a negative argument counts as absent. */
  function Construct<N>(data: Table, globalNotifiers: seq<N>, minFailures: Int32 := NoMinFailures)
    : (c: Construction<N>)
    ensures "minFailures" in data && data["minFailures"].Int? ==>
              c.minFailures == ToCInt(data["minFailures"].n)
    ensures !("minFailures" in data && data["minFailures"].Int?) && minFailures >= 0 ==>
              c.minFailures == minFailures
    ensures !("minFailures" in data && data["minFailures"].Int?) && minFailures < 0 ==>
              c.minFailures == 1
    ensures "failureWindow" in data && data["failureWindow"].Int? ==>
              c.failureWindow == ToCInt(data["failureWindow"].n)
    ensures !("failureWindow" in data && data["failureWindow"].Int?) ==>
              c.failureWindow == 120
    ensures c.table.Keys == data.Keys - ConsumedKeys
    ensures forall k :: k in c.table ==> c.table[k] == data[k]
    ensures c.notifiers == globalNotifiers
  {
    var initial := if minFailures >= 0 then minFailures else DefaultMinFailures;
    var rest := Erase(Erase(Erase(data, "subject"), "minFailures"), "failureWindow");
    Construction(
      GetOr(data, "minFailures", initial),
      GetOr(data, "failureWindow", DefaultFailureWindow),
      rest,
      globalNotifiers)
  }

  /** A negative constructor argument behaves exactly like leaving it out. */
  lemma NegativeArgumentIsIgnored<N>(data: Table, globalNotifiers: seq<N>, minFailures: Int32)
    requires minFailures < 0
    ensures Construct(data, globalNotifiers, minFailures) == Construct(data, globalNotifiers)
  {
  }

  /** Consuming the keys is idempotent: a table that has already been through
      the constructor loses nothing more, and then yields only the defaults. */
  lemma ConsumptionIsIdempotent<N>(data: Table, globalNotifiers: seq<N>, minFailures: Int32)
    ensures var c := Construct(data, globalNotifiers, minFailures);
            var c' := Construct(c.table, globalNotifiers, minFailures);
            && c'.table == c.table
            && c'.minFailures == (if minFailures >= 0 then minFailures else DefaultMinFailures)
            && c'.failureWindow == DefaultFailureWindow
  {
  }

  /** The keys a check kind still has to recognise after the shared
      constructor ran: exactly the ones outside `ConsumedKeys`. A pointwise
      corollary of `Construct`'s key-set clause, in the form a kind-specific
      "unknown key" check would use. */
  lemma LeftoverKeysAreUnconsumed<N>(data: Table, globalNotifiers: seq<N>, minFailures: Int32, k: string)
    ensures k in Construct(data, globalNotifiers, minFailures).table <==> k in data && k !in ConsumedKeys
  {
  }

  /**
   The last-known status of a checker. In the system every access holds a
   per-checker mutex; here access is sequential.
   */
  class StatusCell {
    var status: CheckResult

    /** A checker that has never run reports the default (success) result. */
    constructor()
      ensures status == Default()
    {
      status := Default();
    }

    /** `getStatus`: returns the stored status and changes nothing. */
    method GetStatus() returns (cr: CheckResult)
      ensures cr == status
    {
      cr := status;
    }

    /** `setStatus`: replaces the stored status. */
    method SetStatus(cr: CheckResult)
      modifies this
      ensures status == cr
    {
      status := cr;
    }
  }

  /** `setStatus(cr)` followed by `getStatus()` reads back `cr`, and a
      second read still does. */
  method GetAfterSet(cr: CheckResult) returns (first: CheckResult, second: CheckResult)
    ensures first == cr
    ensures second == cr
  {
    var cell := new StatusCell();
    cell.SetStatus(cr);
    first := cell.GetStatus();
    second := cell.GetStatus();
  }

  /** Before any `setStatus`, `getStatus()` reports success. */
  method GetBeforeAnySet() returns (cr: CheckResult)
    ensures cr.IsSuccess()
  {
    var cell := new StatusCell();
    cr := cell.GetStatus();
  }
}
