# simplomon alert bookkeeping, modelled in Dafny

simplomon is an active monitor. It runs health checks (DNS, DNSSEC
signatures, SOA consistency, TCP ports, ping, HTTPS, HTTP redirects). It
decides when repeated failures amount to an incident, and then notifies. This
project models the bookkeeping that every check shares, as declared in
`simplomon.hh`:

- **`CheckResult`** (`check_result.dfy`, module `CheckResults`). A result is
  just a reason string. The empty reason means success.
- **The C++ `int`** (`c_int.dfy`, module `CInts`). `Int32` holds the
  checkers' settings and the filter's `maxseconds`. `ToCInt` narrows a wider
  integer into it.
- **The configuration table** (`lua_table.dfy`, module `LuaTables`). Lua
  tables become a `map<string, Value>`. The module also holds the `int`
  lookup with a default (`get_or`) and assignment of `nil`, which erases the
  key.
- **The `Checker` base class** (`checker.dfy`, module `Checkers`). Its
  constructor is a pure function, `Construct`, which returns:
  - the resolved `minFailures` (built-in 1, overridden by a non-negative
    constructor argument, overridden in turn by the table);
  - the resolved `failureWindow` (table, else 120);
  - the table minus `subject`, `minFailures` and `failureWindow`;
  - the checker's own copy of the notifier list.

  The process-wide notifier list is passed in as a parameter rather than
  read from a global. The last-known status is a small class, `StatusCell`,
  with `GetStatus`/`SetStatus`.
- **`CheckResultFilter`** (`result_filter.dfy`, module `ResultFilter`). It
  stores checker → reason → set of timestamps. `Report` is
  `reportResult(source, cr, t)`. The default `maxseconds` is 3600.
- **Worked examples** (`scenarios.dfy`, module `Scenarios`). These join a
  constructed checker's settings to the filter's alert decision.

`getFilteredResults` is only declared in the header; its body is not part of
this model. `Alerting`, `FilteredResults` and `Prune` are therefore this
model's own specification of it. They read the header comment "sets alert
status if there have been more than x alerts in y seconds" (simplomon.hh:72)
against the two settings every checker carries, `d_minfailures` and
`d_failurewin` (simplomon.hh:62-63):

- The decision is evaluated at an explicit time `now`, since the clock is a
  parameter here.
- The y seconds are the checker's `failureWindow`. Times strictly later than
  `now - failureWindow` count, so a report stops counting exactly
  `failureWindow` seconds after it was made (`ExpiredReportsNeverAlert`).
- The x is the checker's `minFailures`. "More than x" is read as "at least
  `minFailures`", because the setting is named a minimum and defaults to 1.
  Read strictly, the default checker would need two failures to alert, which
  the name and the default rule out. So exactly `minFailures` in-window
  reports alert.
- A pair with no report in its window never alerts. This matters because
  the constructor stores whatever integer the table holds, including 0 or a
  negative `minFailures`.
- A checker's limits come from a `limits` map. A checker with no entry falls
  back to `minFailures = 1` within the filter's `maxSeconds` (`LimitsOf`).
- Pruning drops timestamps outside the window and entries left empty.

`GetFilteredResults` is a checker-by-checker, reason-by-reason procedure
(`CountRecent`, `AlertingReasons`). It is proved to compute exactly
`FilteredResults`.

Checker identities are a type parameter `C`, an opaque key that is never
dereferenced. Notifiers are a type parameter `N`, opaque identities.
Timestamps are unbounded integers.

## Model

| member | source | states |
|---|---|---|
| CheckResults.Default | simplomon.hh:20 | a default-constructed result has the empty reason and is a success |
| CheckResults.FromReason | simplomon.hh:21-23 | a result built from a string carries exactly that reason; it is a success only for the empty string |
| CheckResults.FromReasonInjective | simplomon.hh:18-24 | two results are equal exactly when their reasons are; rebuilding a result from its reason gives it back |
| CheckResults.SuccessIsDefault | simplomon.hh:20-23 | a result is a success exactly when it equals the default-constructed one |
| CInts.ToCInt | simplomon.hh:35-36 | storing a Lua integer in a C++ `int` keeps it modulo 2^32, and keeps it unchanged when it fits in 32 bits |
| LuaTables.GetOr | simplomon.hh:35-36 | `get_or` yields the (narrowed) integer entry when the key holds an integer, and the default when the key is missing or holds a non-integer |
| LuaTables.Erase | simplomon.hh:38-40 | assigning nil removes exactly that key and leaves every other entry's value alone |
| Checkers.Construct | simplomon.hh:31-43 | minFailures precedence: table entry, else a non-negative argument, else 1; failureWindow is the table entry, else 120; the remaining table is the input minus exactly subject/minFailures/failureWindow, with values unchanged; the notifier list is a copy of the global list |
| Checkers.NegativeArgumentIsIgnored | simplomon.hh:31-35 | a negative constructor argument gives the same construction as omitting it (default −1) |
| Checkers.ConsumptionIsIdempotent | simplomon.hh:35-40 | constructing again from the consumed table removes nothing more and resolves only the defaults |
| Checkers.LeftoverKeysAreUnconsumed | simplomon.hh:38-40 | pointwise corollary of `Construct`: a key survives construction exactly when it was present and is not one of the three consumed keys |
| Checkers.StatusCell.GetStatus | simplomon.hh:51-55 | `getStatus` returns the stored status and modifies nothing |
| Checkers.StatusCell.SetStatus | simplomon.hh:56-60 | `setStatus` stores the given result |
| Checkers.GetAfterSet | simplomon.hh:51-60 | reading after `setStatus(cr)` yields `cr`, and reading again still yields `cr` |
| Checkers.GetBeforeAnySet | simplomon.hh:51-55 | before any `setStatus`, `getStatus` reports success (the status field is default-constructed, line 68) |
| ResultFilter.NewFilter | simplomon.hh:75 | a new filter has no reports and the given maxseconds, 3600 by default |
| ResultFilter.NewFilterQuiet | simplomon.hh:75 | a new filter raises no alert, for any limits and any time |
| ResultFilter.Report | simplomon.hh:76-79 | the reported time joins the pair's set; every other pair's set, every other checker's map and maxseconds are unchanged; the checker and reason entries exist afterwards |
| ResultFilter.ReportTimestamps | simplomon.hh:78 | after a report, a pair's times are its old times plus `t` when it is the reported pair, and its old times otherwise |
| ResultFilter.ReportIsIdempotent | simplomon.hh:78 | repeating the same report leaves the store unchanged (the timestamps form a set, line 87) |
| ResultFilter.ReportsCommute | simplomon.hh:76-79 | two reports give the same store in either order |
| ResultFilter.LimitsOf | simplomon.hh:62-63 | (model's own specification) a checker's limits are its own `minFailures`/`failureWindow` when given, and one failure within `maxseconds` otherwise |
| ResultFilter.Alerting | simplomon.hh:72 | (model's own specification) an alerting pair has at least one report inside its window and at least `minFailures` reports in all |
| ResultFilter.FilteredResults | simplomon.hh:85 | (model's own specification) a pair is in the result exactly when it alerts; pairs never reported are never in it |
| ResultFilter.AlertingHasEntry | simplomon.hh:85 | (model's own specification) only pairs with a stored entry can alert |
| ResultFilter.BelowThresholdNeverAlerts | simplomon.hh:72 | fewer in-window reports than minFailures, or none at all, never alert |
| ResultFilter.ExpiredReportsNeverAlert | simplomon.hh:72 | when every report of a pair is at least one window old, the pair does not alert |
| ResultFilter.ReportKeepsAlerts | simplomon.hh:76-85 | adding a report never withdraws an alert at the same evaluation time |
| ResultFilter.ReportAffectsOnlyItsPair | simplomon.hh:76-85 | a report does not change the decision for any other (checker, reason) pair |
| ResultFilter.ReportInWindowRaises | simplomon.hh:72-85 | with minFailures at most 1, a report inside the window makes its pair alert |
| ResultFilter.PruneReasons | simplomon.hh:85-87 | (model's own specification) a pruned reason map keeps a reason exactly when it has in-window times, and keeps only those times |
| ResultFilter.Prune | simplomon.hh:85-87 | (model's own specification) after pruning each pair holds exactly its in-window times, no entry is empty, maxseconds is unchanged |
| ResultFilter.PruneKeepsDecisions | simplomon.hh:85-87 | pruning at `now` changes no decision at `now` or any later time |
| ResultFilter.PruneIsIdempotent | simplomon.hh:85-87 | pruning twice at the same time equals pruning once |
| ResultFilter.RecentOfRecent | simplomon.hh:72 | the trailing window at a later time is contained in the window at an earlier time |
| ResultFilter.CountRecent | simplomon.hh:85 | counting the set one element at a time yields the number of in-window times |
| ResultFilter.AlertingReasons | simplomon.hh:85 | the loop over a checker's reasons returns exactly its alerting reasons |
| ResultFilter.GetFilteredResults | simplomon.hh:85 | the loop over checkers and reasons computes exactly `FilteredResults` |
| Scenarios.UnconfiguredCheckerAlertsOnFirstReport | simplomon.hh:31-36 | a checker whose table sets no `minFailures`, built with a minimum of at most 1 or none, alerts on its first report inside its resolved window |
| Scenarios.ThreeFailuresChecker | simplomon.hh:31-36 | a table with `minFailures = 3` and no window resolves to limits (3, 120) |
| Scenarios.ThreeFailuresInWindow | simplomon.hh:72-79 | with limits (3, 120), "timeout" reported at 0, 30, 70 and 125 alerts at 125 and no longer alerts at 260 |
| Scenarios.ReasonsAreIndependent | simplomon.hh:87 | two reasons of one checker are judged apart: 2 reports of one reason alert while 1 of another does not |

## Left out

- ResultFilter.LimitsOf: the fallback to one failure within `maxseconds` for a checker without given limits is an abstraction this model adds. In the system every `Checker*` carries `d_minfailures` and `d_failurewin` (simplomon.hh:62-63), so that path does not exist there.
- ResultFilter.FilteredResults: the body of `getFilteredResults` is not in the header. This member, with `Alerting`, `Prune` and `GetFilteredResults`, is the model's own reading of the header comment at simplomon.hh:72 and the checker fields at simplomon.hh:62-63. Whether the real code uses `>` or `≥`, which window boundary it uses, and whether it caps windows at `maxseconds` are not modelled.
- Checkers.StatusCell.GetStatus: the mutex that serialises `getStatus`/`setStatus` is not modelled; access is sequential, and thread safety cannot be stated here.
- `reportResult(source, cr)` without a time: it reads the wall clock. Only the variant with an explicit timestamp is modelled.
- The concrete checkers (`DNSChecker`, `RRSIGChecker`, `DNSSOAChecker`, `TCPPortClosedChecker`, `PINGChecker`, `HTTPSChecker`, `HTTPRedirChecker`): their `perform()` is network I/O and is not part of this model. Their `getDescription`/`getCheckerName` format foreign address and name types.
- `perform`, `getDescription`, `getCheckerName` of the base class: pure virtual, with no behaviour to model.
- `d_attributes` and `d_results`: telemetry in a foreign variant type for the persistence layer.
- `g_lua`, `initLua`, `checkLuaTable`, `startWebService`, `giveToWebService`, `g_checkers`: declarations without bodies, or scripting and web plumbing.
- LuaTables.GetOr: Lua floating-point numbers and sol's conversion rules for them are not modelled. A table value is an integer, a string or a boolean, and only integers are read.
- `Notifier` behaviour: notifiers are opaque identities in a sequence, and sending and clearing notifications are external.
- The runner loop that compares successive `getFilteredResults` sets and sends raise and clear notifications is not in `simplomon.hh`. It is not part of this model.
- Timestamps (`time_t`) are unbounded integers. The 64-bit width of `time_t` and overflow in `now - window` are not modelled.
- CheckResults.FromReason: a null `const char*` is undefined behaviour in C++ and is not modelled.
