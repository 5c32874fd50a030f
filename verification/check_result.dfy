/** The outcome of one probe execution (simplomon.hh:18-24). */
module CheckResults {

  /** A result is nothing but its reason. The empty reason means success;
      every non-empty reason is a failure, and different reasons are
      different failures. */
  datatype CheckResult = CheckResult(reason: string) {
    predicate IsSuccess() {
      |reason| == 0
    }
  }

  /** The default constructor: a result that carries no reason. */
  function Default(): (r: CheckResult)
    ensures r.IsSuccess()
    ensures r.reason == ""
  {
    CheckResult("")
  }

  /** The constructors from a `std::string` and from a `const char*`: both
      keep exactly the reason they were given. */
  function FromReason(reason: string): (r: CheckResult)
    ensures r.reason == reason
    ensures r.IsSuccess() <==> reason == ""
  {
    CheckResult(reason)
  }

  /** Two results are the same failure exactly when their reasons agree,
      and a result is rebuilt unchanged from its own reason. */
  lemma FromReasonInjective(a: string, b: string, cr: CheckResult)
    ensures FromReason(a) == FromReason(b) <==> a == b
    ensures FromReason(cr.reason) == cr
  {
  }

  /** Any non-empty reason is a failure and the default is the only success. */
  lemma SuccessIsDefault(cr: CheckResult)
    ensures cr.IsSuccess() <==> cr == Default()
  {
  }
}
