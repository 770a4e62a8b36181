/** The kernel's error classes; one constructor per raised condition. */
module Errors {

  datatype KernelError =
    | IntervalError
    | SingleValuedFactError
    | RatioOutOfRange
    | EmploymentOverAllocated
    | AssignmentPersonMismatch
    | ContradictoryEmployment
    | EmploymentNotCovered
    | PositionNotCovered
    | PositionOverAllocated
    | UnknownConcurrencyCode
    | ExclusiveEmploymentsOverlap
    | OrganizationCycle
    | AlreadyClosed
    | CloseNotAfterStart

  /** What a raising check does: return, or raise one error. */
  datatype Outcome = Pass | Fail(error: KernelError)

  /** Checks run on days in ascending order: pass, or the failure of the earliest failing day. */
  ghost predicate EarliestFailure(outcome: Outcome, days: set<int>, verdict: int -> Outcome) {
    if outcome.Pass? then
      forall d :: d in days ==> verdict(d).Pass?
    else
      exists d :: d in days && outcome == verdict(d) && forall e :: e in days && e < d ==> verdict(e).Pass?
  }

  /** The first day that fails in an ascending list is the earliest of all. */
  lemma FirstFailureIsEarliest(list: seq<int>, days: set<int>, verdict: int -> Outcome, i: nat)
    requires forall j, k :: 0 <= j < k < |list| ==> list[j] < list[k]
    requires forall d :: d in list <==> d in days
    requires i < |list| && verdict(list[i]).Fail?
    requires forall k :: 0 <= k < i ==> verdict(list[k]).Pass?
    ensures EarliestFailure(verdict(list[i]), days, verdict)
  {
    assert list[i] in list;
    forall e | e in days && e < list[i] ensures verdict(e).Pass? {
      var k :| 0 <= k < |list| && list[k] == e;
      assert k < i;
    }
  }

  lemma NoFailureIsPass(list: seq<int>, days: set<int>, verdict: int -> Outcome)
    requires forall d :: d in list <==> d in days
    requires forall k :: 0 <= k < |list| ==> verdict(list[k]).Pass?
    ensures EarliestFailure(Pass, days, verdict)
  {
    forall d | d in days ensures verdict(d).Pass? {
      var k :| 0 <= k < |list| && list[k] == d;
    }
  }
}
