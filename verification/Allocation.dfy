/** Allocation totals, and the sweep that reduces every day of a period to a few probe days. */
module Allocation {
  import opened Prelude
  import opened Intervals
  import opened Facts

  function Total(facts: seq<AssignmentFact>): real {
    if facts == [] then 0.0 else facts[0].ratio + Total(facts[1..])
  }

  type Scope = AssignmentFact -> bool

  function OnPosition(tenant: Uuid, position: Uuid): Scope {
    (f: AssignmentFact) => f.tenant == tenant && f.position == position
  }

  function OnEmployment(tenant: Uuid, employment: Uuid): Scope {
    (f: AssignmentFact) => f.tenant == tenant && f.employment == employment
  }

  function InPortfolio(tenant: Uuid, person: Uuid, employment: Uuid): Scope {
    (f: AssignmentFact) => f.tenant == tenant && f.person == person && f.employment == employment
  }

  function AtDay(scope: Scope, day: int, knownAt: int): Scope {
    (f: AssignmentFact) => scope(f) && f.effective.Contains(day) && f.recorded.Contains(knownAt)
  }

  /** The allocation visible in the scope on one day, as known at one cutoff. */
  function Load(facts: seq<AssignmentFact>, scope: Scope, day: int, knownAt: int): real {
    Total(Filter(facts, AtDay(scope, day, knownAt)))
  }

  predicate NonNegative(facts: seq<AssignmentFact>, scope: Scope) {
    forall f :: f in facts && scope(f) ==> f.ratio >= 0.0
  }

  lemma {:induction false} TotalAppend(a: seq<AssignmentFact>, b: seq<AssignmentFact>)
    ensures Total(a + b) == Total(a) + Total(b)
  {
    if a == [] {
      assert a + b == b;
    } else {
      assert (a + b)[1..] == a[1..] + b;
      TotalAppend(a[1..], b);
    }
  }

  lemma TotalWithout(b: seq<AssignmentFact>, k: nat)
    requires k < |b|
    ensures Total(b) == b[k].ratio + Total(b[..k] + b[k + 1..])
  {
    assert b == b[..k] + ([b[k]] + b[k + 1..]);
    TotalAppend(b[..k], b[k + 1..]);
    TotalAppend(b[..k], [b[k]] + b[k + 1..]);
  }

  lemma WithoutCounts(b: seq<AssignmentFact>, k: nat)
    requires k < |b|
    ensures multiset(b[..k] + b[k + 1..]) == multiset(b) - multiset{b[k]}
  {
    assert b == b[..k] + ([b[k]] + b[k + 1..]);
  }

  lemma {:induction false} TotalPermutation(a: seq<AssignmentFact>, b: seq<AssignmentFact>)
    requires multiset(a) == multiset(b)
    ensures Total(a) == Total(b)
  {
    PermutationMembers(a, b);
    if a != [] {
      assert a[0] in b;
      var k :| 0 <= k < |b| && b[k] == a[0];
      TotalWithout(b, k);
      WithoutCounts(b, k);
      assert a == [a[0]] + a[1..];
      TotalPermutation(a[1..], b[..k] + b[k + 1..]);
    }
  }

  lemma LoadPermutation(a: seq<AssignmentFact>, b: seq<AssignmentFact>, scope: Scope, day: int, knownAt: int)
    requires multiset(a) == multiset(b)
    ensures Load(a, scope, day, knownAt) == Load(b, scope, day, knownAt)
  {
    FilterPermutation(a, b, AtDay(scope, day, knownAt));
    TotalPermutation(Filter(a, AtDay(scope, day, knownAt)), Filter(b, AtDay(scope, day, knownAt)));
  }

  lemma {:induction false} TotalOfSubset(facts: seq<AssignmentFact>, fewer: Scope, more: Scope)
    requires forall f :: f in facts && fewer(f) ==> more(f)
    requires forall f :: f in facts && more(f) ==> f.ratio >= 0.0
    ensures Total(Filter(facts, fewer)) <= Total(Filter(facts, more))
  {
    if facts != [] {
      assert facts[0] in facts;
      TotalOfSubset(facts[1..], fewer, more);
      TotalAppend([facts[0]], Filter(facts[1..], fewer));
      TotalAppend([facts[0]], Filter(facts[1..], more));
    }
  }

  /** Knowing later shows no more when every fact of the scope was recorded by the earlier cutoff. */
  lemma LoadKnownLater(facts: seq<AssignmentFact>, scope: Scope, day: int, knownAt: int, later: int)
    requires knownAt <= later
    requires NonNegative(facts, scope)
    requires forall f :: f in facts && scope(f) ==> f.recorded.start <= knownAt
    ensures Load(facts, scope, day, later) <= Load(facts, scope, day, knownAt)
  {
    TotalOfSubset(facts, AtDay(scope, day, later), AtDay(scope, day, knownAt));
  }

  ghost predicate StartsInside(f: AssignmentFact, target: Interval) {
    f.effective.Overlaps(target) && target.Contains(f.effective.start)
  }

  ghost function ProbeDays(facts: seq<AssignmentFact>, target: Interval): set<int> {
    {target.start} + set f | f in facts && StartsInside(f, target) :: f.effective.start
  }

  method AllocationProbeDays(facts: seq<AssignmentFact>, target: Interval) returns (days: seq<int>)
    ensures Ascending(days)
    ensures forall d :: d in days <==> d in ProbeDays(facts, target)
  {
    var probes := {target.start};
    for i := 0 to |facts|
      invariant probes == ProbeDays(facts[..i], target)
    {
      assert facts[..i + 1] == facts[..i] + [facts[i]];
      assert ProbeDays(facts[..i + 1], target)
          == ProbeDays(facts[..i], target)
             + (if StartsInside(facts[i], target) then {facts[i].effective.start} else {});
      if facts[i].effective.Overlaps(target) && target.Contains(facts[i].effective.start) {
        probes := probes + {facts[i].effective.start};
      }
    }
    assert facts[..|facts|] == facts;
    days := SortedMembers(probes);
  }

  /** The last probe day not after `day`: whatever is visible on `day` is visible then. */
  lemma {:induction false} LatestProbe(facts: seq<AssignmentFact>, target: Interval, day: int) returns (probe: int)
    requires target.Contains(day)
    ensures probe in ProbeDays(facts, target) && probe <= day
    ensures forall f :: f in facts && f.effective.Contains(day) ==> f.effective.Contains(probe)
  {
    if facts == [] {
      probe := target.start;
    } else {
      probe := LatestProbe(facts[1..], target, day);
      assert ProbeDays(facts[1..], target) <= ProbeDays(facts, target);
      var start := facts[0].effective.start;
      if facts[0].effective.Contains(day) && probe < start {
        assert StartsInside(facts[0], target);
        assert start in ProbeDays(facts, target);
        probe := start;
      }
    }
  }

  /** Capping the probe days caps every day of the target, and conversely. */
  ghost predicate ProbesDecide(facts: seq<AssignmentFact>, scope: Scope, target: Interval, knownAt: int, cap: real) {
    (forall d :: d in ProbeDays(facts, target) ==> Load(facts, scope, d, knownAt) <= cap)
    <==> (forall day :: target.Contains(day) ==> Load(facts, scope, day, knownAt) <= cap)
  }

  /** The visible facts of the scope whose effective time ends on `day`. */
  function EndingOn(scope: Scope, day: int, knownAt: int): Scope {
    (f: AssignmentFact) => scope(f) && f.effective.end == Some(day) && f.recorded.Contains(knownAt)
  }

  predicate NothingStarts(facts: seq<AssignmentFact>, day: int) {
    forall f :: f in facts ==> f.effective.start != day
  }

  /** Where allocations end and nothing starts, what ends does not total below zero. */
  predicate EndingBalanced(facts: seq<AssignmentFact>, scope: Scope, day: int, knownAt: int) {
    NothingStarts(facts, day) ==> Total(Filter(facts, EndingOn(scope, day, knownAt))) >= 0.0
  }

  function NotAtDay(scope: Scope, day: int, knownAt: int): Scope {
    (f: AssignmentFact) => !AtDay(scope, day, knownAt)(f)
  }

  /** From one day to the next, with nothing starting, a load changes by what ends. */
  lemma LoadAcross(facts: seq<AssignmentFact>, scope: Scope, day: int, knownAt: int)
    requires NothingStarts(facts, day)
    ensures (Load(facts, scope, day - 1, knownAt) ==
             Load(facts, scope, day, knownAt) + Total(Filter(facts, EndingOn(scope, day, knownAt))))
  {
    var before := AtDay(scope, day - 1, knownAt);
    TotalSplit(Filter(facts, before), AtDay(scope, day, knownAt), NotAtDay(scope, day, knownAt));
    forall f | f in facts ensures VisibleAcross(f, scope, day, knownAt) {
      StaysOrEnds(f, scope, day, knownAt);
    }
    FilterTwice(facts, before, AtDay(scope, day, knownAt), AtDay(scope, day, knownAt));
    FilterTwice(facts, before, NotAtDay(scope, day, knownAt), EndingOn(scope, day, knownAt));
  }

  /** What was visible the day before is visible still, or ended on the day. */
  predicate VisibleAcross(f: AssignmentFact, scope: Scope, day: int, knownAt: int) {
    var before, now := AtDay(scope, day - 1, knownAt), AtDay(scope, day, knownAt);
    (now(f) ==> before(f)) && (EndingOn(scope, day, knownAt)(f) == (before(f) && !now(f)))
  }

  lemma StaysOrEnds(f: AssignmentFact, scope: Scope, day: int, knownAt: int)
    requires f.effective.start != day
    ensures VisibleAcross(f, scope, day, knownAt)
  {
  }

  /** When every ending inside the target is balanced, a cap on the probe days holds on each day in turn. */
  lemma {:induction false} CapCarries(
    facts: seq<AssignmentFact>, scope: Scope, target: Interval, knownAt: int, cap: real, day: int)
    requires forall d :: target.start < d && target.Contains(d) ==> EndingBalanced(facts, scope, d, knownAt)
    requires forall d :: d in ProbeDays(facts, target) ==> Load(facts, scope, d, knownAt) <= cap
    requires target.Contains(day)
    ensures Load(facts, scope, day, knownAt) <= cap
    decreases day - target.start
  {
    if day == target.start {
      assert day in ProbeDays(facts, target);
    } else if NothingStarts(facts, day) {
      CapCarries(facts, scope, target, knownAt, cap, day - 1);
      LoadAcross(facts, scope, day, knownAt);
      assert EndingBalanced(facts, scope, day, knownAt);
    } else {
      var f :| f in facts && f.effective.start == day;
      assert StartsInside(f, target);
      assert day in ProbeDays(facts, target);
    }
  }

  /** Balanced endings inside the target are enough for its probe days to decide. */
  lemma BalancedEndingsDecide(facts: seq<AssignmentFact>, scope: Scope, target: Interval, knownAt: int, cap: real)
    requires forall d :: target.start < d && target.Contains(d) ==> EndingBalanced(facts, scope, d, knownAt)
    ensures ProbesDecide(facts, scope, target, knownAt, cap)
  {
    if forall d :: d in ProbeDays(facts, target) ==> Load(facts, scope, d, knownAt) <= cap {
      forall day | target.Contains(day) ensures Load(facts, scope, day, knownAt) <= cap {
        CapCarries(facts, scope, target, knownAt, cap, day);
      }
    } else {
      var d :| d in ProbeDays(facts, target) && !(Load(facts, scope, d, knownAt) <= cap);
      assert target.Contains(d);
    }
  }

  /** An unbalanced ending misleads the probe days of the two-day target around it. */
  lemma UnbalancedEndingMisleads(facts: seq<AssignmentFact>, scope: Scope, day: int, knownAt: int)
    requires !EndingBalanced(facts, scope, day, knownAt)
    ensures !ProbesDecide(facts, scope, Bounds(day - 1, Some(day + 1)), knownAt, Load(facts, scope, day - 1, knownAt))
  {
    var target: Interval := Bounds(day - 1, Some(day + 1));
    LoadAcross(facts, scope, day, knownAt);
    assert target.Contains(day);
    assert ProbeDays(facts, target) == {day - 1};
  }

  /** Exactly when the sweep is right: a total within a cap on the probe days is within it on every day of the
      target, for every target and every cap, if and only if no day without a start has endings totalling below zero. */
  lemma ProbeDaysDecideEveryDay(facts: seq<AssignmentFact>, scope: Scope, knownAt: int)
    ensures (forall target: Interval, cap: real :: ProbesDecide(facts, scope, target, knownAt, cap))
       <==> (forall day :: EndingBalanced(facts, scope, day, knownAt))
  {
    if forall day :: EndingBalanced(facts, scope, day, knownAt) {
      forall target: Interval, cap: real ensures ProbesDecide(facts, scope, target, knownAt, cap) {
        BalancedEndingsDecide(facts, scope, target, knownAt, cap);
      }
    } else {
      var day :| !EndingBalanced(facts, scope, day, knownAt);
      UnbalancedEndingMisleads(facts, scope, day, knownAt);
    }
  }

  function Nothing(): Scope {
    (f: AssignmentFact) => false
  }

  /** Without negative ratios every ending is balanced. */
  lemma NonNegativeIsBalanced(facts: seq<AssignmentFact>, scope: Scope, day: int, knownAt: int)
    requires NonNegative(facts, scope)
    ensures EndingBalanced(facts, scope, day, knownAt)
  {
    TotalOfSubset(facts, Nothing(), EndingOn(scope, day, knownAt));
    FilterNone(facts, Nothing());
  }

  /** So for non-negative ratios the probe days decide every target and every cap. */
  lemma NonNegativeIsDecided(facts: seq<AssignmentFact>, scope: Scope, target: Interval, knownAt: int, cap: real)
    requires NonNegative(facts, scope)
    ensures ProbesDecide(facts, scope, target, knownAt, cap)
  {
    forall day ensures EndingBalanced(facts, scope, day, knownAt) {
      NonNegativeIsBalanced(facts, scope, day, knownAt);
    }
    ProbeDaysDecideEveryDay(facts, scope, knownAt);
  }

  // ---------------------------------------------------------------- totals by group

  function KeyIs<K(==, !new)>(key: AssignmentFact -> K, k: K): Scope {
    (f: AssignmentFact) => key(f) == k
  }

  function KeyIsNot<K(==, !new)>(key: AssignmentFact -> K, k: K): Scope {
    (f: AssignmentFact) => key(f) != k
  }

  lemma {:induction false} TotalSplit(facts: seq<AssignmentFact>, p: Scope, q: Scope)
    requires forall f :: f in facts ==> p(f) == !q(f)
    ensures Total(facts) == Total(Filter(facts, p)) + Total(Filter(facts, q))
  {
    if facts != [] {
      TotalSplit(facts[1..], p, q);
      TotalAppend([facts[0]], Filter(facts[1..], p));
      TotalAppend([facts[0]], Filter(facts[1..], q));
    }
  }

  /** If each group totals at most one, the whole totals at most the number of groups. */
  lemma {:induction false} TotalAtMostGroups<K(!new)>(
    facts: seq<AssignmentFact>, key: AssignmentFact -> K, keys: set<K>)
    requires forall f :: f in facts ==> key(f) in keys
    requires forall k :: k in keys ==> Total(Filter(facts, KeyIs(key, k))) <= 1.0
    ensures Total(facts) <= |keys| as real
    decreases keys
  {
    if facts != [] {
      assert facts[0] in facts;
      var k := key(facts[0]);
      var rest := Filter(facts, KeyIsNot(key, k));
      TotalSplit(facts, KeyIs(key, k), KeyIsNot(key, k));
      forall other | other in keys - {k} ensures Total(Filter(rest, KeyIs(key, other))) <= 1.0 {
        FilterTwice(facts, KeyIsNot(key, k), KeyIs(key, other), KeyIs(key, other));
      }
      TotalAtMostGroups(rest, key, keys - {k});
    }
  }
}
