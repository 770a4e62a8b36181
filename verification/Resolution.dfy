/** Reconstruction of one identity at one effective day and knowledge cutoff. */
module Resolution {
  import opened Prelude
  import opened Errors
  import opened Intervals
  import opened Facts

  /** One identity of one tenant. */
  predicate Names(view: FactView, tenant: Uuid, identity: Uuid) {
    view.tenant == tenant && view.identity == Some(identity)
  }

  predicate VisibleAt(view: FactView, day: int, knownAt: int) {
    view.effective.Contains(day) && view.recorded.Contains(knownAt)
  }

  function Matching<F>(view: F -> FactView, tenant: Uuid, identity: Uuid, day: int, knownAt: int): F -> bool {
    f => Names(view(f), tenant, identity) && VisibleAt(view(f), day, knownAt)
  }

  /** The facts reconstruction returns, in the order of the input list. */
  function Reconstruct<F(!new)>(
    facts: seq<F>, view: F -> FactView, tenant: Uuid, identity: Uuid, day: int, knownAt: int): seq<F>
  {
    Filter(facts, Matching(view, tenant, identity, day, knownAt))
  }

  method ResolveBitemporalFacts<F(!new)>(
    facts: seq<F>, view: F -> FactView, tenant: Uuid, identity: Uuid, effectiveOn: int, knownAt: int)
    returns (visible: seq<F>)
    ensures visible == Reconstruct(facts, view, tenant, identity, effectiveOn, knownAt)
  {
    visible := [];
    for i := 0 to |facts|
      invariant visible == Reconstruct(facts[..i], view, tenant, identity, effectiveOn, knownAt)
    {
      var fact := facts[i];
      FilterAppend(facts[..i], [fact], Matching(view, tenant, identity, effectiveOn, knownAt));
      assert facts[..i + 1] == facts[..i] + [fact];
      if view(fact).tenant != tenant {
        continue;
      }
      if view(fact).identity != Some(identity) {
        continue;
      }
      if !view(fact).effective.Contains(effectiveOn) {
        continue;
      }
      if !view(fact).recorded.Contains(knownAt) {
        continue;
      }
      visible := visible + [fact];
    }
    assert facts[..|facts|] == facts;
  }

  method ResolveSingleValuedFact<F(!new)>(
    facts: seq<F>, view: F -> FactView, tenant: Uuid, identity: Uuid, effectiveOn: int, knownAt: int)
    returns (r: Result<Option<F>, KernelError>)
    ensures var visible := Reconstruct(facts, view, tenant, identity, effectiveOn, knownAt);
            match r
            case Err(e) => e == SingleValuedFactError && |visible| > 1
            case Ok(None) => visible == []
            case Ok(Some(f)) => visible == [f]
  {
    var visible := ResolveBitemporalFacts(facts, view, tenant, identity, effectiveOn, knownAt);
    if |visible| > 1 {
      return Err(SingleValuedFactError);
    }
    if visible == [] {
      return Ok(None);
    }
    return Ok(Some(visible[0]));
  }

  /** No coordinate shows two versions of the identity. */
  ghost predicate SingleValuedEverywhere<F(!new)>(facts: seq<F>, view: F -> FactView, tenant: Uuid, identity: Uuid) {
    forall day, knownAt :: |Reconstruct(facts, view, tenant, identity, day, knownAt)| <= 1
  }

  ghost predicate Conflict(a: FactView, b: FactView) {
    a.effective.Overlaps(b.effective) && a.recorded.Overlaps(b.recorded)
  }

  /** No two versions of the identity overlap in effective and in recorded time. */
  ghost predicate ConflictFree<F(!new)>(facts: seq<F>, view: F -> FactView, tenant: Uuid, identity: Uuid) {
    forall i, j :: 0 <= i < j < |facts|
      && Names(view(facts[i]), tenant, identity) && Names(view(facts[j]), tenant, identity)
      ==> !Conflict(view(facts[i]), view(facts[j]))
  }

  /** Single-valued resolution fails at no coordinate if and only if the stored versions never
      overlap in both times: a check over infinitely many coordinates is a check of pairs. */
  lemma SingleValuedIffConflictFree<F(!new)>(facts: seq<F>, view: F -> FactView, tenant: Uuid, identity: Uuid)
    ensures SingleValuedEverywhere(facts, view, tenant, identity) <==> ConflictFree(facts, view, tenant, identity)
  {
    if !ConflictFree(facts, view, tenant, identity) {
      var i, j :| 0 <= i < j < |facts|
        && Names(view(facts[i]), tenant, identity) && Names(view(facts[j]), tenant, identity)
        && Conflict(view(facts[i]), view(facts[j]));
      OverlapIsCommonPoint(view(facts[i]).effective, view(facts[j]).effective);
      OverlapIsCommonPoint(view(facts[i]).recorded, view(facts[j]).recorded);
      var day :| view(facts[i]).effective.Contains(day) && view(facts[j]).effective.Contains(day);
      var at :| view(facts[i]).recorded.Contains(at) && view(facts[j]).recorded.Contains(at);
      var p := Matching(view, tenant, identity, day, at);
      assert p(facts[i]) && p(facts[j]);
      assert HasPair(facts, p);
      FilterPair(facts, p);
      assert |Reconstruct(facts, view, tenant, identity, day, at)| > 1;
    }
    if !SingleValuedEverywhere(facts, view, tenant, identity) {
      var day, at :| |Reconstruct(facts, view, tenant, identity, day, at)| > 1;
      var p := Matching(view, tenant, identity, day, at);
      FilterPair(facts, p);
      var i, j :| 0 <= i < j < |facts| && p(facts[i]) && p(facts[j]);
      OverlapIsCommonPoint(view(facts[i]).effective, view(facts[j]).effective);
      OverlapIsCommonPoint(view(facts[i]).recorded, view(facts[j]).recorded);
      assert Conflict(view(facts[i]), view(facts[j]));
    }
  }
}
