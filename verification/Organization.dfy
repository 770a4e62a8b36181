/** The organization chart at one coordinate has no cycle of visible parent links. */
module Organization {
  import opened Prelude
  import opened Errors
  import opened Facts
  import opened Resolution

  type Parents = map<Uuid, Option<Uuid>>

  /** `parents.get(unit)`: a unit without a visible version ends the known chain. */
  function ParentOf(parents: Parents, unit: Uuid): Option<Uuid> {
    if unit in parents then parents[unit] else None
  }

  /** A rank that falls along every visible parent link. */
  ghost predicate Ranks(parents: Parents, rank: map<Uuid, nat>) {
    && rank.Keys == parents.Keys
    && forall u :: u in parents && parents[u].Some? && parents[u].value in parents
         ==> rank[parents[u].value] < rank[u]
  }

  ghost predicate Acyclic(parents: Parents) {
    exists rank :: Ranks(parents, rank)
  }

  /** Following parent links from `current` ends after exactly `steps` units. */
  ghost predicate EndsAfter(parents: Parents, current: Option<Uuid>, steps: nat)
    decreases steps
  {
    if steps == 0 then current.None?
    else current.Some? && EndsAfter(parents, ParentOf(parents, current.value), steps - 1)
  }

  /** The chain of a unit ends within the number of visible units plus one further parent. */
  ghost predicate ChainEnds(parents: Parents, unit: Uuid) {
    exists n: nat :: n <= |parents| + 1 && EndsAfter(parents, Some(unit), n)
  }

  lemma {:induction false} EndsOnce(parents: Parents, current: Option<Uuid>, m: nat, n: nat)
    requires EndsAfter(parents, current, m) && EndsAfter(parents, current, n)
    ensures m == n
    decreases m
  {
    if m > 0 && n > 0 {
      EndsOnce(parents, ParentOf(parents, current.value), m - 1, n - 1);
    }
  }

  /** If the walk from every unit ends, the length of the walk is a falling rank. */
  lemma EndingWalksRank(parents: Parents)
    requires forall u :: u in parents ==> ChainEnds(parents, u)
    ensures Acyclic(parents)
  {
    var rank: map<Uuid, nat> := map u | u in parents :: (var n: nat :| EndsAfter(parents, Some(u), n); n);
    forall u | u in parents && parents[u].Some? && parents[u].value in parents
      ensures rank[parents[u].value] < rank[u]
    {
      assert EndsAfter(parents, Some(u), rank[u]);
      EndsOnce(parents, parents[u], rank[u] - 1, rank[parents[u].value]);
    }
    assert Ranks(parents, rank);
  }

  /** Going up from `start` through the units of `path`, each the parent of the one before, the next is `current`. */
  ghost predicate Climbs(parents: Parents, start: Uuid, path: seq<Uuid>, current: Option<Uuid>)
    decreases |path|
  {
    if path == [] then current == Some(start)
    else
      var last := path[|path| - 1];
      Climbs(parents, start, path[..|path| - 1], Some(last)) && current == ParentOf(parents, last)
  }

  lemma ClimbOn(parents: Parents, start: Uuid, path: seq<Uuid>, unit: Uuid)
    requires Climbs(parents, start, path, Some(unit))
    ensures Climbs(parents, start, path + [unit], ParentOf(parents, unit))
  {
    assert (path + [unit])[..|path|] == path;
  }

  /** If the chain ends, it ends that much after each unit of the path. */
  lemma {:induction false} ClimbEnds(
    parents: Parents, start: Uuid, path: seq<Uuid>, current: Option<Uuid>, n: nat)
    requires Climbs(parents, start, path, current) && EndsAfter(parents, Some(start), n)
    ensures |path| <= n && EndsAfter(parents, current, n - |path|)
    decreases |path|
  {
    if path != [] {
      ClimbEnds(parents, start, path[..|path| - 1], Some(path[|path| - 1]), n);
    }
  }

  lemma {:induction false} ClimbPrefix(parents: Parents, start: Uuid, path: seq<Uuid>, current: Option<Uuid>, i: nat)
    requires Climbs(parents, start, path, current) && i < |path|
    ensures Climbs(parents, start, path[..i], Some(path[i]))
    decreases |path|
  {
    var front := path[..|path| - 1];
    if i < |front| {
      ClimbPrefix(parents, start, front, Some(path[|path| - 1]), i);
      assert front[..i] == path[..i];
    }
  }

  /** A path of parents that leads back to one of its own units belongs to a chain without end. */
  lemma ComingBackNeverEnds(parents: Parents, start: Uuid, path: seq<Uuid>, unit: Uuid)
    requires Climbs(parents, start, path, Some(unit)) && unit in path
    ensures !ChainEnds(parents, start)
  {
    var i :| 0 <= i < |path| && path[i] == unit;
    ClimbPrefix(parents, start, path, Some(unit), i);
    forall n: nat ensures !EndsAfter(parents, Some(start), n) {
      if EndsAfter(parents, Some(start), n) {
        ClimbEnds(parents, start, path, Some(unit), n);
        ClimbEnds(parents, start, path[..i], Some(unit), n);
        EndsOnce(parents, Some(unit), n - |path|, n - i);
        assert false;
      }
    }
  }

  /** Walking up from one unit: stops at the end of the chain, or at a unit met before. The walk visits
      every visible unit at most once and at most one further parent, and it meets a unit again only
      when no rank falls along the links. */
  method WalkUp(parents: Parents, start: Uuid) returns (cycle: bool, ghost path: seq<Uuid>)
    requires start in parents
    ensures cycle <==> !ChainEnds(parents, start)
    ensures |path| <= |parents| + 1
    ensures !cycle ==> Climbs(parents, start, path, None) && EndsAfter(parents, Some(start), |path|)
    ensures cycle ==> (exists u :: u in path && Climbs(parents, start, path, Some(u))) && !Acyclic(parents)
  {
    ghost var rank: map<Uuid, nat> := map[];
    if Acyclic(parents) {
      rank :| Ranks(parents, rank);
    }
    path := [];
    var seen: set<Uuid> := {};
    var current := Some(start);
    while current.Some?
      invariant Climbs(parents, start, path, current)
      invariant |path| == |seen| && forall u :: u in seen ==> u in path
      invariant current.Some? ==> seen <= parents.Keys
      invariant |seen| <= |parents| + 1
      invariant current.Some? && current.value !in seen ==> |seen| <= |parents.Keys|
      invariant forall n: nat :: EndsAfter(parents, current, n) ==> EndsAfter(parents, Some(start), |seen| + n)
      invariant Acyclic(parents) && current.Some? ==>
                  forall u :: u in seen ==> current.value in parents ==> rank[current.value] < rank[u]
      decreases |parents.Keys - seen|, if current.Some? then 1 else 0
    {
      var unit := current.value;
      if unit in seen {
        ComingBackNeverEnds(parents, start, path, unit);
        return true, path;
      }
      SubsetSize(seen, parents.Keys);
      var wasSeen := seen;
      ClimbOn(parents, start, path, unit);
      seen := seen + {unit};
      path := path + [unit];
      current := ParentOf(parents, unit);
      forall n: nat | EndsAfter(parents, current, n) ensures EndsAfter(parents, Some(start), |seen| + n) {
        assert EndsAfter(parents, Some(unit), n + 1);
      }
      if unit in parents {
        SubsetSize(seen, parents.Keys);
        assert parents.Keys - seen < parents.Keys - wasSeen;
        SubsetSize(parents.Keys - seen, parents.Keys - wasSeen - {unit});
      } else {
        assert parents.Keys - seen == parents.Keys - wasSeen;
      }
    }
    assert EndsAfter(parents, current, 0);
    return false, path;
  }

  method HasCycle(parents: Parents) returns (cycle: bool)
    ensures cycle <==> !Acyclic(parents)
    ensures !cycle ==> forall u :: u in parents ==> ChainEnds(parents, u)
  {
    var starts := parents.Keys;
    while starts != {}
      invariant starts <= parents.Keys
      invariant forall u :: u in parents ==> u in starts || ChainEnds(parents, u)
      decreases starts
    {
      var start := Pick(starts);
      var found, _ := WalkUp(parents, start);
      if found {
        return true;
      }
      starts := starts - {start};
    }
    EndingWalksRank(parents);
    return false;
  }

  function OfTenant(tenant: Uuid): OrganizationUnitVersion -> bool {
    (v: OrganizationUnitVersion) => v.tenant == tenant
  }

  /** The versions of one unit visible at the coordinate. */
  ghost function UnitOn(
    versions: seq<OrganizationUnitVersion>, tenant: Uuid, unit: Uuid, day: int, knownAt: int)
    : seq<OrganizationUnitVersion>
  {
    Reconstruct(versions, UnitById(), tenant, unit, day, knownAt)
  }

  ghost predicate SingleValuedAt(versions: seq<OrganizationUnitVersion>, tenant: Uuid, day: int, knownAt: int) {
    forall unit :: |UnitOn(versions, tenant, unit, day, knownAt)| <= 1
  }

  /** The parent links visible at the coordinate: one entry for each unit with a visible version. */
  ghost function LinksAt(versions: seq<OrganizationUnitVersion>, tenant: Uuid, day: int, knownAt: int): Parents {
    map unit | unit in (set v | v in versions :: v.unit) && UnitOn(versions, tenant, unit, day, knownAt) != []
      :: UnitOn(versions, tenant, unit, day, knownAt)[0].parent
  }

  lemma LinksAtMembers(versions: seq<OrganizationUnitVersion>, tenant: Uuid, unit: Uuid, day: int, knownAt: int)
    ensures unit in LinksAt(versions, tenant, day, knownAt) <==> UnitOn(versions, tenant, unit, day, knownAt) != []
  {
    if UnitOn(versions, tenant, unit, day, knownAt) != [] {
      var v := UnitOn(versions, tenant, unit, day, knownAt)[0];
      assert v in UnitOn(versions, tenant, unit, day, knownAt);
      assert v in versions && v.unit == unit;
    }
  }

  lemma TenantScopeIsEnough(versions: seq<OrganizationUnitVersion>, tenant: Uuid, unit: Uuid, day: int, knownAt: int)
    ensures Reconstruct(Filter(versions, OfTenant(tenant)), UnitById(), tenant, unit, day, knownAt)
         == UnitOn(versions, tenant, unit, day, knownAt)
  {
    var p := Matching(UnitById(), tenant, unit, day, knownAt);
    FilterTwice(versions, OfTenant(tenant), p, p);
  }

  lemma UnknownUnitInvisible(versions: seq<OrganizationUnitVersion>, tenant: Uuid, unit: Uuid, day: int, knownAt: int)
    requires forall v :: v in versions && v.tenant == tenant ==> v.unit != unit
    ensures UnitOn(versions, tenant, unit, day, knownAt) == []
  {
    FilterNone(versions, Matching(UnitById(), tenant, unit, day, knownAt));
  }

  lemma UnlistedUnitInvisible(versions: seq<OrganizationUnitVersion>, tenant: Uuid, unit: Uuid, day: int, knownAt: int)
    requires unit !in set v | v in Filter(versions, OfTenant(tenant)) :: v.unit
    ensures UnitOn(versions, tenant, unit, day, knownAt) == []
  {
    forall v | v in versions && v.tenant == tenant ensures v.unit != unit {
      assert v in Filter(versions, OfTenant(tenant));
    }
    UnknownUnitInvisible(versions, tenant, unit, day, knownAt);
  }

  /** A map that is right for every unit of the tenant is the map of visible links. */
  lemma LinksComplete(versions: seq<OrganizationUnitVersion>, tenant: Uuid, day: int, knownAt: int, links: Parents)
    requires links.Keys <= set v | v in Filter(versions, OfTenant(tenant)) :: v.unit
    requires forall unit :: unit in (set v | v in Filter(versions, OfTenant(tenant)) :: v.unit) ==>
               var on := UnitOn(versions, tenant, unit, day, knownAt);
               && |on| <= 1
               && (unit in links <==> on != [])
               && (unit in links ==> links[unit] == on[0].parent)
    ensures SingleValuedAt(versions, tenant, day, knownAt)
    ensures links == LinksAt(versions, tenant, day, knownAt)
  {
    var unitIds := set v | v in Filter(versions, OfTenant(tenant)) :: v.unit;
    forall unit | unit !in unitIds ensures UnitOn(versions, tenant, unit, day, knownAt) == [] {
      UnlistedUnitInvisible(versions, tenant, unit, day, knownAt);
    }
    forall unit
      ensures |UnitOn(versions, tenant, unit, day, knownAt)| <= 1
      ensures unit in links <==> unit in LinksAt(versions, tenant, day, knownAt)
    {
      LinksAtMembers(versions, tenant, unit, day, knownAt);
      assert unit in unitIds || unit !in unitIds;
    }
    assert links.Keys == LinksAt(versions, tenant, day, knownAt).Keys;
  }

  /** Fill the parent map unit by unit; stop at a unit with two visible versions. */
  method ResolveLinks(versions: seq<OrganizationUnitVersion>, tenant: Uuid, effectiveOn: int, knownAt: int)
    returns (r: Result<Parents, KernelError>)
    ensures r.Ok? <==> SingleValuedAt(versions, tenant, effectiveOn, knownAt)
    ensures r.Ok? ==> r.value == LinksAt(versions, tenant, effectiveOn, knownAt)
    ensures r.Err? ==> r.error == SingleValuedFactError
  {
    var scoped := Filter(versions, OfTenant(tenant));
    var unitIds := set v | v in scoped :: v.unit;
    var links: Parents := map[];
    var rest := unitIds;
    while rest != {}
      invariant rest <= unitIds
      invariant links.Keys <= unitIds - rest
      invariant forall unit :: unit in unitIds - rest ==>
                  var on := UnitOn(versions, tenant, unit, effectiveOn, knownAt);
                  && |on| <= 1
                  && (unit in links <==> on != [])
                  && (unit in links ==> links[unit] == on[0].parent)
      decreases rest
    {
      var unit := Pick(rest);
      TenantScopeIsEnough(versions, tenant, unit, effectiveOn, knownAt);
      var visible := ResolveSingleValuedFact(scoped, UnitById(), tenant, unit, effectiveOn, knownAt);
      if visible.Err? {
        return Err(SingleValuedFactError);
      }
      if visible.value.Some? {
        links := links[unit := visible.value.value.parent];
      }
      rest := rest - {unit};
    }
    LinksComplete(versions, tenant, effectiveOn, knownAt, links);
    return Ok(links);
  }

  ghost predicate HierarchyOutcomeIs(
    outcome: Outcome, versions: seq<OrganizationUnitVersion>, tenant: Uuid, day: int, knownAt: int)
  {
    outcome ==
    if !SingleValuedAt(versions, tenant, day, knownAt) then Fail(SingleValuedFactError)
    else if Acyclic(LinksAt(versions, tenant, day, knownAt)) then Pass
    else Fail(OrganizationCycle)
  }

  /** Validation returns normally exactly when every unit has at most one visible version and some rank
      falls along every visible parent link; a link to a unit that is not visible ends its chain. */
  method ValidateOrganizationHierarchy(
    versions: seq<OrganizationUnitVersion>, tenant: Uuid, effectiveOn: int, knownAt: int)
    returns (outcome: Outcome)
    ensures HierarchyOutcomeIs(outcome, versions, tenant, effectiveOn, knownAt)
    ensures outcome.Pass? ==>
              var parents := LinksAt(versions, tenant, effectiveOn, knownAt);
              forall u :: u in parents ==> ChainEnds(parents, u)
  {
    var links := ResolveLinks(versions, tenant, effectiveOn, knownAt);
    if links.Err? {
      return Fail(SingleValuedFactError);
    }
    var cycle := HasCycle(links.value);
    if cycle {
      return Fail(OrganizationCycle);
    }
    return Pass;
  }
}
