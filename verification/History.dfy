/** Correction by closing recorded time, and what it leaves unchanged for every earlier cutoff. */
module History {
  import opened Prelude
  import opened Errors
  import opened Intervals
  import opened Facts
  import opened Resolution

  /** Any kernel fact. */
  datatype Fact =
    | OfEmployment(employment: EmploymentVersion)
    | OfUnit(unit: OrganizationUnitVersion)
    | OfPosition(position: PositionVersion)
    | OfAssignment(assignment: AssignmentFact)
  {
    function Recorded(): Interval {
      match this
      case OfEmployment(v) => v.recorded
      case OfUnit(v) => v.recorded
      case OfPosition(v) => v.recorded
      case OfAssignment(a) => a.recorded
    }

    function Effective(): Interval {
      match this
      case OfEmployment(v) => v.effective
      case OfUnit(v) => v.effective
      case OfPosition(v) => v.effective
      case OfAssignment(a) => a.effective
    }

    function Tenant(): Uuid {
      match this
      case OfEmployment(v) => v.tenant
      case OfUnit(v) => v.tenant
      case OfPosition(v) => v.tenant
      case OfAssignment(a) => a.tenant
    }

    /** `replace(fact, recorded=...)`: every other column is copied. */
    function WithRecorded(recorded: Interval): Fact {
      match this
      case OfEmployment(v) => OfEmployment(v.(recorded := recorded))
      case OfUnit(v) => OfUnit(v.(recorded := recorded))
      case OfPosition(v) => OfPosition(v.(recorded := recorded))
      case OfAssignment(a) => OfAssignment(a.(recorded := recorded))
    }

    /** The identity field named by the caller, when this kind of fact has it. */
    function Identity(field: IdentityField): Option<Uuid> {
      match this
      case OfEmployment(v) =>
        (match field
         case ByTenant => Some(v.tenant)
         case ByEmployment => Some(v.employment)
         case ByPerson => Some(v.person)
         case ByVersion => Some(v.version)
         case _ => None)
      case OfUnit(v) =>
        (match field
         case ByTenant => Some(v.tenant)
         case ByUnit => Some(v.unit)
         case ByVersion => Some(v.version)
         case _ => None)
      case OfPosition(v) =>
        (match field
         case ByTenant => Some(v.tenant)
         case ByPosition => Some(v.position)
         case ByVersion => Some(v.version)
         case _ => None)
      case OfAssignment(a) =>
        (match field
         case ByTenant => Some(a.tenant)
         case ByEmployment => Some(a.employment)
         case ByPerson => Some(a.person)
         case ByPosition => Some(a.position)
         case ByAssignment => Some(a.assignment)
         case _ => None)
    }
  }

  datatype IdentityField = ByTenant | ByEmployment | ByPerson | ByUnit | ByPosition | ByAssignment | ByVersion

  function View(field: IdentityField): Fact -> FactView {
    (f: Fact) => FactView(f.Tenant(), f.Identity(field), f.Effective(), f.Recorded())
  }

  function CloseRecordedInterval(fact: Fact, recordedTo: int): (r: Result<Fact, KernelError>)
    ensures r.Ok? <==> fact.Recorded().end.None? && fact.Recorded().start < recordedTo
    ensures r == Err(AlreadyClosed) <==> fact.Recorded().end.Some?
    ensures r.Ok? ==> forall at :: r.value.Recorded().Contains(at) <==> fact.Recorded().Contains(at) && at < recordedTo
    ensures r.Ok? ==> r.value.WithRecorded(fact.Recorded()) == fact
  {
    var recorded := fact.Recorded();
    if recorded.end.Some? then Err(AlreadyClosed)
    else if recordedTo <= recorded.start then Err(CloseNotAfterStart)
    else Ok(fact.WithRecorded(Bounds(recorded.start, Some(recordedTo))))
  }

  // ---------------------------------------------------------------- what a correction keeps

  /** One step of a fact table: insert a version recorded from `now`, or close one at `now`. */
  datatype Change = Insert(fact: Fact) | Close(index: nat)

  ghost predicate Legal(facts: seq<Fact>, change: Change, now: int) {
    match change
    case Insert(f) => f.Recorded() == From(now)
    case Close(i) => i < |facts| && CloseRecordedInterval(facts[i], now).Ok?
  }

  ghost function Apply(facts: seq<Fact>, change: Change, now: int): seq<Fact>
    requires Legal(facts, change, now)
  {
    match change
    case Insert(f) => facts + [f]
    case Close(i) => facts[i := CloseRecordedInterval(facts[i], now).value]
  }

  /** A run of changes, each at its own instant, under a clock that never goes back. */
  datatype Entry = Entry(change: Change, now: int)

  ghost predicate LegalRun(facts: seq<Fact>, run: seq<Entry>, clock: int)
    decreases |run|
  {
    run != [] ==>
    && clock <= run[0].now
    && Legal(facts, run[0].change, run[0].now)
    && LegalRun(Apply(facts, run[0].change, run[0].now), run[1..], run[0].now)
  }

  ghost function Replay(facts: seq<Fact>, run: seq<Entry>, clock: int): seq<Fact>
    requires LegalRun(facts, run, clock)
    decreases |run|
  {
    if run == [] then facts
    else Replay(Apply(facts, run[0].change, run[0].now), run[1..], run[0].now)
  }

  /** The same fact up to the end of its recorded interval. */
  ghost predicate SameBusinessFact(a: Fact, b: Fact) {
    a.Recorded().start == b.Recorded().start && a == b.WithRecorded(a.Recorded())
  }

  ghost predicate SameBusinessFacts(a: seq<Fact>, b: seq<Fact>) {
    |a| == |b| && forall i :: 0 <= i < |a| ==> SameBusinessFact(a[i], b[i])
  }

  ghost function Seen(
    facts: seq<Fact>, field: IdentityField, tenant: Uuid, identity: Uuid, day: int, knownAt: int): seq<Fact>
  {
    Reconstruct(facts, View(field), tenant, identity, day, knownAt)
  }

  lemma SameAround(before: seq<Fact>, a: seq<Fact>, b: seq<Fact>, after: seq<Fact>)
    requires SameBusinessFacts(a, b)
    ensures SameBusinessFacts(before + a + after, before + b + after)
  {
    forall f: Fact ensures SameBusinessFact(f, f) {}
  }

  lemma CloseHidesOnlyTheFuture(
    fact: Fact, now: int, field: IdentityField, tenant: Uuid, identity: Uuid, day: int, knownAt: int)
    requires CloseRecordedInterval(fact, now).Ok? && knownAt < now
    ensures var closed := CloseRecordedInterval(fact, now).value;
            var p := Matching(View(field), tenant, identity, day, knownAt);
            p(closed) == p(fact) && SameBusinessFact(closed, fact)
  {
    var closed := CloseRecordedInterval(fact, now).value;
    assert closed.Tenant() == fact.Tenant() && closed.Effective() == fact.Effective();
    assert closed.Identity(field) == fact.Identity(field) by {
      match fact
      case OfEmployment(v) =>
      case OfUnit(v) =>
      case OfPosition(v) =>
      case OfAssignment(a) =>
    }
    assert closed.Recorded() == Bounds(fact.Recorded().start, Some(now));
    assert closed.Recorded().Contains(knownAt) <==> fact.Recorded().Contains(knownAt);
    assert (View(field)(closed) ==
            FactView(closed.Tenant(), closed.Identity(field), closed.Effective(), closed.Recorded()));
    assert View(field)(fact) == FactView(fact.Tenant(), fact.Identity(field), fact.Effective(), fact.Recorded());
  }

  /** Closing one place of the table keeps what an earlier cutoff sees, place by place. */
  lemma CloseKeepsThePast(
    facts: seq<Fact>, i: nat, now: int, field: IdentityField, tenant: Uuid, identity: Uuid, day: int, knownAt: int)
    requires Legal(facts, Close(i), now) && knownAt < now
    ensures SameBusinessFacts(
              Seen(Apply(facts, Close(i), now), field, tenant, identity, day, knownAt),
              Seen(facts, field, tenant, identity, day, knownAt))
  {
    var p := Matching(View(field), tenant, identity, day, knownAt);
    var closed := CloseRecordedInterval(facts[i], now).value;
    CloseHidesOnlyTheFuture(facts[i], now, field, tenant, identity, day, knownAt);
    FilterUpdate(facts, i, facts[i], p);
    FilterUpdate(facts, i, closed, p);
    assert facts[i := facts[i]] == facts;
    SameAround(Filter(facts[..i], p), if p(closed) then [closed] else [], if p(facts[i]) then [facts[i]] else [],
               Filter(facts[i + 1..], p));
  }

  lemma ChangeKeepsThePast(
    facts: seq<Fact>, change: Change, now: int,
    field: IdentityField, tenant: Uuid, identity: Uuid, day: int, knownAt: int)
    requires Legal(facts, change, now) && knownAt < now
    ensures SameBusinessFacts(
              Seen(Apply(facts, change, now), field, tenant, identity, day, knownAt),
              Seen(facts, field, tenant, identity, day, knownAt))
  {
    match change
    case Insert(f) => FilterAppendMiss(facts, [f], Matching(View(field), tenant, identity, day, knownAt));
    case Close(i) => CloseKeepsThePast(facts, i, now, field, tenant, identity, day, knownAt);
  }

  /** Reconstruction at a cutoff earlier than the clock is settled: after any later run of inserts and
      closes it returns the same facts in the same order, up to the end of the recorded interval. */
  lemma {:induction false} ThePastIsSettled(
    facts: seq<Fact>, run: seq<Entry>, clock: int,
    field: IdentityField, tenant: Uuid, identity: Uuid, day: int, knownAt: int)
    requires LegalRun(facts, run, clock) && knownAt < clock
    ensures SameBusinessFacts(
              Seen(Replay(facts, run, clock), field, tenant, identity, day, knownAt),
              Seen(facts, field, tenant, identity, day, knownAt))
    decreases |run|
  {
    if run != [] {
      var next := Apply(facts, run[0].change, run[0].now);
      ThePastIsSettled(next, run[1..], run[0].now, field, tenant, identity, day, knownAt);
      ChangeKeepsThePast(facts, run[0].change, run[0].now, field, tenant, identity, day, knownAt);
    }
  }

  // ---------------------------------------------------------------- correction keeps single values

  /** Replacements for a version closed at `now`: recorded from `now`, inside its effective period, disjoint. */
  ghost predicate Replaces(replacements: seq<Fact>, prior: Fact, now: int) {
    && (forall r :: r in replacements ==>
          r.Recorded() == From(now) && forall d :: r.Effective().Contains(d) ==> prior.Effective().Contains(d))
    && forall i, j :: 0 <= i < j < |replacements| ==> !replacements[i].Effective().Overlaps(replacements[j].Effective())
  }

  /** Close one open version and insert its replacements: if no two versions of the identity
      conflicted before, none do after, so every coordinate still resolves to at most one version. */
  lemma CorrectionKeepsSingleValues(
    facts: seq<Fact>, i: nat, now: int, replacements: seq<Fact>,
    field: IdentityField, tenant: Uuid, identity: Uuid)
    requires i < |facts| && CloseRecordedInterval(facts[i], now).Ok?
    requires Names(View(field)(facts[i]), tenant, identity)
    requires Replaces(replacements, facts[i], now)
    requires SingleValuedEverywhere(facts, View(field), tenant, identity)
    ensures SingleValuedEverywhere(
              facts[i := CloseRecordedInterval(facts[i], now).value] + replacements, View(field), tenant, identity)
  {
    var view := View(field);
    var closed := CloseRecordedInterval(facts[i], now).value;
    var after := facts[i := closed] + replacements;
    SingleValuedIffConflictFree(facts, view, tenant, identity);
    forall a, b | 0 <= a < b < |after|
      && Names(view(after[a]), tenant, identity) && Names(view(after[b]), tenant, identity)
      ensures !Conflict(view(after[a]), view(after[b]))
    {
      if b < |facts| {
        assert !Conflict(view(facts[a]), view(facts[b]));
      } else if a < |facts| {
        ReplacementMeetsNoOld(facts, i, now, after[b], a, field, tenant, identity);
      } else {
        assert !replacements[a - |facts|].Effective().Overlaps(replacements[b - |facts|].Effective());
      }
    }
    SingleValuedIffConflictFree(after, view, tenant, identity);
  }

  lemma ReplacementMeetsNoOld(
    facts: seq<Fact>, i: nat, now: int, r: Fact, a: nat, field: IdentityField, tenant: Uuid, identity: Uuid)
    requires i < |facts| && a < |facts| && CloseRecordedInterval(facts[i], now).Ok?
    requires r.Recorded() == From(now)
    requires forall d :: r.Effective().Contains(d) ==> facts[i].Effective().Contains(d)
    requires Names(View(field)(facts[i]), tenant, identity)
    requires a == i || Names(View(field)(facts[a]), tenant, identity)
    requires ConflictFree(facts, View(field), tenant, identity)
    ensures !Conflict(View(field)(facts[i := CloseRecordedInterval(facts[i], now).value][a]), View(field)(r))
  {
    if a != i && facts[a].Effective().Overlaps(r.Effective()) {
      OverlapIsCommonPoint(facts[a].Effective(), r.Effective());
      OverlapIsCommonPoint(facts[a].Effective(), facts[i].Effective());
      assert !Conflict(View(field)(facts[a]), View(field)(facts[i]));
    }
  }

  // ---------------------------------------------------------------- the same, on the columns

  /** The named identity field of a fact holds the identity. */
  ghost predicate Carries(fact: Fact, field: IdentityField, identity: Uuid) {
    match fact
    case OfEmployment(v) =>
      || (field.ByTenant? && v.tenant == identity) || (field.ByEmployment? && v.employment == identity)
      || (field.ByPerson? && v.person == identity) || (field.ByVersion? && v.version == identity)
    case OfUnit(v) =>
      || (field.ByTenant? && v.tenant == identity) || (field.ByUnit? && v.unit == identity)
      || (field.ByVersion? && v.version == identity)
    case OfPosition(v) =>
      || (field.ByTenant? && v.tenant == identity) || (field.ByPosition? && v.position == identity)
      || (field.ByVersion? && v.version == identity)
    case OfAssignment(a) =>
      || (field.ByTenant? && a.tenant == identity) || (field.ByEmployment? && a.employment == identity)
      || (field.ByPerson? && a.person == identity) || (field.ByPosition? && a.position == identity)
      || (field.ByAssignment? && a.assignment == identity)
  }

  /** The fact is of the tenant, in effect on the day and known at the cutoff. */
  ghost predicate IsKnown(fact: Fact, tenant: Uuid, day: int, knownAt: int) {
    match fact
    case OfEmployment(v) => v.tenant == tenant && v.effective.Contains(day) && v.recorded.Contains(knownAt)
    case OfUnit(v) => v.tenant == tenant && v.effective.Contains(day) && v.recorded.Contains(knownAt)
    case OfPosition(v) => v.tenant == tenant && v.effective.Contains(day) && v.recorded.Contains(knownAt)
    case OfAssignment(a) => a.tenant == tenant && a.effective.Contains(day) && a.recorded.Contains(knownAt)
  }

  lemma SeenInFull(
    facts: seq<Fact>, field: IdentityField, tenant: Uuid, identity: Uuid, day: int, knownAt: int, fact: Fact)
    ensures (fact in Seen(facts, field, tenant, identity, day, knownAt) <==>
             fact in facts && Carries(fact, field, identity) && IsKnown(fact, tenant, day, knownAt))
  {
    assert View(field)(fact) == FactView(fact.Tenant(), fact.Identity(field), fact.Effective(), fact.Recorded());
  }

  /** Closing sets the end of an open recorded period that starts earlier, and copies every other column. */
  lemma CloseInFull(fact: Fact, to: int)
    ensures match fact
            case OfEmployment(v) =>
              CloseRecordedInterval(fact, to) ==
              (if v.recorded.end.Some? then Err(AlreadyClosed)
               else if to <= v.recorded.start then Err(CloseNotAfterStart)
               else Ok(OfEmployment(v.(recorded := Bounds(v.recorded.start, Some(to))))))
            case OfUnit(v) =>
              CloseRecordedInterval(fact, to) ==
              (if v.recorded.end.Some? then Err(AlreadyClosed)
               else if to <= v.recorded.start then Err(CloseNotAfterStart)
               else Ok(OfUnit(v.(recorded := Bounds(v.recorded.start, Some(to))))))
            case OfPosition(v) =>
              CloseRecordedInterval(fact, to) ==
              (if v.recorded.end.Some? then Err(AlreadyClosed)
               else if to <= v.recorded.start then Err(CloseNotAfterStart)
               else Ok(OfPosition(v.(recorded := Bounds(v.recorded.start, Some(to))))))
            case OfAssignment(a) =>
              CloseRecordedInterval(fact, to) ==
              (if a.recorded.end.Some? then Err(AlreadyClosed)
               else if to <= a.recorded.start then Err(CloseNotAfterStart)
               else Ok(OfAssignment(a.(recorded := Bounds(a.recorded.start, Some(to))))))
  {
  }
}
