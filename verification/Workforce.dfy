/** The workforce-composition snapshot: when it is built, what its fields are, and the bounds they obey. */
module Workforce {
  import opened Prelude
  import opened Errors
  import opened Facts
  import opened Resolution
  import opened Allocation
  import opened Assignment
  import opened Employment

  const INCLUDED := ["active", "leave"]

  datatype Snapshot = Snapshot(
    tenant: Uuid, effectiveOn: int, knownAt: int,
    personHeadcount: nat, employmentCount: nat, staffedAssignmentCount: nat, staffedFte: real,
    unassignedPersonCount: nat, statusCounts: seq<(string, nat)>)

  // ---------------------------------------------------------------- the coordinate

  predicate Here(v: EmploymentVersion, tenant: Uuid, day: int, knownAt: int) {
    v.tenant == tenant && v.effective.Contains(day) && v.recorded.Contains(knownAt)
  }

  function EmploymentHere(tenant: Uuid, day: int, knownAt: int): EmploymentVersion -> bool {
    (v: EmploymentVersion) => Here(v, tenant, day, knownAt)
  }

  function AssignmentHere(tenant: Uuid, day: int, knownAt: int): Scope {
    (f: AssignmentFact) => f.tenant == tenant && f.effective.Contains(day) && f.recorded.Contains(knownAt)
  }

  /** The reportable employment versions visible at the coordinate. */
  ghost function Reportable(versions: seq<EmploymentVersion>, tenant: Uuid, day: int, knownAt: int)
    : set<EmploymentVersion>
  {
    set v | v in versions && Here(v, tenant, day, knownAt) && EligibleEmployment(v.status)
  }

  /** The assignments visible at the coordinate. */
  function Staffing(assignments: seq<AssignmentFact>, tenant: Uuid, day: int, knownAt: int): seq<AssignmentFact> {
    Filter(assignments, AssignmentHere(tenant, day, knownAt))
  }

  function PersonOf(): EmploymentVersion -> Uuid {
    (v: EmploymentVersion) => v.person
  }

  function EmploymentOf(): EmploymentVersion -> Uuid {
    (v: EmploymentVersion) => v.employment
  }

  function AssignmentId(): AssignmentFact -> Uuid {
    (f: AssignmentFact) => f.assignment
  }

  function StaffedEmployment(): AssignmentFact -> Uuid {
    (f: AssignmentFact) => f.employment
  }

  function StaffedPosition(): AssignmentFact -> Uuid {
    (f: AssignmentFact) => f.position
  }

  function HasStatus(status: string): EmploymentVersion -> bool {
    (v: EmploymentVersion) => v.status == status
  }

  // ---------------------------------------------------------------- when the snapshot is built

  ghost predicate PortfoliosExclusive(versions: seq<EmploymentVersion>, tenant: Uuid, day: int, knownAt: int) {
    && (forall v :: v in versions && Here(v, tenant, day, knownAt) ==> KnownConcurrency(v.concurrency))
    && (forall v, w ::
          v in versions && w in versions && Here(v, tenant, day, knownAt) && Here(w, tenant, day, knownAt)
          && v.person == w.person && v.concurrency == w.concurrency == EXCLUSIVE
          ==> v.employment == w.employment)
  }

  ghost predicate VersionsSingle(versions: seq<EmploymentVersion>, tenant: Uuid, day: int, knownAt: int) {
    forall employment :: |Reconstruct(versions, EmploymentById(), tenant, employment, day, knownAt)| <= 1
  }

  ghost predicate AssignmentsSingle(staffing: seq<AssignmentFact>) {
    forall id :: |Filter(staffing, KeyIs(AssignmentId(), id))| <= 1
  }

  ghost predicate StaffingCovered(versions: seq<EmploymentVersion>, staffing: seq<AssignmentFact>, knownAt: int) {
    forall f :: f in staffing ==> EmploymentCovers(f, versions, knownAt)
  }

  ghost predicate PortfoliosFit(staffing: seq<AssignmentFact>, tenant: Uuid, day: int, knownAt: int) {
    forall f :: f in staffing ==> PortfolioOutcome(staffing, tenant, f.person, f.employment, day, knownAt).Pass?
  }

  ghost predicate SeatsFit(staffing: seq<AssignmentFact>, tenant: Uuid, day: int, knownAt: int) {
    forall f :: f in staffing ==> SeatOutcome(staffing, tenant, f.position, day, knownAt).Pass?
  }

  ghost predicate Buildable(
    versions: seq<EmploymentVersion>, assignments: seq<AssignmentFact>, tenant: Uuid, day: int, knownAt: int)
  {
    var staffing := Staffing(assignments, tenant, day, knownAt);
    && PortfoliosExclusive(versions, tenant, day, knownAt)
    && VersionsSingle(versions, tenant, day, knownAt)
    && AssignmentsSingle(staffing)
    && StaffingCovered(versions, staffing, knownAt)
    && PortfoliosFit(staffing, tenant, day, knownAt)
    && SeatsFit(staffing, tenant, day, knownAt)
  }

  /** Which error is raised: one that a check of the first failing stage gives. */
  ghost predicate FailsWith(
    e: KernelError, versions: seq<EmploymentVersion>, assignments: seq<AssignmentFact>, tenant: Uuid,
    day: int, knownAt: int)
  {
    var staffing := Staffing(assignments, tenant, day, knownAt);
    if !PortfoliosExclusive(versions, tenant, day, knownAt) then ExclusivityFails(e, versions, tenant, day, knownAt)
    else if !VersionsSingle(versions, tenant, day, knownAt) || !AssignmentsSingle(staffing) then
      e == SingleValuedFactError
    else if !StaffingCovered(versions, staffing, knownAt) then CoverageFails(e, versions, staffing, knownAt)
    else if !PortfoliosFit(staffing, tenant, day, knownAt) then PortfolioFails(e, staffing, tenant, day, knownAt)
    else e == PositionOverAllocated
  }

  /** The exclusivity error of some person, among the versions at the coordinate. */
  ghost predicate ExclusivityFails(
    e: KernelError, versions: seq<EmploymentVersion>, tenant: Uuid, day: int, knownAt: int)
  {
    var here := Filter(versions, EmploymentHere(tenant, day, knownAt));
    exists person :: ValidatePersonEmploymentExclusivity(here, tenant, person, knownAt) == Fail(e)
  }

  /** The coverage error of some visible assignment. */
  ghost predicate CoverageFails(
    e: KernelError, versions: seq<EmploymentVersion>, staffing: seq<AssignmentFact>, knownAt: int)
  {
    exists f :: f in staffing && EmploymentCoverageOutcome(f, versions, knownAt) == Fail(e)
  }

  /** The portfolio error of some visible assignment. */
  ghost predicate PortfolioFails(e: KernelError, staffing: seq<AssignmentFact>, tenant: Uuid, day: int, knownAt: int) {
    exists f :: f in staffing && PortfolioOutcome(staffing, tenant, f.person, f.employment, day, knownAt) == Fail(e)
  }

  // ---------------------------------------------------------------- what the snapshot holds

  ghost function StatusCount(reportable: set<EmploymentVersion>, status: string): nat {
    |set v | v in reportable && v.status == status|
  }

  ghost function StatusCounts(reportable: set<EmploymentVersion>): seq<(string, nat)> {
    StatusItems(StatusCount(reportable, "active"), StatusCount(reportable, "leave"))
  }

  /** The sorted items of the counter: only statuses that occur, in ascending order. */
  function StatusItems(active: nat, leave: nat): seq<(string, nat)> {
    (if active > 0 then [("active", active)] else []) + (if leave > 0 then [("leave", leave)] else [])
  }

  ghost function StaffedPeople(staffing: seq<AssignmentFact>): set<Uuid> {
    set f | f in staffing :: f.person
  }

  ghost function SnapshotOf(
    versions: seq<EmploymentVersion>, assignments: seq<AssignmentFact>, tenant: Uuid, day: int, knownAt: int): Snapshot
  {
    var reportable := Reportable(versions, tenant, day, knownAt);
    var staffing := Staffing(assignments, tenant, day, knownAt);
    var people := Image(reportable, PersonOf());
    Snapshot(tenant, day, knownAt, |people|, |reportable|, |staffing|, Total(staffing),
             |people - StaffedPeople(staffing)|, StatusCounts(reportable))
  }

  // ---------------------------------------------------------------- the builder

  method ValidateVisibleEmploymentPortfolios(
    versions: seq<EmploymentVersion>, tenant: Uuid, effectiveOn: int, knownAt: int) returns (outcome: Outcome)
    ensures outcome.Pass? <==> PortfoliosExclusive(versions, tenant, effectiveOn, knownAt)
    ensures outcome.Fail? ==> ExclusivityFails(outcome.error, versions, tenant, effectiveOn, knownAt)
  {
    var here := Filter(versions, EmploymentHere(tenant, effectiveOn, knownAt));
    var people := SortedMembers(set v | v in here :: v.person);
    for i := 0 to |people|
      invariant forall k :: 0 <= k < i ==>
                  && ConcurrencyCodesKnown(here, tenant, people[k])
                  && OneExclusiveEmployment(here, tenant, people[k], knownAt)
    {
      outcome := ValidatePersonEmploymentExclusivity(here, tenant, people[i], knownAt);
      ExclusivityMeaning(here, tenant, people[i], knownAt);
      if outcome.Fail? {
        NotExclusive(versions, here, tenant, people[i], effectiveOn, knownAt);
        return;
      }
    }
    forall v | v in versions && Here(v, tenant, effectiveOn, knownAt)
      ensures ConcurrencyCodesKnown(here, tenant, v.person)
      ensures OneExclusiveEmployment(here, tenant, v.person, knownAt)
    {
      assert v in here;
      assert v.person in people;
    }
    PeopleExclusive(versions, here, tenant, effectiveOn, knownAt);
    return Pass;
  }

  lemma NotExclusive(
    versions: seq<EmploymentVersion>, here: seq<EmploymentVersion>, tenant: Uuid, person: Uuid, day: int, knownAt: int)
    requires here == Filter(versions, EmploymentHere(tenant, day, knownAt))
    requires !(ConcurrencyCodesKnown(here, tenant, person) && OneExclusiveEmployment(here, tenant, person, knownAt))
    ensures !PortfoliosExclusive(versions, tenant, day, knownAt)
  {
    if !ConcurrencyCodesKnown(here, tenant, person) {
      var v :| v in here && v.tenant == tenant && v.person == person && !KnownConcurrency(v.concurrency);
      assert v in versions && Here(v, tenant, day, knownAt);
    } else {
      var v, w, d :| v in here && w in here && ExclusiveOn(v, tenant, person, d, knownAt)
        && ExclusiveOn(w, tenant, person, d, knownAt) && v.employment != w.employment;
      assert v in versions && Here(v, tenant, day, knownAt);
      assert w in versions && Here(w, tenant, day, knownAt);
    }
  }

  lemma PeopleExclusive(
    versions: seq<EmploymentVersion>, here: seq<EmploymentVersion>, tenant: Uuid, day: int, knownAt: int)
    requires here == Filter(versions, EmploymentHere(tenant, day, knownAt))
    requires forall v :: v in here ==> ConcurrencyCodesKnown(here, tenant, v.person)
                                       && OneExclusiveEmployment(here, tenant, v.person, knownAt)
    ensures PortfoliosExclusive(versions, tenant, day, knownAt)
  {
    forall v | v in versions && Here(v, tenant, day, knownAt) ensures KnownConcurrency(v.concurrency) {
      assert v in here;
    }
    forall v, w |
      v in versions && w in versions && Here(v, tenant, day, knownAt) && Here(w, tenant, day, knownAt)
      && v.person == w.person && v.concurrency == w.concurrency == EXCLUSIVE
      ensures v.employment == w.employment
    {
      assert v in here && w in here;
      assert ExclusiveOn(v, tenant, v.person, day, knownAt) && ExclusiveOn(w, tenant, v.person, day, knownAt);
    }
  }

  /** One version for each employment identifier, in ascending order of the identifiers. */
  ghost predicate ByEmployment(visible: seq<EmploymentVersion>) {
    forall i, j :: 0 <= i < j < |visible| ==> visible[i].employment < visible[j].employment
  }

  method VisibleEmployments(versions: seq<EmploymentVersion>, tenant: Uuid, effectiveOn: int, knownAt: int)
    returns (r: Result<seq<EmploymentVersion>, KernelError>)
    ensures r.Ok? <==> VersionsSingle(versions, tenant, effectiveOn, knownAt)
    ensures r.Err? ==> r.error == SingleValuedFactError
    ensures r.Ok? ==> ByEmployment(r.value)
    ensures r.Ok? ==> forall v :: v in r.value <==> v in Reportable(versions, tenant, effectiveOn, knownAt)
  {
    var ids := SortedMembers(set v | v in versions && v.tenant == tenant :: v.employment);
    var visible: seq<EmploymentVersion> := [];
    for i := 0 to |ids|
      invariant forall k :: 0 <= k < i ==>
                  |Reconstruct(versions, EmploymentById(), tenant, ids[k], effectiveOn, knownAt)| <= 1
      invariant ByEmployment(visible)
      invariant forall v :: v in visible <==>
                  v in Reportable(versions, tenant, effectiveOn, knownAt) && v.employment in ids[..i]
    {
      var version := ResolveSingleValuedFact(versions, EmploymentById(), tenant, ids[i], effectiveOn, knownAt);
      if version.Err? {
        return Err(SingleValuedFactError);
      }
      OnlyVersion(versions, tenant, ids[i], effectiveOn, knownAt);
      assert ids[..i + 1] == ids[..i] + [ids[i]];
      if version.value.None? {
        continue;
      }
      if !EligibleEmployment(version.value.value.status) {
        continue;
      }
      forall k | 0 <= k < |visible| ensures visible[k].employment < ids[i] {
        assert visible[k] in visible;
      }
      visible := visible + [version.value.value];
    }
    assert ids[..|ids|] == ids;
    forall v | v in Reportable(versions, tenant, effectiveOn, knownAt) ensures v.employment in ids {
      assert v in versions && v.tenant == tenant;
    }
    forall employment ensures |Reconstruct(versions, EmploymentById(), tenant, employment, effectiveOn, knownAt)| <= 1 {
      if employment in ids {
        var k :| 0 <= k < |ids| && ids[k] == employment;
      } else {
        FilterNone(versions, Matching(EmploymentById(), tenant, employment, effectiveOn, knownAt));
      }
    }
    return Ok(visible);
  }

  /** The members of the reconstruction of one employment are its reportable versions, of whatever status. */
  lemma OnlyVersion(versions: seq<EmploymentVersion>, tenant: Uuid, employment: Uuid, day: int, knownAt: int)
    ensures forall v :: v in Reconstruct(versions, EmploymentById(), tenant, employment, day, knownAt)
              <==> v in versions && Here(v, tenant, day, knownAt) && v.employment == employment
  {
  }

  method VisibleAssignments(assignments: seq<AssignmentFact>, tenant: Uuid, effectiveOn: int, knownAt: int)
    returns (r: Result<seq<AssignmentFact>, KernelError>)
    ensures r.Ok? <==> AssignmentsSingle(Staffing(assignments, tenant, effectiveOn, knownAt))
    ensures r.Ok? ==> r.value == Staffing(assignments, tenant, effectiveOn, knownAt)
    ensures r.Err? ==> r.error == SingleValuedFactError
  {
    var visible := Staffing(assignments, tenant, effectiveOn, knownAt);
    var seen: set<Uuid> := {};
    for i := 0 to |visible|
      invariant forall id :: id in seen <==> exists k :: 0 <= k < i && visible[k].assignment == id
      invariant forall k, l :: 0 <= k < l < i ==> visible[k].assignment != visible[l].assignment
    {
      if visible[i].assignment in seen {
        var k :| 0 <= k < i && visible[k].assignment == visible[i].assignment;
        var p := KeyIs(AssignmentId(), visible[i].assignment);
        assert p(visible[k]) && p(visible[i]);
        FilterPair(visible, p);
        return Err(SingleValuedFactError);
      }
      seen := seen + {visible[i].assignment};
    }
    forall id ensures |Filter(visible, KeyIs(AssignmentId(), id))| <= 1 {
      FilterPair(visible, KeyIs(AssignmentId(), id));
    }
    return Ok(visible);
  }

  lemma CountOneMore(seen: seq<EmploymentVersion>, v: EmploymentVersion, status: string)
    ensures (|Filter(seen + [v], HasStatus(status))| ==
             |Filter(seen, HasStatus(status))| + if status == v.status then 1 else 0)
  {
    FilterAppend(seen, [v], HasStatus(status));
  }

  function CountIn(counts: map<string, nat>, status: string): nat {
    if status in counts then counts[status] else 0
  }

  /** `Counter` over the statuses. */
  method CountByStatus(visible: seq<EmploymentVersion>) returns (counts: map<string, nat>)
    ensures forall s :: CountIn(counts, s) == |Filter(visible, HasStatus(s))|
    ensures forall s :: s in counts ==> counts[s] > 0
  {
    counts := map[];
    for i := 0 to |visible|
      invariant forall s :: CountIn(counts, s) == |Filter(visible[..i], HasStatus(s))|
      invariant forall s :: s in counts ==> counts[s] > 0
    {
      var status := visible[i].status;
      assert visible[..i + 1] == visible[..i] + [visible[i]];
      forall s ensures |Filter(visible[..i + 1], HasStatus(s))|
                    == |Filter(visible[..i], HasStatus(s))| + if s == status then 1 else 0
      {
        CountOneMore(visible[..i], visible[i], s);
      }
      counts := counts[status := CountIn(counts, status) + 1];
    }
    assert visible[..|visible|] == visible;
  }

  /** The items in ascending status order; only "active" and "leave" occur. */
  method CountStatuses(visible: seq<EmploymentVersion>) returns (items: seq<(string, nat)>)
    requires forall v :: v in visible ==> EligibleEmployment(v.status)
    ensures items == StatusItems(|Filter(visible, HasStatus("active"))|, |Filter(visible, HasStatus("leave"))|)
  {
    var counts := CountByStatus(visible);
    items := [];
    for i := 0 to |INCLUDED|
      invariant i == 0 ==> items == []
      invariant i == 1 ==> items == StatusItems(CountIn(counts, "active"), 0)
      invariant i == 2 ==> items == StatusItems(CountIn(counts, "active"), CountIn(counts, "leave"))
    {
      if INCLUDED[i] in counts {
        items := items + [(INCLUDED[i], counts[INCLUDED[i]])];
      }
    }
  }

  // ---------------------------------------------------------------- what a snapshot says of the two lists

  ghost predicate ReportableAt(v: EmploymentVersion, tenant: Uuid, day: int, knownAt: int) {
    && v.tenant == tenant && v.effective.Contains(day) && v.recorded.Contains(knownAt)
    && (v.status == "active" || v.status == "leave")
  }

  ghost predicate StaffedAt(f: AssignmentFact, tenant: Uuid, day: int, knownAt: int) {
    f.tenant == tenant && f.effective.Contains(day) && f.recorded.Contains(knownAt)
  }

  ghost function StaffedFte(assignments: seq<AssignmentFact>, tenant: Uuid, day: int, knownAt: int): real {
    if assignments == [] then 0.0
    else (if StaffedAt(assignments[0], tenant, day, knownAt) then assignments[0].ratio else 0.0)
         + StaffedFte(assignments[1..], tenant, day, knownAt)
  }

  ghost function StaffedPlaces(assignments: seq<AssignmentFact>, tenant: Uuid, day: int, knownAt: int): nat {
    if assignments == [] then 0
    else (if StaffedAt(assignments[0], tenant, day, knownAt) then 1 else 0)
         + StaffedPlaces(assignments[1..], tenant, day, knownAt)
  }

  ghost function PeopleAt(versions: seq<EmploymentVersion>, tenant: Uuid, day: int, knownAt: int): set<Uuid> {
    set v | v in versions && ReportableAt(v, tenant, day, knownAt) :: v.person
  }

  ghost function EmploymentsAt(
    versions: seq<EmploymentVersion>, tenant: Uuid, day: int, knownAt: int, status: string): set<Uuid>
  {
    set v | v in versions && ReportableAt(v, tenant, day, knownAt) && v.status == status :: v.employment
  }

  /** Headcounts are of different people, the employment counts of different employments, and staffed FTE and
      assignments are summed over the visible assignments. Each status that occurs is listed once with its count,
      "active" first. */
  ghost predicate Publishes(
    s: Snapshot, versions: seq<EmploymentVersion>, assignments: seq<AssignmentFact>, tenant: Uuid, day: int,
    knownAt: int)
  {
    var people := PeopleAt(versions, tenant, day, knownAt);
    var staffed := set f | f in assignments && StaffedAt(f, tenant, day, knownAt) :: f.person;
    var active := EmploymentsAt(versions, tenant, day, knownAt, "active");
    var leave := EmploymentsAt(versions, tenant, day, knownAt, "leave");
    && s.tenant == tenant && s.effectiveOn == day && s.knownAt == knownAt
    && s.personHeadcount == |people|
    && s.unassignedPersonCount == |people - staffed|
    && s.employmentCount == |active| + |leave|
    && s.staffedFte == StaffedFte(assignments, tenant, day, knownAt)
    && s.staffedAssignmentCount == StaffedPlaces(assignments, tenant, day, knownAt)
    && s.statusCounts == (if |active| > 0 then [("active", |active|)] else [])
                         + (if |leave| > 0 then [("leave", |leave|)] else [])
  }

  lemma {:induction false} StaffingSums(assignments: seq<AssignmentFact>, tenant: Uuid, day: int, knownAt: int)
    ensures Total(Staffing(assignments, tenant, day, knownAt)) == StaffedFte(assignments, tenant, day, knownAt)
    ensures |Staffing(assignments, tenant, day, knownAt)| == StaffedPlaces(assignments, tenant, day, knownAt)
  {
    if assignments != [] {
      StaffingSums(assignments[1..], tenant, day, knownAt);
      TotalAppend([assignments[0]], Staffing(assignments[1..], tenant, day, knownAt));
    }
  }

  /** A reportable employment is one version, so counting versions counts employments. */
  lemma CountsEmployments(versions: seq<EmploymentVersion>, tenant: Uuid, day: int, knownAt: int, status: string)
    requires VersionsSingle(versions, tenant, day, knownAt)
    ensures (StatusCount(Reportable(versions, tenant, day, knownAt), status) ==
             |EmploymentsAt(versions, tenant, day, knownAt, status)|)
  {
    var ids := EmploymentsAt(versions, tenant, day, knownAt, status);
    var chosen := set v | v in Reportable(versions, tenant, day, knownAt) && v.status == status;
    forall v, w | v in chosen && w in chosen && EmploymentOf()(v) == EmploymentOf()(w) ensures v == w {
      var on := Reconstruct(versions, EmploymentById(), tenant, v.employment, day, knownAt);
      assert |on| <= 1 && v in on && w in on;
    }
    ImageSize(chosen, EmploymentOf());
    forall id ensures id in ids <==> id in Image(chosen, EmploymentOf()) {
      if id in ids {
        var v :| v in versions && ReportableAt(v, tenant, day, knownAt) && v.status == status && v.employment == id;
        assert v in chosen && EmploymentOf()(v) == id;
      }
    }
    assert ids == Image(chosen, EmploymentOf());
  }

  lemma CountsPeople(versions: seq<EmploymentVersion>, tenant: Uuid, day: int, knownAt: int)
    ensures Image(Reportable(versions, tenant, day, knownAt), PersonOf()) == PeopleAt(versions, tenant, day, knownAt)
  {
    var reportable := Reportable(versions, tenant, day, knownAt);
    forall id | id in PeopleAt(versions, tenant, day, knownAt) ensures id in Image(reportable, PersonOf()) {
      var v :| v in versions && ReportableAt(v, tenant, day, knownAt) && v.person == id;
      assert v in reportable && PersonOf()(v) == id;
    }
  }

  lemma StatusesPartition(reportable: set<EmploymentVersion>)
    requires forall v :: v in reportable ==> EligibleEmployment(v.status)
    ensures StatusCount(reportable, "active") + StatusCount(reportable, "leave") == |reportable|
  {
    var active := set v | v in reportable && v.status == "active";
    var leave := set v | v in reportable && v.status == "leave";
    assert "active" != "leave" by {
      assert |"active"| != |"leave"|;
    }
    assert reportable == active + leave;
    assert active !! leave;
  }

  lemma SnapshotPublishes(
    versions: seq<EmploymentVersion>, assignments: seq<AssignmentFact>, tenant: Uuid, day: int, knownAt: int)
    requires VersionsSingle(versions, tenant, day, knownAt)
    ensures Publishes(SnapshotOf(versions, assignments, tenant, day, knownAt), versions, assignments, tenant, day,
                      knownAt)
  {
    var reportable := Reportable(versions, tenant, day, knownAt);
    var staffed := set f | f in assignments && StaffedAt(f, tenant, day, knownAt) :: f.person;
    CountsPeople(versions, tenant, day, knownAt);
    assert StaffedPeople(Staffing(assignments, tenant, day, knownAt)) == staffed;
    StaffingSums(assignments, tenant, day, knownAt);
    StatusesPartition(reportable);
    CountsEmployments(versions, tenant, day, knownAt, "active");
    CountsEmployments(versions, tenant, day, knownAt, "leave");
  }

  /** The builder succeeds exactly when every rule holds at the coordinate, and then returns the snapshot. */
  method BuildWorkforceCompositionSnapshot(
    versions: seq<EmploymentVersion>, assignments: seq<AssignmentFact>, tenant: Uuid, effectiveOn: int, knownAt: int)
    returns (r: Result<Snapshot, KernelError>)
    ensures r.Ok? <==> Buildable(versions, assignments, tenant, effectiveOn, knownAt)
    ensures r.Ok? ==> r.value == SnapshotOf(versions, assignments, tenant, effectiveOn, knownAt)
    ensures r.Ok? ==> Publishes(r.value, versions, assignments, tenant, effectiveOn, knownAt)
    ensures r.Err? ==> FailsWith(r.error, versions, assignments, tenant, effectiveOn, knownAt)
  {
    var portfolios := ValidateVisibleEmploymentPortfolios(versions, tenant, effectiveOn, knownAt);
    if portfolios.Fail? {
      return Err(portfolios.error);
    }
    var employments := VisibleEmployments(versions, tenant, effectiveOn, knownAt);
    if employments.Err? {
      return Err(employments.error);
    }
    var staffed := VisibleAssignments(assignments, tenant, effectiveOn, knownAt);
    if staffed.Err? {
      return Err(staffed.error);
    }
    var staffing := staffed.value;
    var totals := TallyStaffing(staffing, versions, knownAt);
    if totals.Err? {
      return Err(totals.error);
    }
    var fits := ValidateStaffing(staffing, totals.value, tenant, effectiveOn, knownAt);
    if fits.Fail? {
      return Err(fits.error);
    }
    var snapshot := Assemble(employments.value, staffing, totals.value, tenant, effectiveOn, knownAt);
    Assembled(employments.value, versions, assignments, snapshot, tenant, effectiveOn, knownAt);
    SnapshotPublishes(versions, assignments, tenant, effectiveOn, knownAt);
    return Ok(snapshot);
  }

  method Assemble(
    visible: seq<EmploymentVersion>, staffing: seq<AssignmentFact>, tally: Tally, tenant: Uuid,
    effectiveOn: int, knownAt: int)
    returns (snapshot: Snapshot)
    requires forall v :: v in visible ==> EligibleEmployment(v.status)
    requires TallyOf(tally, staffing)
    ensures snapshot == SnapshotFrom(visible, staffing, tenant, effectiveOn, knownAt)
  {
    var people := set v | v in visible :: v.person;
    var counts := CountStatuses(visible);
    snapshot := Snapshot(tenant, effectiveOn, knownAt, |people|, |visible|, tally.count, tally.fte,
                         |people - tally.people|, counts);
  }

  /** The fields as the builder computes them, from its two lists. */
  ghost function SnapshotFrom(
    visible: seq<EmploymentVersion>, staffing: seq<AssignmentFact>, tenant: Uuid, day: int, knownAt: int): Snapshot
  {
    var people := set v | v in visible :: v.person;
    Snapshot(tenant, day, knownAt, |people|, |visible|, |staffing|, Total(staffing), |people - StaffedPeople(staffing)|,
             StatusItems(|Filter(visible, HasStatus("active"))|, |Filter(visible, HasStatus("leave"))|))
  }

  lemma Assembled(
    visible: seq<EmploymentVersion>, versions: seq<EmploymentVersion>, assignments: seq<AssignmentFact>,
    snapshot: Snapshot, tenant: Uuid, day: int, knownAt: int)
    requires ByEmployment(visible)
    requires forall v :: v in visible <==> v in Reportable(versions, tenant, day, knownAt)
    requires snapshot == SnapshotFrom(visible, Staffing(assignments, tenant, day, knownAt), tenant, day, knownAt)
    ensures snapshot == SnapshotOf(versions, assignments, tenant, day, knownAt)
  {
    var reportable := Reportable(versions, tenant, day, knownAt);
    FieldsOf(visible, reportable);
    StatusField(visible, reportable, "active");
    StatusField(visible, reportable, "leave");
  }

  datatype Tally = Tally(
    portfolios: set<(Uuid, Uuid)>, positions: set<Uuid>, people: set<Uuid>, fte: real, count: nat)

  ghost predicate TallyOf(t: Tally, staffing: seq<AssignmentFact>) {
    && (forall k :: k in t.portfolios <==> exists f :: f in staffing && (f.person, f.employment) == k)
    && (forall k :: k in t.positions <==> exists f :: f in staffing && f.position == k)
    && t.people == StaffedPeople(staffing)
    && t.fte == Total(staffing)
    && t.count == |staffing|
  }

  /** The accumulation loop over the visible assignments; stops at the first assignment without coverage. */
  method TallyStaffing(staffing: seq<AssignmentFact>, versions: seq<EmploymentVersion>, knownAt: int)
    returns (r: Result<Tally, KernelError>)
    ensures r.Ok? <==> StaffingCovered(versions, staffing, knownAt)
    ensures r.Ok? ==> TallyOf(r.value, staffing)
    ensures r.Err? ==> CoverageFails(r.error, versions, staffing, knownAt)
  {
    var tally := Tally({}, {}, {}, 0.0, 0);
    for i := 0 to |staffing|
      invariant TallyOf(tally, staffing[..i])
      invariant forall f :: f in staffing[..i] ==> EmploymentCovers(f, versions, knownAt)
    {
      var f := staffing[i];
      assert staffing[..i + 1] == staffing[..i] + [f];
      var outcome := ValidateAssignmentEmploymentCoverage(f, versions, knownAt);
      EmploymentCoverageMeaning(f, versions, knownAt);
      if outcome.Fail? {
        assert f in staffing;
        return Err(outcome.error);
      }
      TotalAppend(staffing[..i], [f]);
      ghost var before := tally;
      tally := Tally(tally.portfolios + {(f.person, f.employment)}, tally.positions + {f.position},
                     tally.people + {f.person}, tally.fte + f.ratio, tally.count + 1);
      TallyAppend(before, tally, staffing[..i], f);
    }
    assert staffing[..|staffing|] == staffing;
    return Ok(tally);
  }

  lemma TallyAppend(before: Tally, after: Tally, done: seq<AssignmentFact>, f: AssignmentFact)
    requires TallyOf(before, done)
    requires after == Tally(before.portfolios + {(f.person, f.employment)}, before.positions + {f.position},
                            before.people + {f.person}, before.fte + f.ratio, before.count + 1)
    ensures TallyOf(after, done + [f])
  {
    var more := done + [f];
    assert f in more;
    forall g ensures g in more <==> g in done || g == f {}
    TotalAppend(done, [f]);
    assert Total([f]) == f.ratio;
    assert StaffedPeople(more) == StaffedPeople(done) + {f.person};
  }

  method ValidateStaffing(staffing: seq<AssignmentFact>, tally: Tally, tenant: Uuid, effectiveOn: int, knownAt: int)
    returns (outcome: Outcome)
    requires TallyOf(tally, staffing)
    ensures match outcome
            case Pass =>
              PortfoliosFit(staffing, tenant, effectiveOn, knownAt) && SeatsFit(staffing, tenant, effectiveOn, knownAt)
            case Fail(e) =>
              if PortfoliosFit(staffing, tenant, effectiveOn, knownAt)
              then !SeatsFit(staffing, tenant, effectiveOn, knownAt) && e == PositionOverAllocated
              else PortfolioFails(e, staffing, tenant, effectiveOn, knownAt)
  {
    var portfolios := tally.portfolios;
    while portfolios != {}
      invariant portfolios <= tally.portfolios
      invariant forall k :: k in tally.portfolios ==>
                  k in portfolios || PortfolioOutcome(staffing, tenant, k.0, k.1, effectiveOn, knownAt).Pass?
      decreases portfolios
    {
      var key := Pick(portfolios);
      outcome := ValidateAssignmentPortfolio(staffing, tenant, key.0, key.1, effectiveOn, knownAt);
      if outcome.Fail? {
        return;
      }
      portfolios := portfolios - {key};
    }
    forall f | f in staffing
      ensures PortfolioOutcome(staffing, tenant, f.person, f.employment, effectiveOn, knownAt).Pass?
    {
      assert (f.person, f.employment) in tally.portfolios;
    }
    var positions := tally.positions;
    while positions != {}
      invariant positions <= tally.positions
      invariant forall k :: k in tally.positions ==>
                  k in positions || SeatOutcome(staffing, tenant, k, effectiveOn, knownAt).Pass?
      decreases positions
    {
      var position := Pick(positions);
      outcome := ValidatePositionSeatCapacity(staffing, tenant, position, effectiveOn, knownAt);
      if outcome.Fail? {
        return;
      }
      positions := positions - {position};
    }
    forall f | f in staffing ensures SeatOutcome(staffing, tenant, f.position, effectiveOn, knownAt).Pass? {
      assert f.position in tally.positions;
    }
    return Pass;
  }

  lemma FieldsOf(visible: seq<EmploymentVersion>, reportable: set<EmploymentVersion>)
    requires ByEmployment(visible)
    requires forall v :: v in visible <==> v in reportable
    ensures (set v | v in visible :: v.person) == Image(reportable, PersonOf())
    ensures |visible| == |reportable|
  {
    assert (set v | v in visible) == reportable;
    DistinctSize(visible);
  }

  lemma StatusField(visible: seq<EmploymentVersion>, reportable: set<EmploymentVersion>, status: string)
    requires ByEmployment(visible)
    requires forall v :: v in visible <==> v in reportable
    ensures |Filter(visible, HasStatus(status))| == StatusCount(reportable, status)
  {
    FilterByEmployment(visible, HasStatus(status));
    var chosen := Filter(visible, HasStatus(status));
    DistinctSize(chosen);
    assert (set v | v in chosen) == (set v | v in reportable && v.status == status);
  }

  lemma {:induction false} FilterByEmployment(visible: seq<EmploymentVersion>, p: EmploymentVersion -> bool)
    requires ByEmployment(visible)
    ensures ByEmployment(Filter(visible, p))
  {
    if visible != [] {
      FilterByEmployment(visible[1..], p);
      forall v | v in visible[1..] ensures visible[0].employment < v.employment {
        var k :| 0 <= k < |visible[1..]| && visible[1..][k] == v;
        assert visible[k + 1] == v;
      }
      var rest := Filter(visible[1..], p);
      forall i | 0 <= i < |rest| ensures visible[0].employment < rest[i].employment {
        assert rest[i] in rest;
      }
    }
  }
}
