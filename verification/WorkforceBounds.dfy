/** What every published workforce snapshot obeys, and why the order of the input lists does not matter. */
module WorkforceBounds {
  import opened Prelude
  import opened Facts
  import opened Resolution
  import opened Allocation
  import opened Assignment
  import opened Employment
  import opened Workforce

  // ---------------------------------------------------------------- bounds

  ghost function StaffedPositions(staffing: seq<AssignmentFact>): set<Uuid> {
    set f | f in staffing :: f.position
  }

  ghost function StaffedEmployments(staffing: seq<AssignmentFact>): set<Uuid> {
    set f | f in staffing :: f.employment
  }

  ghost function ExclusiveReportable(reportable: set<EmploymentVersion>): set<EmploymentVersion> {
    set v | v in reportable && v.concurrency == EXCLUSIVE
  }

  /** A covered assignment points at one reportable version of its employment, held by its person. */
  lemma CoveringVersion(
    f: AssignmentFact, versions: seq<EmploymentVersion>, assignments: seq<AssignmentFact>, tenant: Uuid,
    day: int, knownAt: int)
    returns (v: EmploymentVersion)
    requires f in Staffing(assignments, tenant, day, knownAt)
    requires EmploymentCovers(f, versions, knownAt)
    ensures v in Reportable(versions, tenant, day, knownAt) && v.employment == f.employment && v.person == f.person
  {
    assert f.effective.Contains(day);
    assert EligibleOn(f, versions, day, knownAt);
    v := EmploymentOn(f, versions, day, knownAt)[0];
    assert v in EmploymentOn(f, versions, day, knownAt);
  }

  /** Each seat and each employment carries at most one full allocation, so the staffed total is bounded
      by the number of seats in use and by the number of reportable employments. */
  lemma FteByPosition(
    versions: seq<EmploymentVersion>, assignments: seq<AssignmentFact>, tenant: Uuid, day: int, knownAt: int)
    requires Buildable(versions, assignments, tenant, day, knownAt)
    ensures var staffing := Staffing(assignments, tenant, day, knownAt);
            Total(staffing) <= |StaffedPositions(staffing)| as real
  {
    var staffing := Staffing(assignments, tenant, day, knownAt);
    forall position | position in StaffedPositions(staffing)
      ensures Total(Filter(staffing, KeyIs(StaffedPosition(), position))) <= 1.0
    {
      var f :| f in staffing && f.position == position;
      assert SeatOutcome(staffing, tenant, f.position, day, knownAt).Pass?;
      FilterSame(staffing, KeyIs(StaffedPosition(), position), AtDay(OnPosition(tenant, position), day, knownAt));
    }
    TotalAtMostGroups(staffing, StaffedPosition(), StaffedPositions(staffing));
  }

  lemma EmploymentGroupIsPortfolio(
    f: AssignmentFact, versions: seq<EmploymentVersion>, assignments: seq<AssignmentFact>, tenant: Uuid,
    day: int, knownAt: int)
    requires Buildable(versions, assignments, tenant, day, knownAt)
    requires f in Staffing(assignments, tenant, day, knownAt)
    ensures Total(Filter(Staffing(assignments, tenant, day, knownAt), KeyIs(StaffedEmployment(), f.employment))) <= 1.0
  {
    var staffing := Staffing(assignments, tenant, day, knownAt);
    var v := CoveringVersion(f, versions, assignments, tenant, day, knownAt);
    forall g | g in staffing && g.employment == f.employment ensures g.person == f.person {
      assert PersonMatches(g, versions);
    }
    assert PortfolioOutcome(staffing, tenant, f.person, f.employment, day, knownAt).Pass?;
    FilterSame(staffing, KeyIs(StaffedEmployment(), f.employment),
               AtDay(InPortfolio(tenant, f.person, f.employment), day, knownAt));
  }

  lemma FteByEmployment(
    versions: seq<EmploymentVersion>, assignments: seq<AssignmentFact>, tenant: Uuid, day: int, knownAt: int)
    requires Buildable(versions, assignments, tenant, day, knownAt)
    ensures Total(Staffing(assignments, tenant, day, knownAt)) <= |Reportable(versions, tenant, day, knownAt)| as real
  {
    var staffing := Staffing(assignments, tenant, day, knownAt);
    var reportable := Reportable(versions, tenant, day, knownAt);
    forall employment | employment in StaffedEmployments(staffing)
      ensures Total(Filter(staffing, KeyIs(StaffedEmployment(), employment))) <= 1.0
      ensures employment in Image(reportable, EmploymentOf())
    {
      var f :| f in staffing && f.employment == employment;
      EmploymentGroupIsPortfolio(f, versions, assignments, tenant, day, knownAt);
      var v := CoveringVersion(f, versions, assignments, tenant, day, knownAt);
      assert EmploymentOf()(v) == employment;
    }
    TotalAtMostGroups(staffing, StaffedEmployment(), StaffedEmployments(staffing));
    SubsetSize(StaffedEmployments(staffing), Image(reportable, EmploymentOf()));
    ImageSize(reportable, EmploymentOf());
  }

  lemma StaffedAreCounted(
    versions: seq<EmploymentVersion>, assignments: seq<AssignmentFact>, tenant: Uuid, day: int, knownAt: int)
    requires Buildable(versions, assignments, tenant, day, knownAt)
    ensures StaffedPeople(Staffing(assignments, tenant, day, knownAt))
         <= Image(Reportable(versions, tenant, day, knownAt), PersonOf())
  {
    var staffing := Staffing(assignments, tenant, day, knownAt);
    forall person | person in StaffedPeople(staffing)
      ensures person in Image(Reportable(versions, tenant, day, knownAt), PersonOf())
    {
      var f :| f in staffing && f.person == person;
      var v := CoveringVersion(f, versions, assignments, tenant, day, knownAt);
      assert PersonOf()(v) == person;
    }
  }

  lemma ExclusivesAreDistinctPeople(
    versions: seq<EmploymentVersion>, assignments: seq<AssignmentFact>, tenant: Uuid, day: int, knownAt: int)
    requires Buildable(versions, assignments, tenant, day, knownAt)
    ensures var reportable := Reportable(versions, tenant, day, knownAt);
            && (forall v, w :: v in ExclusiveReportable(reportable) && w in ExclusiveReportable(reportable) && v != w
                               ==> v.person != w.person)
            && |ExclusiveReportable(reportable)| <= |Image(reportable, PersonOf())|
  {
    var reportable := Reportable(versions, tenant, day, knownAt);
    var exclusive := ExclusiveReportable(reportable);
    forall v, w | v in exclusive && w in exclusive && PersonOf()(v) == PersonOf()(w) ensures v == w {
      assert v.employment == w.employment;
      var on := Reconstruct(versions, EmploymentById(), tenant, v.employment, day, knownAt);
      assert |on| <= 1;
      assert v in on && w in on;
    }
    ImageSize(exclusive, PersonOf());
    SubsetSize(Image(exclusive, PersonOf()), Image(reportable, PersonOf()));
  }

  /** Every published snapshot: staffed FTE is at most the employment count and at most the number of staffed
      positions; staffed and unassigned people make up the headcount; status counts sum to the employment
      count; and the headcount is at least the number of exclusive employments reported. */
  lemma SnapshotBounds(
    versions: seq<EmploymentVersion>, assignments: seq<AssignmentFact>, tenant: Uuid, day: int, knownAt: int)
    requires Buildable(versions, assignments, tenant, day, knownAt)
    ensures var s := SnapshotOf(versions, assignments, tenant, day, knownAt);
            var reportable := Reportable(versions, tenant, day, knownAt);
            var staffing := Staffing(assignments, tenant, day, knownAt);
            && s.staffedFte <= s.employmentCount as real
            && s.staffedFte <= |StaffedPositions(staffing)| as real
            && StaffedPeople(staffing) <= Image(reportable, PersonOf())
            && s.unassignedPersonCount + |StaffedPeople(staffing)| == s.personHeadcount
            && CountsTotal(s.statusCounts) == s.employmentCount
            && |ExclusiveReportable(reportable)| <= s.personHeadcount <= s.employmentCount
  {
    FteByEmployment(versions, assignments, tenant, day, knownAt);
    FteByPosition(versions, assignments, tenant, day, knownAt);
    StaffedAreCounted(versions, assignments, tenant, day, knownAt);
    ExclusivesAreDistinctPeople(versions, assignments, tenant, day, knownAt);
    var reportable := Reportable(versions, tenant, day, knownAt);
    ImageSize(reportable, PersonOf());
    StatusesPartition(reportable);
    ItemsTotal(StatusCount(reportable, "active"), StatusCount(reportable, "leave"));
  }

  /** The sum of the published status counts. */
  function CountsTotal(items: seq<(string, nat)>): nat {
    if items == [] then 0 else items[0].1 + CountsTotal(items[1..])
  }

  lemma ItemsTotal(active: nat, leave: nat)
    ensures CountsTotal(StatusItems(active, leave)) == active + leave
  {
    var items := StatusItems(active, leave);
    if active > 0 {
      assert items == [("active", active)] + items[1..];
      assert items[1..] == StatusItems(0, leave);
    }
    assert CountsTotal(StatusItems(0, leave)) == leave by {
      if leave > 0 {
        assert StatusItems(0, leave) == [("leave", leave)];
        assert [("leave", leave)][1..] == [];
      }
    }
  }

  // ---------------------------------------------------------------- order of the inputs

  lemma StaffingPermuted(
    a: seq<AssignmentFact>, b: seq<AssignmentFact>, tenant: Uuid, day: int, knownAt: int)
    requires multiset(a) == multiset(b)
    ensures AssignmentsSingle(a) ==> AssignmentsSingle(b)
    ensures PortfoliosFit(a, tenant, day, knownAt) ==> PortfoliosFit(b, tenant, day, knownAt)
    ensures SeatsFit(a, tenant, day, knownAt) ==> SeatsFit(b, tenant, day, knownAt)
  {
    PermutationMembers(a, b);
    if AssignmentsSingle(a) {
      forall id ensures |Filter(b, KeyIs(AssignmentId(), id))| <= 1 {
        FilterPermutation(a, b, KeyIs(AssignmentId(), id));
        PermutationMembers(Filter(a, KeyIs(AssignmentId(), id)), Filter(b, KeyIs(AssignmentId(), id)));
      }
    }
    forall f | f in b
      ensures PortfolioOutcome(a, tenant, f.person, f.employment, day, knownAt)
           == PortfolioOutcome(b, tenant, f.person, f.employment, day, knownAt)
      ensures SeatOutcome(a, tenant, f.position, day, knownAt) == SeatOutcome(b, tenant, f.position, day, knownAt)
    {
      LoadPermutation(a, b, InPortfolio(tenant, f.person, f.employment), day, knownAt);
      LoadPermutation(a, b, OnPosition(tenant, f.position), day, knownAt);
    }
  }

  lemma BuildablePermuted(
    versions: seq<EmploymentVersion>, versions': seq<EmploymentVersion>,
    assignments: seq<AssignmentFact>, assignments': seq<AssignmentFact>, tenant: Uuid, day: int, knownAt: int)
    requires multiset(versions) == multiset(versions') && multiset(assignments) == multiset(assignments')
    requires Buildable(versions, assignments, tenant, day, knownAt)
    ensures Buildable(versions', assignments', tenant, day, knownAt)
  {
    PermutationMembers(versions, versions');
    forall employment ensures |Reconstruct(versions', EmploymentById(), tenant, employment, day, knownAt)| <= 1 {
      assert |Reconstruct(versions, EmploymentById(), tenant, employment, day, knownAt)| <= 1;
      var p := Matching(EmploymentById(), tenant, employment, day, knownAt);
      FilterPermutation(versions, versions', p);
      PermutationMembers(Filter(versions, p), Filter(versions', p));
    }
    var staffing := Staffing(assignments, tenant, day, knownAt);
    var staffing' := Staffing(assignments', tenant, day, knownAt);
    FilterPermutation(assignments, assignments', AssignmentHere(tenant, day, knownAt));
    PermutationMembers(staffing, staffing');
    StaffingPermuted(staffing, staffing', tenant, day, knownAt);
    forall f | f in staffing' ensures EmploymentCovers(f, versions', knownAt) {
      EmploymentCoversPermuted(f, versions, versions', knownAt);
    }
  }

  lemma SnapshotPermuted(
    versions: seq<EmploymentVersion>, versions': seq<EmploymentVersion>,
    assignments: seq<AssignmentFact>, assignments': seq<AssignmentFact>, tenant: Uuid, day: int, knownAt: int)
    requires multiset(versions) == multiset(versions') && multiset(assignments) == multiset(assignments')
    ensures SnapshotOf(versions, assignments, tenant, day, knownAt)
         == SnapshotOf(versions', assignments', tenant, day, knownAt)
  {
    PermutationMembers(versions, versions');
    assert Reportable(versions, tenant, day, knownAt) == Reportable(versions', tenant, day, knownAt);
    var staffing := Staffing(assignments, tenant, day, knownAt);
    var staffing' := Staffing(assignments', tenant, day, knownAt);
    FilterPermutation(assignments, assignments', AssignmentHere(tenant, day, knownAt));
    PermutationMembers(staffing, staffing');
    TotalPermutation(staffing, staffing');
    assert StaffedPeople(staffing) == StaffedPeople(staffing');
  }

  /** Permuting the employment list or the assignment list never changes whether the snapshot is built,
      nor any field of it. */
  lemma OrderDoesNotMatter(
    versions: seq<EmploymentVersion>, versions': seq<EmploymentVersion>,
    assignments: seq<AssignmentFact>, assignments': seq<AssignmentFact>, tenant: Uuid, day: int, knownAt: int)
    requires multiset(versions) == multiset(versions') && multiset(assignments) == multiset(assignments')
    ensures Buildable(versions, assignments, tenant, day, knownAt)
       <==> Buildable(versions', assignments', tenant, day, knownAt)
    ensures SnapshotOf(versions, assignments, tenant, day, knownAt)
         == SnapshotOf(versions', assignments', tenant, day, knownAt)
  {
    if Buildable(versions, assignments, tenant, day, knownAt) {
      BuildablePermuted(versions, versions', assignments, assignments', tenant, day, knownAt);
    }
    if Buildable(versions', assignments', tenant, day, knownAt) {
      BuildablePermuted(versions', versions, assignments', assignments, tenant, day, knownAt);
    }
    SnapshotPermuted(versions, versions', assignments, assignments', tenant, day, knownAt);
  }
}
