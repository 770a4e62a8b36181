/** Exclusive versus concurrent employment of one person in one tenant. */
module Employment {
  import opened Prelude
  import opened Errors
  import opened Intervals
  import opened Facts

  const EXCLUSIVE := "exclusive"
  const CONCURRENT := "concurrent"

  predicate KnownConcurrency(code: string) {
    code == EXCLUSIVE || code == CONCURRENT
  }

  function OfPerson(tenant: Uuid, person: Uuid): EmploymentVersion -> bool {
    (v: EmploymentVersion) => v.tenant == tenant && v.person == person
  }

  function ExclusiveKnown(knownAt: int): EmploymentVersion -> bool {
    (v: EmploymentVersion) => v.recorded.Contains(knownAt) && v.concurrency == EXCLUSIVE
  }

  predicate ExclusivesCollide(a: EmploymentVersion, b: EmploymentVersion) {
    a.employment != b.employment && a.effective.Overlaps(b.effective)
  }

  function ValidatePersonEmploymentExclusivity(
    versions: seq<EmploymentVersion>, tenant: Uuid, person: Uuid, knownAt: int): Outcome
  {
    var scoped := Filter(versions, OfPerson(tenant, person));
    var visible := Filter(scoped, ExclusiveKnown(knownAt));
    if exists v :: v in scoped && !KnownConcurrency(v.concurrency) then
      Fail(UnknownConcurrencyCode)
    else if exists i, j :: 0 <= i < j < |visible| && ExclusivesCollide(visible[i], visible[j]) then
      Fail(ExclusiveEmploymentsOverlap)
    else
      Pass
  }

  ghost predicate ExclusiveOn(v: EmploymentVersion, tenant: Uuid, person: Uuid, day: int, knownAt: int) {
    && v.tenant == tenant && v.person == person && v.concurrency == EXCLUSIVE
    && v.effective.Contains(day) && v.recorded.Contains(knownAt)
  }

  /** On no day does the person hold two different exclusive employments, as known at one cutoff. */
  ghost predicate OneExclusiveEmployment(versions: seq<EmploymentVersion>, tenant: Uuid, person: Uuid, knownAt: int) {
    forall v, w, day ::
      v in versions && w in versions
      && ExclusiveOn(v, tenant, person, day, knownAt) && ExclusiveOn(w, tenant, person, day, knownAt)
      ==> v.employment == w.employment
  }

  ghost predicate ConcurrencyCodesKnown(versions: seq<EmploymentVersion>, tenant: Uuid, person: Uuid) {
    forall v :: v in versions && v.tenant == tenant && v.person == person ==> KnownConcurrency(v.concurrency)
  }

  /** The pairwise test is exact: it raises no overlap error exactly when no day shows two exclusive employments. */
  lemma ExclusivityMeaning(versions: seq<EmploymentVersion>, tenant: Uuid, person: Uuid, knownAt: int)
    ensures var outcome := ValidatePersonEmploymentExclusivity(versions, tenant, person, knownAt);
            && (outcome == Fail(UnknownConcurrencyCode) <==> !ConcurrencyCodesKnown(versions, tenant, person))
            && (outcome.Pass? <==> ConcurrencyCodesKnown(versions, tenant, person)
                                   && OneExclusiveEmployment(versions, tenant, person, knownAt))
  {
    var scoped := Filter(versions, OfPerson(tenant, person));
    var visible := Filter(scoped, ExclusiveKnown(knownAt));
    if i, j :| 0 <= i < j < |visible| && ExclusivesCollide(visible[i], visible[j]) {
      assert visible[i] in visible && visible[j] in visible;
      OverlapIsCommonPoint(visible[i].effective, visible[j].effective);
      var day :| visible[i].effective.Contains(day) && visible[j].effective.Contains(day);
      assert ExclusiveOn(visible[i], tenant, person, day, knownAt);
      assert ExclusiveOn(visible[j], tenant, person, day, knownAt);
    } else {
      forall v, w, day | v in versions && w in versions
        && ExclusiveOn(v, tenant, person, day, knownAt) && ExclusiveOn(w, tenant, person, day, knownAt)
        ensures v.employment == w.employment
      {
        assert v in visible && w in visible;
        var i :| 0 <= i < |visible| && visible[i] == v;
        var j :| 0 <= j < |visible| && visible[j] == w;
        OverlapIsCommonPoint(v.effective, w.effective);
        assert !ExclusivesCollide(v, w) || v == w;
        if i < j {
          assert !ExclusivesCollide(visible[i], visible[j]);
        } else if j < i {
          assert !ExclusivesCollide(visible[j], visible[i]);
        }
      }
    }
  }
}
