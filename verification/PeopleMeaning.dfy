/** What keys, digests, answers, decisions and inserts say, on the fields of the commands and of the rows. */
module PeopleMeaning {
  import opened Prelude
  import opened Intervals
  import opened Facts
  import opened Allocation
  import opened Assignment
  import opened Employment
  import opened KernelMeaning
  import opened People

  // ---------------------------------------------------------------- keys and digests

  /** Commands of one kind. */
  predicate SameKind(c: Command, d: Command) {
    || (c.CreateEmployment? && d.CreateEmployment?)
    || (c.CreatePosition? && d.CreatePosition?)
    || (c.CreateAssignment? && d.CreateAssignment?)
    || (c.AcceptHire? && d.AcceptHire?)
  }

  /** What the caller chose agrees, field by field. The identifiers that the adapter generates for a create are free;
      a hire names all its identifiers. */
  predicate SameRequestedFields(c: Command, d: Command)
    requires SameKind(c, d)
  {
    if c.CreateEmployment? then
      && c.person == d.person && c.status == d.status && c.concurrency == d.concurrency
      && c.effectiveFrom == d.effectiveFrom && c.confirmation == d.confirmation && c.evidence == d.evidence
    else if c.CreatePosition? then
      && c.unit == d.unit && c.jobProfile == d.jobProfile && c.status == d.status
      && c.effectiveFrom == d.effectiveFrom && c.confirmation == d.confirmation && c.evidence == d.evidence
    else if c.CreateAssignment? then
      && c.employment == d.employment && c.person == d.person && c.position == d.position && c.ratio == d.ratio
      && c.effectiveFrom == d.effectiveFrom && c.confirmation == d.confirmation && c.evidence == d.evidence
    else
      && c.candidate == d.candidate && c.decision == d.decision
      && c.person == d.person && c.personName == d.personName && c.displayName == d.displayName
      && c.employment == d.employment && c.version == d.version && c.status == d.status
      && c.conversion == d.conversion && c.auditEvent == d.auditEvent && c.outbox == d.outbox
      && c.effectiveFrom == d.effectiveFrom
  }

  /** The digest tells two requests apart exactly when the authority, the tenant, the kind or a chosen field differs. */
  lemma DigestInFull(c: Command, a: Authority, d: Command, b: Authority)
    ensures (Digest(c, a) == Digest(d, b) <==>
             && a.actor == b.actor && a.purpose == b.purpose
             && c.tenant == d.tenant && SameKind(c, d) && SameRequestedFields(c, d))
  {
  }

  lemma KeyInFull(c: Command, d: Command)
    ensures KeyOf(c) == KeyOf(d) <==> c.tenant == d.tenant && SameKind(c, d) && c.key == d.key
  {
  }

  // ---------------------------------------------------------------- answers

  ghost predicate EmploymentStored(
    db: Db, tenant: Uuid, employment: Uuid, person: Uuid, status: string, concurrency: string, from: int)
  {
    exists v :: v in db.employments && v.tenant == tenant && v.employment == employment && v.person == person
                && v.status == status && v.concurrency == concurrency && v.effective == Bounds(from, None)
  }

  ghost predicate PositionStored(db: Db, tenant: Uuid, position: Uuid, status: string, from: int) {
    exists v :: v in db.positions && v.tenant == tenant && v.position == position && v.status == status
                && v.effective == Bounds(from, None)
  }

  ghost predicate AssignmentStored(
    db: Db, tenant: Uuid, assignment: Uuid, employment: Uuid, person: Uuid, position: Uuid, ratio: real, from: int)
  {
    exists f :: f in db.assignments && f.tenant == tenant && f.assignment == assignment && f.employment == employment
                && f.person == person && f.position == position && f.ratio == ratio
                && f.effective == Bounds(from, None)
  }

  ghost predicate ConversionStored(
    db: Db, tenant: Uuid, conversion: Uuid, candidate: Uuid, person: Uuid, employment: Uuid)
  {
    exists k :: k in db.conversions && k.tenant == tenant && k.id == conversion && k.candidate == candidate
                && k.person == person && k.employment == employment
  }

  /** The answer names stored rows that carry what the command asked for. */
  ghost predicate AnswerBacked(db: Db, c: Command, answer: Answer) {
    match answer
    case EmploymentCreated(id) =>
      c.CreateEmployment?
      && EmploymentStored(db, c.tenant, id, c.person, c.status, c.concurrency, c.effectiveFrom)
    case PositionCreated(id) =>
      c.CreatePosition? && PositionStored(db, c.tenant, id, c.status, c.effectiveFrom)
    case AssignmentCreated(id) =>
      c.CreateAssignment?
      && AssignmentStored(db, c.tenant, id, c.employment, c.person, c.position, c.ratio, c.effectiveFrom)
    case Hired(person, employment, conversion) =>
      c.AcceptHire? && person == c.person && employment == c.employment && conversion == c.conversion
      && ConversionStored(db, c.tenant, conversion, c.candidate, person, employment)
      && EmploymentStored(db, c.tenant, employment, person, c.status, "exclusive", c.effectiveFrom)
      && person in db.persons && db.persons[person] == c.tenant
  }

  /** A key row was written by a command of that key, and its answer is backed. */
  ghost predicate WrittenBy(db: Db, key: KeyId, c: Command, a: Authority) {
    && KeyOf(c) == key && key in db.keys
    && db.keys[key].digest == Digest(c, a) && (c.AcceptHire? ==> db.keys[key].record == c.conversion)
    && AnswerBacked(db, c, AnswerWith(c, db.keys[key].record))
  }

  ghost predicate KeysBacked(db: Db) {
    forall key :: key in db.keys ==> exists c, a :: WrittenBy(db, key, c, a)
  }

  /** A retry with an equal payload is answered with rows that carry its own fields. */
  lemma ReplayIsBacked(db: Db, c: Command, a: Authority)
    requires KeysBacked(db) && KeyOf(c) in db.keys && db.keys[KeyOf(c)].digest == Digest(c, a)
    ensures AnswerBacked(db, c, AnswerWith(c, db.keys[KeyOf(c)].record))
  {
    var d, b :| WrittenBy(db, KeyOf(c), d, b);
    DigestInFull(c, a, d, b);
  }

  lemma CreateIsBacked(db: Db, c: Command, a: Authority, at: int)
    ensures AnswerBacked(Insert(c, a, at, db), c, AnswerWith(c, CreatedRecord(c)))
  {
    var after := Insert(c, a, at, db);
    match c
    case CreateEmployment(_, _, _, _, _, _, _, _, _, _, _) => assert ProposedEmployment(c, at) in after.employments;
    case CreatePosition(_, _, _, _, _, _, _, _, _, _, _) => assert ProposedPosition(c, at) in after.positions;
    case CreateAssignment(_, _, _, _, _, _, _, _, _, _, _) => assert ProposedAssignment(c, at) in after.assignments;
    case AcceptHire(_, _, _, _, _, _, _, _, _, _, _, _, _, _) =>
      assert ProposedEmployment(c, at) in after.employments;
      assert (Conversion(c.tenant, c.conversion, c.candidate, c.person, c.employment, From(at)) in after.conversions);
  }

  /** Rows are only added, so what was backed stays backed. */
  lemma BackedStays(db: Db, c: Command, a: Authority, at: int, d: Command, answer: Answer)
    requires IdentitiesFree(c, db) && AnswerBacked(db, d, answer)
    ensures AnswerBacked(Insert(c, a, at, db), d, answer)
  {
  }

  lemma CreateKeepsBacked(db: Db, c: Command, a: Authority, at: int)
    requires IdentitiesFree(c, db) && KeysBacked(db)
    ensures KeysBacked(Insert(c, a, at, db))
  {
    var after := Insert(c, a, at, db);
    forall key | key in after.keys ensures exists d, b :: WrittenBy(after, key, d, b) {
      if key == KeyOf(c) {
        CreateIsBacked(db, c, a, at);
        assert WrittenBy(after, key, c, a);
      } else {
        var d, b :| WrittenBy(db, key, d, b);
        BackedStays(db, c, a, at, d, AnswerWith(d, db.keys[key].record));
        assert WrittenBy(after, key, d, b);
      }
    }
  }

  // ---------------------------------------------------------------- the hiring decision

  ghost predicate IsDecisionOf(c: Command, d: DecisionRow)
    requires c.AcceptHire?
  {
    d.tenant == c.tenant && d.decision == c.decision && d.candidate == c.candidate
  }

  /** Exactly one place of the table holds the decision, and that row is a confirmed hire by the acting authority,
      taken no later than the given instant and no later than the first day of the employment. */
  ghost predicate IsDecided(c: Command, a: Authority, decisions: seq<DecisionRow>, instant: int)
    requires c.AcceptHire?
  {
    exists i :: 0 <= i < |decisions| && IsDecisionOf(c, decisions[i])
      && (forall j :: 0 <= j < |decisions| && IsDecisionOf(c, decisions[j]) ==> j == i)
      && decisions[i].code == "hire" && decisions[i].confirmed
      && decisions[i].actor == a.actor && decisions[i].purpose == a.purpose
      && decisions[i].decidedAt <= instant && decisions[i].decidedOn <= c.effectiveFrom
  }

  lemma DecisionInFull(c: Command, a: Authority, db: Db, instant: int)
    requires c.AcceptHire?
    ensures DecisionConfirmsHire(c, a, db, instant) <==> IsDecided(c, a, db.decisions, instant)
  {
    var p := DecisionFor(c.tenant, c.decision, c.candidate);
    OneMember(db.decisions, p);
    if DecisionConfirmsHire(c, a, db, instant) {
      var i := OnlyOne(db.decisions, p);
      FilterOnly(db.decisions, p, i);
      assert IsDecisionOf(c, db.decisions[i]);
      forall j | 0 <= j < |db.decisions| && IsDecisionOf(c, db.decisions[j]) ensures j == i {
        assert p(db.decisions[j]);
      }
    }
    if i :| 0 <= i < |db.decisions| && IsDecisionOf(c, db.decisions[i])
            && (forall j :: 0 <= j < |db.decisions| && IsDecisionOf(c, db.decisions[j]) ==> j == i)
            && db.decisions[i].code == "hire" && db.decisions[i].confirmed
            && db.decisions[i].actor == a.actor && db.decisions[i].purpose == a.purpose
            && db.decisions[i].decidedAt <= instant && db.decisions[i].decidedOn <= c.effectiveFrom
    {
      assert OnlyAt(db.decisions, p, i);
      FilterOnly(db.decisions, p, i);
    }
  }

  // ---------------------------------------------------------------- what an insert adds

  /** One audit event and one key row, and the rows of the command's kind at the ends of their tables; every other
      table is as it was. */
  lemma InsertInFull(c: Command, a: Authority, at: int, db: Db)
    ensures var after := Insert(c, a, at, db);
            && after.decisions == db.decisions && after.parents == db.parents
            && (!c.CreatePosition? ==> after.positions == db.positions)
            && (!c.CreateAssignment? ==> after.assignments == db.assignments)
            && (!c.AcceptHire? ==> after.conversions == db.conversions && after.persons == db.persons)
            && (c.CreatePosition? || c.CreateAssignment? ==> after.employments == db.employments)
    ensures var after := Insert(c, a, at, db);
            && |after.audits| == |db.audits| + 1 && after.audits[..|db.audits|] == db.audits
            && var e := after.audits[|db.audits|];
               && e.tenant == c.tenant && e.event == c.auditEvent && e.occurredAt == at
               && e.actor == a.actor && e.purpose == a.purpose
               && (c.CreateEmployment? ==> e.record == c.employment)
               && (c.CreatePosition? ==> e.record == c.position)
               && (c.CreateAssignment? ==> e.record == c.assignment)
               && (c.AcceptHire? ==> e.record == c.conversion)
    ensures var after := Insert(c, a, at, db);
            && after.keys.Keys == db.keys.Keys + {KeyOf(c)}
            && (forall key :: key in db.keys && key != KeyOf(c) ==> after.keys[key] == db.keys[key])
            && after.keys[KeyOf(c)].digest == Digest(c, a)
            && after.keys[KeyOf(c)].record == after.audits[|db.audits|].record
    ensures c.CreateEmployment? || c.AcceptHire? ==>
              var after := Insert(c, a, at, db);
              && |after.employments| == |db.employments| + 1
              && after.employments[..|db.employments|] == db.employments
              && var v := after.employments[|db.employments|];
                 && v.tenant == c.tenant && v.employment == c.employment && v.version == c.version
                 && v.person == c.person && v.status == c.status
                 && v.effective == Bounds(c.effectiveFrom, None) && v.recorded == Bounds(at, None)
                 && v.concurrency == if c.CreateEmployment? then c.concurrency else "exclusive"
    ensures c.CreatePosition? ==>
              var after := Insert(c, a, at, db);
              && |after.positions| == |db.positions| + 1 && after.positions[..|db.positions|] == db.positions
              && var v := after.positions[|db.positions|];
                 && v.tenant == c.tenant && v.position == c.position && v.version == c.version && v.status == c.status
                 && v.effective == Bounds(c.effectiveFrom, None) && v.recorded == Bounds(at, None)
    ensures c.CreateAssignment? ==>
              var after := Insert(c, a, at, db);
              && |after.assignments| == |db.assignments| + 1
              && after.assignments[..|db.assignments|] == db.assignments
              && var f := after.assignments[|db.assignments|];
                 && f.tenant == c.tenant && f.assignment == c.assignment && f.employment == c.employment
                 && f.person == c.person && f.position == c.position && f.ratio == c.ratio
                 && f.effective == Bounds(c.effectiveFrom, None) && f.recorded == Bounds(at, None)
    ensures c.AcceptHire? ==>
              var after := Insert(c, a, at, db);
              && |after.conversions| == |db.conversions| + 1
              && after.conversions[..|db.conversions|] == db.conversions
              && (var k := after.conversions[|db.conversions|];
                  && k.tenant == c.tenant && k.id == c.conversion && k.candidate == c.candidate
                  && k.person == c.person && k.employment == c.employment && k.recorded == Bounds(at, None))
              && after.persons == db.persons[c.person := c.tenant]
  {
  }

  /** No identifier occurs at two places of its table. */
  ghost predicate UniqueRows(db: Db) {
    && (forall i, j :: 0 <= i < j < |db.employments| ==>
          && db.employments[i].employment != db.employments[j].employment
          && db.employments[i].version != db.employments[j].version)
    && (forall i, j :: 0 <= i < j < |db.positions| ==>
          && db.positions[i].position != db.positions[j].position
          && db.positions[i].version != db.positions[j].version)
    && (forall i, j :: 0 <= i < j < |db.assignments| ==> db.assignments[i].assignment != db.assignments[j].assignment)
    && (forall i, j :: 0 <= i < j < |db.conversions| ==> db.conversions[i].id != db.conversions[j].id)
    && (forall i, j :: 0 <= i < j < |db.audits| ==> db.audits[i].event != db.audits[j].event)
  }

  /** The inserts of a command are refused exactly when one of its identifiers is taken: its key, its person when it
      hires, or one that would then occur twice. */
  lemma RefusedInFull(c: Command, a: Authority, at: int, db: Db)
    requires UniqueRows(db)
    ensures (IdentitiesFree(c, db) <==>
             && KeyOf(c) !in db.keys
             && (c.AcceptHire? ==> c.person !in db.persons)
             && UniqueRows(Insert(c, a, at, db)))
  {
    var after := Insert(c, a, at, db);
    if UniqueRows(after) {
      forall r | r in db.audits ensures r.event != c.auditEvent {
        var i :| 0 <= i < |db.audits| && db.audits[i] == r;
        assert after.audits[i] == r && after.audits[|db.audits|].event == c.auditEvent;
      }
      if c.CreateEmployment? || c.AcceptHire? {
        forall v | v in db.employments ensures v.employment != c.employment && v.version != c.version {
          var i :| 0 <= i < |db.employments| && db.employments[i] == v;
          assert after.employments[i] == v && after.employments[|db.employments|] == ProposedEmployment(c, at);
        }
      }
      if c.CreatePosition? {
        forall v | v in db.positions ensures v.position != c.position && v.version != c.version {
          var i :| 0 <= i < |db.positions| && db.positions[i] == v;
          assert after.positions[i] == v && after.positions[|db.positions|] == ProposedPosition(c, at);
        }
      }
      if c.CreateAssignment? {
        forall f | f in db.assignments ensures f.assignment != c.assignment {
          var i :| 0 <= i < |db.assignments| && db.assignments[i] == f;
          assert after.assignments[i] == f && after.assignments[|db.assignments|] == ProposedAssignment(c, at);
        }
      }
      if c.AcceptHire? {
        forall k | k in db.conversions ensures k.id != c.conversion {
          var i :| 0 <= i < |db.conversions| && db.conversions[i] == k;
          assert after.conversions[i] == k && after.conversions[|db.conversions|].id == c.conversion;
        }
      }
    }
  }

  // ---------------------------------------------------------------- when a command is accepted

  ghost predicate IsOpenConversion(k: Conversion, tenant: Uuid, person: Uuid) {
    k.tenant == tenant && k.person == person && k.recorded.end == None
  }

  /** Exactly one place of the table is an open conversion of the person. */
  ghost predicate HasOneOpenConversion(conversions: seq<Conversion>, tenant: Uuid, person: Uuid) {
    exists i :: 0 <= i < |conversions| && IsOpenConversion(conversions[i], tenant, person)
      && forall j :: 0 <= j < |conversions| && IsOpenConversion(conversions[j], tenant, person) ==> j == i
  }

  lemma OpenConversionInFull(conversions: seq<Conversion>, tenant: Uuid, person: Uuid)
    ensures (|Filter(conversions, OpenConversionOf(tenant, person))| == 1 <==>
             HasOneOpenConversion(conversions, tenant, person))
  {
    var p := OpenConversionOf(tenant, person);
    OneMember(conversions, p);
    if i: nat :| OnlyAt(conversions, p, i) {
      assert IsOpenConversion(conversions[i], tenant, person);
      forall j | 0 <= j < |conversions| && IsOpenConversion(conversions[j], tenant, person) ensures j == i {
        assert p(conversions[j]);
      }
    }
    if i :| 0 <= i < |conversions| && IsOpenConversion(conversions[i], tenant, person)
            && forall j :: 0 <= j < |conversions| && IsOpenConversion(conversions[j], tenant, person) ==> j == i
    {
      assert OnlyAt(conversions, p, i);
    }
  }

  /** The version that a new employment proposes. */
  ghost predicate IsEmploymentOf(v: EmploymentVersion, c: Command, at: int)
    requires c.CreateEmployment?
  {
    && v.tenant == c.tenant && v.employment == c.employment && v.version == c.version && v.person == c.person
    && v.status == c.status && v.concurrency == c.concurrency
    && v.effective == Bounds(c.effectiveFrom, None) && v.recorded == Bounds(at, None)
  }

  /** A new employment is accepted exactly when its person has one open conversion, everything recorded of the person
      is known by the instant, and the table with the new version has known codes and no two exclusive employments. */
  lemma EmploymentAcceptedInFull(c: Command, a: Authority, db: Db, at: int, v: EmploymentVersion)
    requires c.CreateEmployment? && IsEmploymentOf(v, c, at)
    ensures (ValidAgainst(c, a, db, at) <==>
             && HasOneOpenConversion(db.conversions, c.tenant, c.person)
             && (forall w :: w in db.employments && w.tenant == c.tenant && w.person == c.person
                             ==> w.recorded.start <= at)
             && !HasUnknownCode(db.employments + [v], c.tenant, c.person)
             && !HasTwoExclusives(db.employments + [v], c.tenant, c.person, at))
  {
    var rows := Filter(db.employments, OfPerson(c.tenant, c.person));
    assert v == ProposedEmployment(c, at);
    OpenConversionInFull(db.conversions, c.tenant, c.person);
    ExclusivityInFull(rows + [v], c.tenant, c.person, at);
    forall w: EmploymentVersion | w.tenant == c.tenant && w.person == c.person
      ensures w in rows + [v] <==> w in db.employments + [v] {}
    SamePersonRows(rows + [v], db.employments + [v], c.tenant, c.person, at);
  }

  lemma SamePersonRows(
    xs: seq<EmploymentVersion>, ys: seq<EmploymentVersion>, tenant: Uuid, person: Uuid, knownAt: int)
    requires forall w: EmploymentVersion :: w.tenant == tenant && w.person == person ==> (w in xs <==> w in ys)
    ensures HasUnknownCode(xs, tenant, person) <==> HasUnknownCode(ys, tenant, person)
    ensures HasTwoExclusives(xs, tenant, person, knownAt) <==> HasTwoExclusives(ys, tenant, person, knownAt)
  {
  }

  lemma PositionAcceptedInFull(c: Command, a: Authority, db: Db, at: int)
    requires c.CreatePosition?
    ensures ValidAgainst(c, a, db, at) <==> (c.tenant, c.unit, c.jobProfile) in db.parents
  {
  }

  lemma HireAcceptedInFull(c: Command, a: Authority, db: Db, at: int)
    requires c.AcceptHire?
    ensures ValidAgainst(c, a, db, at) <==> IsDecided(c, a, db.decisions, at)
  {
    DecisionInFull(c, a, db, at);
  }

  /** The fact that a new assignment proposes. */
  ghost predicate IsAssignmentOf(f: AssignmentFact, c: Command, at: int)
    requires c.CreateAssignment?
  {
    && f.tenant == c.tenant && f.assignment == c.assignment && f.employment == c.employment && f.person == c.person
    && f.position == c.position && f.ratio == c.ratio
    && f.effective == Bounds(c.effectiveFrom, None) && f.recorded == Bounds(at, None)
  }

  /** A new assignment is accepted exactly when its person has one open conversion, the rows of its employment and of
      its position are all known by the instant, and on every one of its days it is covered by its employment, its
      seat can be staffed, and the tables with the new row stay within one. */
  lemma AssignmentAcceptedInFull(c: Command, a: Authority, db: Db, at: int, f: AssignmentFact)
    requires c.CreateAssignment? && IsAssignmentOf(f, c, at)
    requires f.ratio > 0.0 && forall g :: g in db.assignments ==> g.ratio > 0.0
    ensures (ValidAgainst(c, a, db, at) <==>
             && HasOneOpenConversion(db.conversions, c.tenant, c.person)
             && (forall g :: g in db.assignments && g.tenant == c.tenant
                             && (g.employment == c.employment || g.position == c.position)
                             ==> g.recorded.start <= at)
             && CoveredInFull(f, db.employments, at)
             && SeatStaffable(f, db.positions, at)
             && !HasBadRatio(db.assignments + [f], c.tenant, c.person, c.employment)
             && forall day :: f.effective.Contains(day) ==> FitsOn(f, db.assignments + [f], day, at))
  {
    var rows := Filter(db.assignments, SharesEmploymentOrPosition(c.tenant, c.employment, c.position));
    var employments := Filter(db.employments, OfEmployment(c.tenant, c.employment));
    var positions := Filter(db.positions, OfPosition(c.tenant, c.position));
    assert f == ProposedAssignment(c, at);
    OpenConversionInFull(db.conversions, c.tenant, c.person);
    PositiveIsBalanced(f, rows + [f], at);
    WriteAcceptanceMeaning(f, rows + [f], employments, positions, at);
    WriteRulesInFull(f, rows + [f], employments, positions, at);
    CoverageReadsOwnEmployment(f, db.employments, at);
    SeatReadsOwnPosition(f, db.positions, at);
    LoadsReadConflicts(f, db.assignments, at);
  }

  lemma PositiveIsBalanced(f: AssignmentFact, facts: seq<AssignmentFact>, knownAt: int)
    requires forall g :: g in facts ==> g.ratio > 0.0
    ensures SeatBalanced(f, facts, knownAt)
  {
    forall day ensures SeatBalancedOn(f, facts, day, knownAt) {
      NonNegativeIsBalanced(facts, OnPosition(f.tenant, f.position), day, knownAt);
    }
  }

  /** Reading only the versions of the named employment changes no coverage. */
  lemma CoverageReadsOwnEmployment(f: AssignmentFact, versions: seq<EmploymentVersion>, at: int)
    ensures (CoveredInFull(f, Filter(versions, OfEmployment(f.tenant, f.employment)), at) <==>
             CoveredInFull(f, versions, at))
  {
    var own := Filter(versions, OfEmployment(f.tenant, f.employment));
    forall day ensures EligibleOn(f, own, day, at) == EligibleOn(f, versions, day, at) {
      var p := AtCoordinate(f.tenant, f.employment, day, at);
      FilterTwice(versions, OfEmployment(f.tenant, f.employment), p, p);
    }
    EmploymentCoverageInFull(f, own, at);
    EmploymentCoverageInFull(f, versions, at);
  }

  lemma SeatReadsOwnPosition(f: AssignmentFact, versions: seq<PositionVersion>, at: int)
    ensures (SeatStaffable(f, Filter(versions, OfPosition(f.tenant, f.position)), at) <==>
             SeatStaffable(f, versions, at))
  {
  }

  /** The rows that share the employment or the position hold all the load the checks look at. */
  lemma LoadsReadConflicts(f: AssignmentFact, table: seq<AssignmentFact>, at: int)
    ensures var rows := Filter(table, SharesEmploymentOrPosition(f.tenant, f.employment, f.position));
            && (HasBadRatio(rows + [f], f.tenant, f.person, f.employment) <==>
                HasBadRatio(table + [f], f.tenant, f.person, f.employment))
            && forall day :: FitsOn(f, rows + [f], day, at) <==> FitsOn(f, table + [f], day, at)
  {
    var rows := Filter(table, SharesEmploymentOrPosition(f.tenant, f.employment, f.position));
    forall g: AssignmentFact | g.tenant == f.tenant && g.employment == f.employment
      ensures g in rows + [f] <==> g in table + [f] {}
    forall day ensures FitsOn(f, rows + [f], day, at) <==> FitsOn(f, table + [f], day, at) {
      ScopeReadsConflicts(f, table, InPortfolio(f.tenant, f.person, f.employment), day, at);
      ScopeReadsConflicts(f, table, OnPosition(f.tenant, f.position), day, at);
      PortfolioLoadIs(rows + [f], f.tenant, f.person, f.employment, day, at);
      PortfolioLoadIs(table + [f], f.tenant, f.person, f.employment, day, at);
      SeatLoadIs(rows + [f], f.tenant, f.position, day, at);
      SeatLoadIs(table + [f], f.tenant, f.position, day, at);
    }
  }

  lemma ScopeReadsConflicts(f: AssignmentFact, table: seq<AssignmentFact>, scope: Scope, day: int, at: int)
    requires forall g :: scope(g) ==> SharesEmploymentOrPosition(f.tenant, f.employment, f.position)(g)
    ensures var rows := Filter(table, SharesEmploymentOrPosition(f.tenant, f.employment, f.position));
            Load(rows + [f], scope, day, at) == Load(table + [f], scope, day, at)
  {
    var wider := SharesEmploymentOrPosition(f.tenant, f.employment, f.position);
    var p := AtDay(scope, day, at);
    FilterAppend(Filter(table, wider), [f], p);
    FilterAppend(table, [f], p);
    FilterTwice(table, wider, p, p);
  }
}
