/** The adapter run on its own: the statements of one transaction in order, each changing the tables in place,
    with the rollback that restores them. */
module PeoplePort {
  import opened Prelude
  import opened Errors
  import opened Intervals
  import opened Facts
  import opened Assignment
  import opened Employment
  import opened People
  import opened PeopleMeaning
  import opened PeopleInvariant

  datatype PortError = NotFound | IntegrityError

  /** One command, run with nobody else present, is one atomic create, a replay, or nothing at all. */
  ghost predicate RanAtomically(
    c: Command, a: Authority, at: int, before: Db, after: Db, r: Result<Answer, PortError>)
  {
    var key := KeyOf(c);
    if key in before.keys then
      && after == before
      && (r.Ok? <==> before.keys[key].digest == Digest(c, a)
                     && (c.AcceptHire? ==> before.keys[key].record == CreatedRecord(c)))
      && (r.Ok? ==> r.value == AnswerWith(c, before.keys[key].record))
    else if IdentitiesFree(c, before) && ValidAgainst(c, a, before, at) then
      AtomicCreate(c, a, at, before, after) && r == Ok(AnswerWith(c, CreatedRecord(c)))
    else
      after == before && r.Err?
  }

  /** Whatever a port answers names stored rows that carry the command's own fields. */
  lemma AtomicallyBacked(
    c: Command, a: Authority, at: int, before: Db, after: Db, r: Result<Answer, PortError>)
    requires RanAtomically(c, a, at, before, after, r) && KeysBacked(before)
    ensures KeysBacked(after)
    ensures r.Ok? ==> AnswerBacked(after, c, r.value)
  {
    if KeyOf(c) in before.keys {
      if r.Ok? {
        ReplayIsBacked(before, c, a);
      }
    } else if r.Ok? {
      CreateKeepsBacked(before, c, a, at);
      CreateIsBacked(before, c, a, at);
    }
  }

  class PostgresPeoplePort {
    var db: Db
    var clock: int

    ghost predicate Valid()
      reads this
    {
      RecordedBy(db, clock)
    }

    constructor (db: Db, clock: int)
      requires RecordedBy(db, clock)
      ensures Valid() && this.db == db && this.clock == clock
    {
      this.db := db;
      this.clock := clock;
    }

    /** `clock_timestamp()`: time passes by an unknown amount. */
    method ReadClock() returns (now: int)
      modifies this`clock
      ensures now == clock && old(clock) <= clock
    {
      now :| clock <= now;
      clock := now;
    }

    method ReadReplay(c: Command, a: Authority) returns (r: Result<Option<Answer>, PortError>)
      ensures r == Ok(None) <==> KeyOf(c) !in db.keys
      ensures r.Err? <==> KeyOf(c) in db.keys
                          && !(db.keys[KeyOf(c)].digest == Digest(c, a)
                               && (c.AcceptHire? ==> db.keys[KeyOf(c)].record == CreatedRecord(c)))
      ensures r.Ok? && r.value.Some? ==> r.value.value == AnswerWith(c, db.keys[KeyOf(c)].record)
    {
      if KeyOf(c) !in db.keys {
        return Ok(None);
      }
      var row := db.keys[KeyOf(c)];
      if row.digest != Digest(c, a) {
        return Err(IntegrityError);
      }
      if c.AcceptHire? && row.record != CreatedRecord(c) {
        return Err(IntegrityError);
      }
      return Ok(Some(AnswerWith(c, row.record)));
    }

    method InsertEmployment(v: EmploymentVersion) returns (inserted: bool)
      modifies this`db
      ensures inserted <==>
                forall w :: w in old(db).employments ==> w.employment != v.employment && w.version != v.version
      ensures db == if inserted then old(db).(employments := old(db).employments + [v]) else old(db)
    {
      if exists w :: w in db.employments && (w.employment == v.employment || w.version == v.version) {
        return false;
      }
      db := db.(employments := db.employments + [v]);
      return true;
    }

    method InsertPosition(v: PositionVersion) returns (inserted: bool)
      modifies this`db
      ensures inserted <==> forall w :: w in old(db).positions ==> w.position != v.position && w.version != v.version
      ensures db == if inserted then old(db).(positions := old(db).positions + [v]) else old(db)
    {
      if exists w :: w in db.positions && (w.position == v.position || w.version == v.version) {
        return false;
      }
      db := db.(positions := db.positions + [v]);
      return true;
    }

    method InsertAssignment(f: AssignmentFact) returns (inserted: bool)
      modifies this`db
      ensures inserted <==> forall g :: g in old(db).assignments ==> g.assignment != f.assignment
      ensures db == if inserted then old(db).(assignments := old(db).assignments + [f]) else old(db)
    {
      if exists g :: g in db.assignments && g.assignment == f.assignment {
        return false;
      }
      db := db.(assignments := db.assignments + [f]);
      return true;
    }

    method InsertPerson(tenant: Uuid, person: Uuid) returns (inserted: bool)
      modifies this`db
      ensures inserted <==> person !in old(db).persons
      ensures db == if inserted then old(db).(persons := old(db).persons[person := tenant]) else old(db)
    {
      if person in db.persons {
        return false;
      }
      db := db.(persons := db.persons[person := tenant]);
      return true;
    }

    method InsertConversion(k: Conversion) returns (inserted: bool)
      modifies this`db
      ensures inserted <==> forall l :: l in old(db).conversions ==> l.id != k.id
      ensures db == if inserted then old(db).(conversions := old(db).conversions + [k]) else old(db)
    {
      if exists l :: l in db.conversions && l.id == k.id {
        return false;
      }
      db := db.(conversions := db.conversions + [k]);
      return true;
    }

    /** The audit event and then the idempotency row. */
    method RecordEvidence(c: Command, a: Authority, at: int) returns (inserted: bool)
      requires KeyOf(c) !in db.keys
      modifies this`db
      ensures inserted <==> forall r :: r in old(db).audits ==> r.event != c.auditEvent
      ensures inserted ==> db == old(db).(audits := old(db).audits + [AuditOf(c, a, at)],
                                          keys := old(db).keys[KeyOf(c) := KeyRow(CreatedRecord(c), Digest(c, a))])
      ensures !inserted ==> db == old(db)
    {
      if exists r :: r in db.audits && r.event == c.auditEvent {
        return false;
      }
      db := db.(audits := db.audits + [AuditOf(c, a, at)]);
      db := db.(keys := db.keys[KeyOf(c) := KeyRow(CreatedRecord(c), Digest(c, a))]);
      return true;
    }

    /** The assignment row and its evidence; the first insert that is refused rolls the transaction back. */
    method StoreAssignment(c: Command, a: Authority, at: int) returns (stored: bool)
      requires c.CreateAssignment? && KeyOf(c) !in db.keys
      modifies this`db
      ensures stored <==> IdentitiesFree(c, old(db))
      ensures db == if stored then Insert(c, a, at, old(db)) else old(db)
    {
      var before := db;
      stored := InsertAssignment(ProposedAssignment(c, at));
      if stored {
        stored := RecordEvidence(c, a, at);
      }
      if !stored {
        db := before;
      }
    }

    /** The same for an employment. */
    method StoreEmployment(c: Command, a: Authority, at: int) returns (stored: bool)
      requires c.CreateEmployment? && KeyOf(c) !in db.keys
      modifies this`db
      ensures stored <==> IdentitiesFree(c, old(db))
      ensures db == if stored then Insert(c, a, at, old(db)) else old(db)
    {
      var before := db;
      stored := InsertEmployment(ProposedEmployment(c, at));
      if stored {
        stored := RecordEvidence(c, a, at);
      }
      if !stored {
        db := before;
      }
    }

    method CreateEmployment(c: Command, a: Authority) returns (r: Result<Answer, PortError>, ghost at: int)
      requires Valid() && Constructible(c) && c.CreateEmployment?
      modifies this
      ensures Valid() && old(clock) <= at <= clock
      ensures RanAtomically(c, a, at, old(db), db, r)
    {
      at := clock;
      var replayed := ReadReplay(c, a);
      if replayed.Err? {
        return Err(replayed.error), at;
      }
      if replayed.value.Some? {
        return Ok(replayed.value.value), at;
      }
      var conversions := Filter(db.conversions, OpenConversionOf(c.tenant, c.person));
      if |conversions| != 1 {
        return Err(IntegrityError), at;
      }
      var recordedAt := ReadClock();
      at := recordedAt;
      var existing := Filter(db.employments, OfPerson(c.tenant, c.person));
      var proposed := ProposedEmployment(c, recordedAt);
      var verdict := ValidatePersonEmploymentExclusivity(existing + [proposed], c.tenant, c.person, recordedAt);
      if verdict.Fail? {
        return Err(IntegrityError), at;
      }
      var stored := StoreEmployment(c, a, recordedAt);
      if !stored {
        return Err(IntegrityError), at;
      }
      return Ok(AnswerWith(c, c.employment)), at;
    }

    method CreatePosition(c: Command, a: Authority) returns (r: Result<Answer, PortError>, ghost at: int)
      requires Valid() && Constructible(c) && c.CreatePosition?
      modifies this
      ensures Valid() && at == clock == old(clock)
      ensures RanAtomically(c, a, at, old(db), db, r)
    {
      at := clock;
      var before := db;
      var startedAt := clock;
      var replayed := ReadReplay(c, a);
      if replayed.Err? {
        return Err(replayed.error), at;
      }
      if replayed.value.Some? {
        return Ok(replayed.value.value), at;
      }
      if !ParentsExist(c, db) {
        return Err(NotFound), at;
      }
      var stored := InsertPosition(ProposedPosition(c, startedAt));
      if stored {
        stored := RecordEvidence(c, a, startedAt);
      }
      if !stored {
        db := before;
        return Err(IntegrityError), at;
      }
      return Ok(AnswerWith(c, c.position)), at;
    }

    /** The reads of an assignment and the kernel check: whether the whole validation succeeds at the clock read. */
    method CheckAssignment(c: Command, ghost a: Authority) returns (accepted: bool, at: int)
      requires Valid() && c.CreateAssignment?
      modifies this`clock
      ensures Valid() && old(clock) <= at <= clock
      ensures accepted <==> ValidAgainst(c, a, db, at)
    {
      var conversions := Filter(db.conversions, OpenConversionOf(c.tenant, c.person));
      if |conversions| != 1 {
        return false, clock;
      }
      var employments := Filter(db.employments, OfEmployment(c.tenant, c.employment));
      var positions := Filter(db.positions, OfPosition(c.tenant, c.position));
      at := ReadClock();
      var existing := Filter(db.assignments, SharesEmploymentOrPosition(c.tenant, c.employment, c.position));
      var proposed := ProposedAssignment(c, at);
      var verdict := ValidateAssignmentWrite(proposed, existing + [proposed], employments, positions, at);
      SerialVerdict(c, a, db, at, verdict);
      accepted := verdict.Pass?;
    }

    method CreateAssignment(c: Command, a: Authority) returns (r: Result<Answer, PortError>, ghost at: int)
      requires Valid() && Constructible(c) && c.CreateAssignment?
      modifies this
      ensures Valid() && old(clock) <= at <= clock
      ensures RanAtomically(c, a, at, old(db), db, r)
    {
      at := clock;
      var replayed := ReadReplay(c, a);
      if replayed.Err? {
        return Err(replayed.error), at;
      }
      if replayed.value.Some? {
        return Ok(replayed.value.value), at;
      }
      var accepted, recordedAt := CheckAssignment(c, a);
      at := recordedAt;
      if !accepted {
        return Err(IntegrityError), at;
      }
      var stored := StoreAssignment(c, a, recordedAt);
      if !stored {
        return Err(IntegrityError), at;
      }
      return Ok(AnswerWith(c, c.assignment)), at;
    }

    method AcceptHire(c: Command, a: Authority) returns (r: Result<Answer, PortError>, ghost at: int)
      requires Valid() && Constructible(c) && c.AcceptHire?
      modifies this
      ensures Valid() && at == clock == old(clock)
      ensures RanAtomically(c, a, at, old(db), db, r)
    {
      at := clock;
      var before := db;
      var startedAt := clock;
      var replayed := ReadReplay(c, a);
      if replayed.Err? {
        return Err(replayed.error), at;
      }
      if replayed.value.Some? {
        return Ok(replayed.value.value), at;
      }
      var rows := Filter(db.decisions, DecisionFor(c.tenant, c.decision, c.candidate));
      if rows == [] {
        return Err(NotFound), at;
      }
      if !DecisionConfirmsHire(c, a, db, startedAt) {
        return Err(IntegrityError), at;
      }
      var stored := InsertPerson(c.tenant, c.person);
      if stored {
        stored := InsertEmployment(ProposedEmployment(c, startedAt));
      }
      if stored {
        stored := InsertConversion(
          Conversion(c.tenant, c.conversion, c.candidate, c.person, c.employment, From(startedAt)));
      }
      if stored {
        stored := RecordEvidence(c, a, startedAt);
      }
      if !stored {
        db := before;
        return Err(IntegrityError), at;
      }
      return Ok(AnswerWith(c, c.conversion)), at;
    }
  }

  /** Run alone, the verdict on the rows in hand is the validity of the command against the tables. */
  lemma SerialVerdict(c: Command, a: Authority, db: Db, at: int, verdict: Outcome)
    requires c.CreateAssignment? && RecordedBy(db, at)
    requires |Filter(db.conversions, OpenConversionOf(c.tenant, c.person))| == 1
    requires var f := ProposedAssignment(c, at);
             var rows := Filter(db.assignments, SharesEmploymentOrPosition(c.tenant, c.employment, c.position));
             WriteOutcomeIs(verdict, f, rows + [f],
                            Filter(db.employments, OfEmployment(c.tenant, c.employment)),
                            Filter(db.positions, OfPosition(c.tenant, c.position)), at)
    ensures verdict.Pass? <==> ValidAgainst(c, a, db, at)
  {
    var f := ProposedAssignment(c, at);
    var rows := Filter(db.assignments, SharesEmploymentOrPosition(c.tenant, c.employment, c.position));
    if verdict.Fail? {
      WriteOutcomeUnique(verdict, f, rows + [f],
                         Filter(db.employments, OfEmployment(c.tenant, c.employment)),
                         Filter(db.positions, OfPosition(c.tenant, c.position)), at);
    }
  }

  /** The assignment check has one verdict. */
  lemma WriteOutcomeUnique(
    verdict: Outcome, f: AssignmentFact, facts: seq<AssignmentFact>,
    employments: seq<EmploymentVersion>, positions: seq<PositionVersion>, knownAt: int)
    requires verdict.Fail? && WriteOutcomeIs(verdict, f, facts, employments, positions, knownAt)
    ensures !WriteOutcomeIs(Pass, f, facts, employments, positions, knownAt)
  {
  }
}
