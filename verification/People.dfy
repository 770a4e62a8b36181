/** Commands, digests and tables of the People mutation port, and the effect of one accepted command. */
module People {
  import opened Prelude
  import opened Errors
  import opened Intervals
  import opened Facts
  import opened Allocation
  import opened Assignment
  import opened Employment

  // ---------------------------------------------------------------- commands

  datatype Command =
    | CreateEmployment(
        tenant: Uuid, person: Uuid, employment: Uuid, version: Uuid, auditEvent: Uuid,
        status: string, concurrency: string, effectiveFrom: int,
        confirmation: string, evidence: string, key: string)
    | CreatePosition(
        tenant: Uuid, unit: Uuid, jobProfile: Uuid, position: Uuid, version: Uuid, auditEvent: Uuid,
        status: string, effectiveFrom: int,
        confirmation: string, evidence: string, key: string)
    | CreateAssignment(
        tenant: Uuid, employment: Uuid, person: Uuid, position: Uuid, assignment: Uuid, auditEvent: Uuid,
        ratio: real, effectiveFrom: int,
        confirmation: string, evidence: string, key: string)
    | AcceptHire(
        tenant: Uuid, candidate: Uuid, decision: Uuid, person: Uuid, personName: Uuid, employment: Uuid, version: Uuid,
        conversion: Uuid, auditEvent: Uuid, outbox: Uuid,
        effectiveFrom: int, displayName: string, status: string, key: string)

  /** The checks of the command constructors that later steps rely on. */
  predicate Constructible(c: Command) {
    match c
    case CreateEmployment(_, _, _, _, _, status, concurrency, _, _, _, _) =>
      status in ["active", "leave", "terminated"] && KnownConcurrency(concurrency)
    case CreatePosition(_, _, _, _, _, _, status, _, _, _, _) =>
      status in ["active", "open", "closed", "frozen", "abolished"]
    case CreateAssignment(_, _, _, _, _, _, ratio, _, _, _, _) => RatioIsValid(ratio)
    case AcceptHire(_, _, _, _, _, _, _, _, _, _, _, _, _, _) => true
  }

  datatype Authority = Authority(actor: string, purpose: string)

  datatype Route = EmploymentRoute | PositionRoute | AssignmentRoute | HireRoute

  function RouteOf(c: Command): Route {
    match c
    case CreateEmployment(_, _, _, _, _, _, _, _, _, _, _) => EmploymentRoute
    case CreatePosition(_, _, _, _, _, _, _, _, _, _, _) => PositionRoute
    case CreateAssignment(_, _, _, _, _, _, _, _, _, _, _) => AssignmentRoute
    case AcceptHire(_, _, _, _, _, _, _, _, _, _, _, _, _, _) => HireRoute
  }

  datatype KeyId = KeyId(tenant: Uuid, route: Route, key: string)

  function KeyOf(c: Command): KeyId {
    KeyId(c.tenant, RouteOf(c), c.key)
  }

  /** The semantic fields of a command. Generated identifiers are left out, except for a hire,
      whose identifiers are all supplied by the caller. */
  datatype Semantics =
    | EmploymentSemantics(
        confirmation: string, effectiveFrom: int, concurrency: string, status: string, evidence: string, person: Uuid)
    | PositionSemantics(
        confirmation: string, effectiveFrom: int, evidence: string, jobProfile: Uuid, unit: Uuid, status: string)
    | AssignmentSemantics(
        ratio: real, confirmation: string, effectiveFrom: int, employment: Uuid, evidence: string, person: Uuid,
        position: Uuid)
    | HireSemantics(
        auditEvent: Uuid, candidate: Uuid, conversion: Uuid, displayName: string, effectiveFrom: int, employment: Uuid,
        version: Uuid, status: string, outbox: Uuid, personName: Uuid, person: Uuid, decision: Uuid)

  /** The digested payload; the digest is the payload itself. */
  datatype Payload = Payload(actor: string, purpose: string, route: Route, tenant: Uuid, semantics: Semantics)

  function Digest(c: Command, a: Authority): Payload {
    Payload(a.actor, a.purpose, RouteOf(c), c.tenant,
            match c
            case CreateEmployment(_, person, _, _, _, status, concurrency, from, confirmation, evidence, _) =>
              EmploymentSemantics(confirmation, from, concurrency, status, evidence, person)
            case CreatePosition(_, unit, job, _, _, _, status, from, confirmation, evidence, _) =>
              PositionSemantics(confirmation, from, evidence, job, unit, status)
            case CreateAssignment(_, employment, person, position, _, _, ratio, from, confirmation, evidence, _) =>
              AssignmentSemantics(ratio, confirmation, from, employment, evidence, person, position)
            case AcceptHire(_, _, _, _, _, _, _, _, _, _, _, _, _, _) =>
              HireSemantics(c.auditEvent, c.candidate, c.conversion, c.displayName, c.effectiveFrom, c.employment,
                            c.version, c.status, c.outbox, c.personName, c.person, c.decision))
  }

  datatype Answer =
    | EmploymentCreated(employment: Uuid)
    | PositionCreated(position: Uuid)
    | AssignmentCreated(assignment: Uuid)
    | Hired(person: Uuid, employment: Uuid, conversion: Uuid)

  /** The identity stored on the idempotency row. */
  function CreatedRecord(c: Command): Uuid {
    match c
    case CreateEmployment(_, _, employment, _, _, _, _, _, _, _, _) => employment
    case CreatePosition(_, _, _, position, _, _, _, _, _, _, _) => position
    case CreateAssignment(_, _, _, _, assignment, _, _, _, _, _, _) => assignment
    case AcceptHire(_, _, _, _, _, _, _, conversion, _, _, _, _, _, _) => conversion
  }

  /** The answer built from a stored identity; a hire fills the rest from its own command. */
  function AnswerWith(c: Command, record: Uuid): Answer {
    match c
    case CreateEmployment(_, _, _, _, _, _, _, _, _, _, _) => EmploymentCreated(record)
    case CreatePosition(_, _, _, _, _, _, _, _, _, _, _) => PositionCreated(record)
    case CreateAssignment(_, _, _, _, _, _, _, _, _, _, _) => AssignmentCreated(record)
    case AcceptHire(_, _, _, person, _, employment, _, _, _, _, _, _, _, _) => Hired(person, employment, record)
  }

  /** Equal payloads name the same command up to generated identifiers, so they get equal answers from one row. */
  lemma EqualPayloadsAnswerAlike(c: Command, a: Authority, d: Command, b: Authority, record: Uuid)
    requires Digest(c, a) == Digest(d, b)
    ensures AnswerWith(c, record) == AnswerWith(d, record)
    ensures c.AcceptHire? ==> CreatedRecord(c) == CreatedRecord(d)
  {
  }

  // ---------------------------------------------------------------- tables

  datatype Conversion = Conversion(
    tenant: Uuid, id: Uuid, candidate: Uuid, person: Uuid, employment: Uuid, recorded: Interval)

  datatype AuditRow = AuditRow(tenant: Uuid, event: Uuid, record: Uuid, actor: string, purpose: string, occurredAt: int)

  datatype KeyRow = KeyRow(record: Uuid, digest: Payload)

  datatype DecisionRow = DecisionRow(
    tenant: Uuid, decision: Uuid, candidate: Uuid, actor: string, purpose: string, code: string,
    confirmed: bool, decidedAt: int, decidedOn: int)

  /** The committed rows. `employments` joins each employment record with its version, `positions` likewise;
      decisions and position parents are written by no command. */
  datatype Db = Db(
    persons: map<Uuid, Uuid>,
    conversions: seq<Conversion>,
    employments: seq<EmploymentVersion>,
    positions: seq<PositionVersion>,
    assignments: seq<AssignmentFact>,
    audits: seq<AuditRow>,
    keys: map<KeyId, KeyRow>,
    decisions: seq<DecisionRow>,
    parents: set<(Uuid, Uuid, Uuid)>)

  function OpenConversionOf(tenant: Uuid, person: Uuid): Conversion -> bool {
    (c: Conversion) => c.tenant == tenant && c.person == person && c.recorded.end.None?
  }

  function SharesEmploymentOrPosition(tenant: Uuid, employment: Uuid, position: Uuid): Scope {
    (f: AssignmentFact) => f.tenant == tenant && (f.employment == employment || f.position == position)
  }

  function DecisionFor(tenant: Uuid, decision: Uuid, candidate: Uuid): DecisionRow -> bool {
    (d: DecisionRow) => d.tenant == tenant && d.decision == decision && d.candidate == candidate
  }

  function ProposedEmployment(c: Command, recordedAt: int): EmploymentVersion
    requires c.CreateEmployment? || c.AcceptHire?
  {
    EmploymentVersion(c.tenant, c.employment, c.version, c.person, c.status, From(c.effectiveFrom), From(recordedAt),
                      if c.CreateEmployment? then c.concurrency else EXCLUSIVE)
  }

  function ProposedPosition(c: Command, recordedAt: int): PositionVersion
    requires c.CreatePosition?
  {
    PositionVersion(c.tenant, c.position, c.version, c.status, From(c.effectiveFrom), From(recordedAt))
  }

  function ProposedAssignment(c: Command, recordedAt: int): AssignmentFact
    requires c.CreateAssignment?
  {
    AssignmentFact(c.tenant, c.assignment, c.employment, c.person, c.position, c.ratio,
                   From(c.effectiveFrom), From(recordedAt))
  }

  function AuditOf(c: Command, a: Authority, recordedAt: int): AuditRow {
    AuditRow(c.tenant, c.auditEvent, CreatedRecord(c), a.actor, a.purpose, recordedAt)
  }

  // ---------------------------------------------------------------- the checks of one command

  ghost predicate EmploymentAccepted(c: Command, rows: seq<EmploymentVersion>, recordedAt: int)
    requires c.CreateEmployment?
  {
    var proposed := ProposedEmployment(c, recordedAt);
    ValidatePersonEmploymentExclusivity(rows + [proposed], c.tenant, c.person, recordedAt).Pass?
  }

  ghost predicate AssignmentAccepted(
    c: Command, employments: seq<EmploymentVersion>, positions: seq<PositionVersion>, assignments: seq<AssignmentFact>,
    recordedAt: int)
    requires c.CreateAssignment?
  {
    var proposed := ProposedAssignment(c, recordedAt);
    WriteOutcomeIs(Pass, proposed, assignments + [proposed], employments, positions, recordedAt)
  }

  predicate ParentsExist(c: Command, db: Db)
    requires c.CreatePosition?
  {
    (c.tenant, c.unit, c.jobProfile) in db.parents
  }

  predicate DecisionConfirmsHire(c: Command, a: Authority, db: Db, startedAt: int)
    requires c.AcceptHire?
  {
    var rows := Filter(db.decisions, DecisionFor(c.tenant, c.decision, c.candidate));
    && |rows| == 1
    && rows[0].code == "hire"
    && rows[0].actor == a.actor
    && rows[0].purpose == a.purpose
    && rows[0].confirmed
    && rows[0].decidedAt <= startedAt
    && rows[0].decidedOn <= c.effectiveFrom
  }

  /** Primary keys: what the inserts of the command must not find. */
  predicate IdentitiesFree(c: Command, db: Db) {
    && KeyOf(c) !in db.keys
    && (forall r :: r in db.audits ==> r.event != c.auditEvent)
    && match c
       case CreateEmployment(_, _, employment, version, _, _, _, _, _, _, _) =>
         forall v :: v in db.employments ==> v.employment != employment && v.version != version
       case CreatePosition(_, _, _, position, version, _, _, _, _, _, _) =>
         forall v :: v in db.positions ==> v.position != position && v.version != version
       case CreateAssignment(_, _, _, _, assignment, _, _, _, _, _, _) =>
         forall f :: f in db.assignments ==> f.assignment != assignment
       case AcceptHire(_, _, _, person, _, employment, version, conversion, _, _, _, _, _, _) =>
         && person !in db.persons
         && (forall v :: v in db.employments ==> v.employment != employment && v.version != version)
         && (forall k :: k in db.conversions ==> k.id != conversion)
  }

  /** All the rows one accepted command inserts. */
  function Insert(c: Command, a: Authority, recordedAt: int, db: Db): Db {
    var base := db.(audits := db.audits + [AuditOf(c, a, recordedAt)],
                    keys := db.keys[KeyOf(c) := KeyRow(CreatedRecord(c), Digest(c, a))]);
    match c
    case CreateEmployment(_, _, _, _, _, _, _, _, _, _, _) =>
      base.(employments := db.employments + [ProposedEmployment(c, recordedAt)])
    case CreatePosition(_, _, _, _, _, _, _, _, _, _, _) =>
      base.(positions := db.positions + [ProposedPosition(c, recordedAt)])
    case CreateAssignment(_, _, _, _, _, _, _, _, _, _, _) =>
      base.(assignments := db.assignments + [ProposedAssignment(c, recordedAt)])
    case AcceptHire(tenant, candidate, _, person, _, employment, _, conversion, _, _, _, _, _, _) =>
      base.(persons := db.persons[person := tenant],
            employments := db.employments + [ProposedEmployment(c, recordedAt)],
            conversions := db.conversions
              + [Conversion(tenant, conversion, candidate, person, employment, From(recordedAt))])
  }

  // ---------------------------------------------------------------- the atomic system

  /** The command passes its whole validation, in one instant, against the committed tables, and everything
      the validation reads was recorded no later than the command's own instant. */
  ghost predicate ValidAgainst(c: Command, a: Authority, db: Db, recordedAt: int) {
    match c
    case CreateEmployment(tenant, person, _, _, _, _, _, _, _, _, _) =>
      var rows := Filter(db.employments, OfPerson(tenant, person));
      && |Filter(db.conversions, OpenConversionOf(tenant, person))| == 1
      && (forall v :: v in rows ==> v.recorded.start <= recordedAt)
      && EmploymentAccepted(c, rows, recordedAt)
    case CreatePosition(_, _, _, _, _, _, _, _, _, _, _) => ParentsExist(c, db)
    case CreateAssignment(tenant, employment, person, position, _, _, _, _, _, _, _) =>
      var rows := Filter(db.assignments, SharesEmploymentOrPosition(tenant, employment, position));
      && |Filter(db.conversions, OpenConversionOf(tenant, person))| == 1
      && (forall f :: f in rows ==> f.recorded.start <= recordedAt)
      && AssignmentAccepted(c, Filter(db.employments, OfEmployment(tenant, employment)),
                            Filter(db.positions, OfPosition(tenant, position)), rows, recordedAt)
    case AcceptHire(_, _, _, _, _, _, _, _, _, _, _, _, _, _) => DecisionConfirmsHire(c, a, db, recordedAt)
  }

  /** One atomic create: validate against the tables and insert, indivisibly. */
  ghost predicate AtomicCreate(c: Command, a: Authority, recordedAt: int, db: Db, db': Db) {
    && Constructible(c)
    && IdentitiesFree(c, db)
    && ValidAgainst(c, a, db, recordedAt)
    && db' == Insert(c, a, recordedAt, db)
  }
}
