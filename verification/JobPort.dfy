/** Persisting and loading job-analysis snapshots, one transaction at a time. */
module JobPort {
  import opened Prelude
  import opened Facts
  import opened Sorting
  import opened JobAnalysis
  import opened JobDocument
  import opened JobStore

  // ---------------------------------------------------------------- reading

  function HeaderAt(tenant: Uuid, analysis: Uuid): HeaderRow -> bool {
    (r: HeaderRow) => r.tenant == tenant && r.analysis == analysis
  }

  function TaskAt(tenant: Uuid, analysis: Uuid): TaskRow -> bool {
    (r: TaskRow) => r.tenant == tenant && r.analysis == analysis
  }

  function KsaoAt(tenant: Uuid, analysis: Uuid): KsaoRow -> bool {
    (r: KsaoRow) => r.tenant == tenant && r.analysis == analysis
  }

  function LinkAt(tenant: Uuid, analysis: Uuid): LinkRow -> bool {
    (r: LinkRow) => r.tenant == tenant && r.analysis == analysis
  }

  function CommandAt(tenant: Uuid, key: string): CommandRow -> bool {
    (c: CommandRow) => c.tenant == tenant && c.key == key
  }

  /** `ORDER BY` the row identifiers. */
  function TaskRowKey(): TaskRow -> Key {
    (r: TaskRow) => Key(r.task, 0)
  }

  function KsaoRowKey(): KsaoRow -> Key {
    (r: KsaoRow) => Key(r.ksao, 0)
  }

  function LinkRowKey(): LinkRow -> Key {
    (r: LinkRow) => Key(r.task, r.ksao)
  }

  function TaskRowsAt(db: Tables, tenant: Uuid, analysis: Uuid): seq<TaskRow> {
    Sort(Filter(db.tasks, TaskAt(tenant, analysis)), TaskRowKey())
  }

  function KsaoRowsAt(db: Tables, tenant: Uuid, analysis: Uuid): seq<KsaoRow> {
    Sort(Filter(db.ksaos, KsaoAt(tenant, analysis)), KsaoRowKey())
  }

  function LinkRowsAt(db: Tables, tenant: Uuid, analysis: Uuid): seq<LinkRow> {
    Sort(Filter(db.links, LinkAt(tenant, analysis)), LinkRowKey())
  }

  type Loaded = Result<Option<Snapshot>, StoreError>

  /** What a read of one snapshot answers. */
  ghost function Load(lib: Spelling, rules: TextRules, db: Tables, tenant: Uuid, analysis: Uuid): Loaded {
    var headers := Filter(db.headers, HeaderAt(tenant, analysis));
    if headers == [] then Ok(None)
    else if |headers| > 1 then Err(IntegrityError)
    else
      match Assemble(lib, rules, headers[0], TaskRowsAt(db, tenant, analysis), KsaoRowsAt(db, tenant, analysis),
                     LinkRowsAt(db, tenant, analysis))
      case Ok(s) => Ok(Some(s))
      case Err(e) => Err(e)
  }

  // ---------------------------------------------------------------- writing

  datatype Call = Call(
    snapshot: Snapshot, beside: Beside, key: string, request: Request, actor: string, purpose: string,
    commandId: Uuid, auditEvent: Uuid, outbox: Uuid)

  /** The snapshot was built by its constructor, and the digest covers its document and the parents named beside it. */
  ghost predicate WellFormed(lib: Spelling, rules: TextRules, c: Call) {
    ValidSnapshot(rules, c.snapshot) && c.request == Request(Print(lib, c.snapshot), c.beside)
  }

  datatype Answer = Answer(result: Result<Snapshot, StoreError>, tables: Tables)

  function CommandOf(c: Call): CommandRow {
    CommandRow(c.snapshot.tenant, c.commandId, c.snapshot.analysis, c.key, c.request, c.actor, c.purpose)
  }

  function AuditOf(c: Call): AuditRow {
    var s := c.snapshot;
    AuditRow(s.tenant, c.auditEvent, c.outbox, s.analysis, s.version, c.actor, c.purpose)
  }

  function Stored(lib: Spelling, db: Tables, c: Call): Tables {
    var s := c.snapshot;
    Tables(db.parents, db.headers + [HeaderOf(lib, s, c.beside)], db.tasks + MapAll(s.tasks, TaskRowOf(s)),
           db.ksaos + MapAll(s.ksaos, KsaoRowOf(s)), db.links + MapAll(s.links, LinkRowOf(s)),
           db.commands + [CommandOf(c)], db.audits + [AuditOf(c)])
  }

  /** A named parent is open in the tenant and bound to the job. */
  predicate BoundTo(rows: map<(Uuid, Uuid), Uuid>, tenant: Uuid, parent: Option<Uuid>, job: Uuid) {
    parent.Some? ==> (tenant, parent.value) in rows && rows[(tenant, parent.value)] == job
  }

  /** The job is open in the tenant, and the parents named beside the document are bound to it. */
  predicate InScope(parents: Parents, tenant: Uuid, job: Uuid, beside: Beside) {
    && (tenant, job) in parents.jobs
    && BoundTo(parents.positions, tenant, beside.position, job)
    && BoundTo(parents.criteria, tenant, beside.criterion, job)
  }

  /** A header unique constraint refuses the snapshot: the analysis identity, or the job's version code. */
  predicate Taken(db: Tables, s: Snapshot) {
    exists h :: h in db.headers &&
                (h.analysis == s.analysis || (h.tenant == s.tenant && h.job == s.job && h.version == s.version))
  }

  predicate CommandIdTaken(db: Tables, id: Uuid) {
    exists c :: c in db.commands && c.id == id
  }

  /** The audit event or its outbox row exists already. */
  predicate AuditTaken(db: Tables, c: Call) {
    exists a :: a in db.audits && (a.event == c.auditEvent || a.outbox == c.outbox)
  }

  /** What one call answers and leaves behind. */
  ghost function Persist(lib: Spelling, rules: TextRules, db: Tables, c: Call): Answer {
    var existing := Filter(db.commands, CommandAt(c.snapshot.tenant, c.key));
    if existing != [] then
      Answer(Replay(lib, rules, db, c, existing[0]), db)
    else if !InScope(db.parents, c.snapshot.tenant, c.snapshot.job, c.beside) then Answer(Err(ScopeMissing), db)
    else if Taken(db, c.snapshot) then Answer(Err(IntegrityError), db)
    else if CommandIdTaken(db, c.commandId) then Answer(Err(IdempotencyConflict), db)
    else if AuditTaken(db, c) then Answer(Err(DatabaseError), db)
    else Answer(Ok(c.snapshot), Stored(lib, db, c))
  }

  ghost function Replay(lib: Spelling, rules: TextRules, db: Tables, c: Call, row: CommandRow)
    : Result<Snapshot, StoreError>
  {
    if row.request != c.request || row.actor != c.actor || row.purpose != c.purpose then Err(IdempotencyConflict)
    else
      match Load(lib, rules, db, c.snapshot.tenant, row.analysis)
      case Ok(Some(s)) => Ok(s)
      case Ok(None) => Err(IntegrityError)
      case Err(e) => Err(e)
  }

  // ---------------------------------------------------------------- what the tables keep

  ghost predicate HasHeader(db: Tables, tenant: Uuid, analysis: Uuid) {
    exists h :: h in db.headers && h.tenant == tenant && h.analysis == analysis
  }

  predicate SameVersion(h: HeaderRow, k: HeaderRow) {
    h.tenant == k.tenant && h.job == k.job && h.version == k.version
  }

  /** The unique constraints of the header table. */
  ghost predicate HeadersUnique(db: Tables) {
    forall i, j :: 0 <= i < j < |db.headers| ==>
      db.headers[i].analysis != db.headers[j].analysis && !SameVersion(db.headers[i], db.headers[j])
  }

  /** The unique constraints of the command table. */
  ghost predicate CommandsUnique(db: Tables) {
    forall i, j :: 0 <= i < j < |db.commands| ==>
      db.commands[i].id != db.commands[j].id &&
      !(db.commands[i].tenant == db.commands[j].tenant && db.commands[i].key == db.commands[j].key)
  }

  /** One command row and one audit row for each stored snapshot, and every audit identity once. */
  ghost predicate Audited(db: Tables) {
    && |db.headers| == |db.commands| == |db.audits|
    && forall i, j :: 0 <= i < j < |db.audits| ==>
         db.audits[i].event != db.audits[j].event && db.audits[i].outbox != db.audits[j].outbox
  }

  /** Every stored snapshot belongs to an open job, and so do the parents stored with it. */
  ghost predicate Scoped(db: Tables) {
    forall h :: h in db.headers ==> InScope(db.parents, h.tenant, h.job, h.beside)
  }

  /** The foreign keys to the header table. */
  ghost predicate RowsOwned(db: Tables) {
    && (forall r :: r in db.tasks ==> HasHeader(db, r.tenant, r.analysis))
    && (forall r :: r in db.ksaos ==> HasHeader(db, r.tenant, r.analysis))
    && (forall r :: r in db.links ==> HasHeader(db, r.tenant, r.analysis))
    && (forall c :: c in db.commands ==> HasHeader(db, c.tenant, c.analysis))
  }

  ghost predicate Loads(lib: Spelling, rules: TextRules, db: Tables, h: HeaderRow) {
    var r := Load(lib, rules, db, h.tenant, h.analysis);
    r.Ok? && r.value.Some? && Print(lib, r.value.value) == h.digest
  }

  /** Every stored snapshot loads and matches its digest. */
  ghost predicate AllLoad(lib: Spelling, rules: TextRules, db: Tables) {
    forall h :: h in db.headers ==> Loads(lib, rules, db, h)
  }

  /** A command row was digested over the document and the parents stored for it. */
  ghost predicate CommandsBound(db: Tables) {
    forall c, h :: c in db.commands && h in db.headers && h.analysis == c.analysis
                   ==> c.request == Request(h.digest, h.beside)
  }

  ghost predicate WellStored(lib: Spelling, rules: TextRules, db: Tables) {
    && HeadersUnique(db) && CommandsUnique(db) && RowsOwned(db) && AllLoad(lib, rules, db) && CommandsBound(db)
    && Audited(db) && Scoped(db)
  }
}
