/** Job-analysis rows: writing a snapshot, and rebuilding it from rows in any order. */
module JobStore {
  import opened Prelude
  import opened Facts
  import opened JobAnalysis
  import opened JobDocument
  import opened JobRoundTrip

  datatype SourceColumns = SourceColumns(
    uri: string, title: string, version: string, retrievedAt: int, digest: string, origin: string)

  /** The optional parents named beside a document. */
  datatype Beside = Beside(position: Option<Uuid>, criterion: Option<Uuid>)

  /** The content digest is the printed document it covers. */
  datatype HeaderRow = HeaderRow(
    tenant: Uuid, analysis: Uuid, job: Uuid, beside: Beside, version: string, status: string,
    effectiveFrom: int, recordedAt: int, reviewer: Option<string>, reviewedAt: Option<int>, digest: Json,
    dataCode: int, peopleCode: int, thingsCode: int, source: SourceColumns)

  datatype TaskRow = TaskRow(
    tenant: Uuid, analysis: Uuid, task: Uuid, statement: string, importance: int, difficulty: int,
    source: SourceColumns)

  datatype KsaoRow = KsaoRow(
    tenant: Uuid, analysis: Uuid, ksao: Uuid, category: string, statement: string, importance: int, proficiency: int,
    source: SourceColumns)

  datatype LinkRow = LinkRow(tenant: Uuid, analysis: Uuid, task: Uuid, ksao: Uuid, strength: int, essential: bool)

  /** The digested request. */
  datatype Request = Request(document: Json, beside: Beside)

  datatype CommandRow = CommandRow(
    tenant: Uuid, id: Uuid, analysis: Uuid, key: string, request: Request, actor: string, purpose: string)

  datatype AuditRow = AuditRow(
    tenant: Uuid, event: Uuid, outbox: Uuid, analysis: Uuid, version: string, actor: string, purpose: string)

  /** The open job, position and criterion rows: the jobs of each tenant, and the job of each position and criterion. */
  datatype Parents = Parents(
    jobs: set<(Uuid, Uuid)>, positions: map<(Uuid, Uuid), Uuid>, criteria: map<(Uuid, Uuid), Uuid>)

  datatype Tables = Tables(
    parents: Parents, headers: seq<HeaderRow>, tasks: seq<TaskRow>, ksaos: seq<KsaoRow>, links: seq<LinkRow>,
    commands: seq<CommandRow>, audits: seq<AuditRow>)

  /** `DatabaseError` is a driver error that the adapter does not translate. */
  datatype StoreError = InvalidEvidence | IntegrityError | ScopeMissing | IdempotencyConflict | DatabaseError

  // ---------------------------------------------------------------- rows and values

  function SourceParams(s: EvidenceSource): SourceColumns {
    SourceColumns(s.uri, s.title, s.version, s.retrievedAt, s.digest, s.origin)
  }

  function RawSource(c: SourceColumns): EvidenceSource {
    EvidenceSource(c.uri, c.title, c.version, c.retrievedAt, c.digest, c.origin)
  }

  function HeaderOf(lib: Spelling, s: Snapshot, beside: Beside): HeaderRow {
    HeaderRow(s.tenant, s.analysis, s.job, beside, s.version, s.status, s.effectiveFrom, s.recordedAt,
              s.reviewer, s.reviewedAt, Print(lib, s), s.fja.dataCode, s.fja.peopleCode, s.fja.thingsCode,
              SourceParams(s.fja.source))
  }

  function TaskRowOf(s: Snapshot): TaskEvidence -> TaskRow {
    (t: TaskEvidence) =>
      TaskRow(s.tenant, s.analysis, t.task, t.statement, t.importance, t.difficulty, SourceParams(t.source))
  }

  function KsaoRowOf(s: Snapshot): KsaoRequirement -> KsaoRow {
    (k: KsaoRequirement) =>
      KsaoRow(s.tenant, s.analysis, k.ksao, k.category, k.statement, k.importance, k.proficiency,
              SourceParams(k.source))
  }

  function LinkRowOf(s: Snapshot): TaskKsaoLink -> LinkRow {
    (l: TaskKsaoLink) => LinkRow(s.tenant, s.analysis, l.task, l.ksao, l.strength, l.essential)
  }

  function RawTask(tenant: Uuid, job: Uuid): TaskRow -> TaskEvidence {
    (r: TaskRow) => TaskEvidence(tenant, job, r.task, r.statement, r.importance, r.difficulty, RawSource(r.source))
  }

  function RawKsao(tenant: Uuid, job: Uuid): KsaoRow -> KsaoRequirement {
    (r: KsaoRow) =>
      KsaoRequirement(tenant, job, r.ksao, r.category, r.statement, r.importance, r.proficiency, RawSource(r.source))
  }

  function RawLink(): LinkRow -> TaskKsaoLink {
    (r: LinkRow) => TaskKsaoLink(r.task, r.ksao, r.strength, r.essential)
  }

  /** The row's columns through the constructors. */
  function BuildTask(rules: TextRules, tenant: Uuid, job: Uuid, r: TaskRow): (t: Option<TaskEvidence>)
    ensures t.Some? ==> ValidTask(rules, t.value)
    ensures ValidTask(rules, RawTask(tenant, job)(r)) <==> t == Some(RawTask(tenant, job)(r))
  {
    var raw := RawTask(tenant, job)(r);
    var source :- MakeSource(rules, raw.source);
    MakeTask(rules, raw.(source := source))
  }

  function BuildKsao(rules: TextRules, tenant: Uuid, job: Uuid, r: KsaoRow): (k: Option<KsaoRequirement>)
    ensures k.Some? ==> ValidKsao(rules, k.value)
    ensures ValidKsao(rules, RawKsao(tenant, job)(r)) <==> k == Some(RawKsao(tenant, job)(r))
  {
    var raw := RawKsao(tenant, job)(r);
    var source :- MakeSource(rules, raw.source);
    MakeKsao(rules, raw.(source := source))
  }

  function BuildLink(r: LinkRow): (l: Option<TaskKsaoLink>)
    ensures l.Some? ==> ValidLink(l.value)
    ensures ValidLink(RawLink()(r)) <==> l == Some(RawLink()(r))
  {
    MakeLink(RawLink()(r))
  }

  function TaskFromRow(rules: TextRules, tenant: Uuid, job: Uuid): TaskRow -> Option<TaskEvidence> {
    (r: TaskRow) => BuildTask(rules, tenant, job, r)
  }

  function KsaoFromRow(rules: TextRules, tenant: Uuid, job: Uuid): KsaoRow -> Option<KsaoRequirement> {
    (r: KsaoRow) => BuildKsao(rules, tenant, job, r)
  }

  function LinkFromRow(): LinkRow -> Option<TaskKsaoLink> {
    (r: LinkRow) => BuildLink(r)
  }

  function FjaFromHeader(rules: TextRules, h: HeaderRow): (f: Option<FjaProfile>)
    ensures f.Some? ==> ValidFja(rules, f.value)
  {
    var source :- MakeSource(rules, RawSource(h.source));
    MakeFja(rules, FjaProfile(h.tenant, h.job, h.dataCode, h.peopleCode, h.thingsCode, source))
  }

  // ---------------------------------------------------------------- loading

  ghost function TasksOf(rules: TextRules, h: HeaderRow, rows: seq<TaskRow>): (r: Option<seq<TaskEvidence>>)
    ensures r.Some? ==> forall t :: t in r.value ==> ValidTask(rules, t)
  {
    TryAll(rows, TaskFromRow(rules, h.tenant, h.job))
  }

  ghost function KsaosOf(rules: TextRules, h: HeaderRow, rows: seq<KsaoRow>): (r: Option<seq<KsaoRequirement>>)
    ensures r.Some? ==> forall k :: k in r.value ==> ValidKsao(rules, k)
  {
    TryAll(rows, KsaoFromRow(rules, h.tenant, h.job))
  }

  ghost function LinksOf(rows: seq<LinkRow>): (r: Option<seq<TaskKsaoLink>>)
    ensures r.Some? ==> forall l :: l in r.value ==> ValidLink(l)
  {
    TryAll(rows, LinkFromRow())
  }

  ghost function RebuildEvidence(rules: TextRules, h: HeaderRow,
                                 tasks: seq<TaskRow>, ksaos: seq<KsaoRow>, links: seq<LinkRow>): (r: Option<Evidence>)
    ensures r.Some? ==> ValidEvidence(rules, r.value)
  {
    Together(TasksOf(rules, h, tasks), KsaosOf(rules, h, ksaos), LinksOf(links), FjaFromHeader(rules, h))
  }

  function SnapshotOf(h: HeaderRow, e: Evidence): Snapshot {
    Snapshot(h.analysis, h.tenant, h.job, h.version, h.status, h.effectiveFrom, h.recordedAt,
             e.tasks, e.ksaos, e.links, e.fja, h.reviewer, h.reviewedAt)
  }

  /** The snapshot rebuilt from one header and the rows beside it, in the order they arrive. */
  ghost function Rebuild(rules: TextRules, h: HeaderRow, tasks: seq<TaskRow>, ksaos: seq<KsaoRow>, links: seq<LinkRow>)
    : (r: Option<Snapshot>)
    ensures r.Some? ==> ValidSnapshot(rules, r.value)
  {
    var e :- RebuildEvidence(rules, h, tasks, ksaos, links);
    if Consistent(rules, SnapshotOf(h, e)) then Some(SnapshotOf(h, e)) else None
  }

  ghost function Assemble(lib: Spelling, rules: TextRules, h: HeaderRow,
                          tasks: seq<TaskRow>, ksaos: seq<KsaoRow>, links: seq<LinkRow>): Result<Snapshot, StoreError> {
    var built := Rebuild(rules, h, tasks, ksaos, links);
    if built.None? then Err(InvalidEvidence)
    else if Print(lib, built.value) != h.digest then Err(IntegrityError)
    else Ok(built.value)
  }

  /** A list written as rows and read back in any order is the same list in some order. */
  lemma RowsBack<T(!new), R(!new)>(xs: seq<T>, rows: seq<R>, toRow: T -> R, raw: R -> T, make: R -> Option<T>)
    requires multiset(rows) == multiset(MapAll(xs, toRow))
    requires forall x :: x in xs ==> raw(toRow(x)) == x && make(toRow(x)) == Some(x)
    ensures TryAll(rows, make) == Some(MapAll(rows, raw))
    ensures multiset(MapAll(rows, raw)) == multiset(xs)
  {
    var written := MapAll(xs, toRow);
    PermutationMembers(rows, written);
    assert MapAll(written, raw) == xs;
    MapAllPermutation(rows, written, raw);
    forall i | 0 <= i < |rows| ensures make(rows[i]) == Some(raw(rows[i])) {
      assert rows[i] in written;
      var k :| 0 <= k < |written| && written[k] == rows[i];
      assert xs[k] in xs && written[k] == toRow(xs[k]);
    }
    TryAllIs(rows, make, MapAll(rows, raw));
  }

  lemma TasksBack(rules: TextRules, s: Snapshot, rows: seq<TaskRow>)
    requires PartsValid(rules, s) && SharesScope(s)
    requires multiset(rows) == multiset(MapAll(s.tasks, TaskRowOf(s)))
    ensures TryAll(rows, TaskFromRow(rules, s.tenant, s.job)) == Some(MapAll(rows, RawTask(s.tenant, s.job)))
    ensures multiset(MapAll(rows, RawTask(s.tenant, s.job))) == multiset(s.tasks)
  {
    RowsBack(s.tasks, rows, TaskRowOf(s), RawTask(s.tenant, s.job), TaskFromRow(rules, s.tenant, s.job));
  }

  lemma KsaosBack(rules: TextRules, s: Snapshot, rows: seq<KsaoRow>)
    requires PartsValid(rules, s) && SharesScope(s)
    requires multiset(rows) == multiset(MapAll(s.ksaos, KsaoRowOf(s)))
    ensures TryAll(rows, KsaoFromRow(rules, s.tenant, s.job)) == Some(MapAll(rows, RawKsao(s.tenant, s.job)))
    ensures multiset(MapAll(rows, RawKsao(s.tenant, s.job))) == multiset(s.ksaos)
  {
    RowsBack(s.ksaos, rows, KsaoRowOf(s), RawKsao(s.tenant, s.job), KsaoFromRow(rules, s.tenant, s.job));
  }

  lemma LinksBack(rules: TextRules, s: Snapshot, rows: seq<LinkRow>)
    requires PartsValid(rules, s)
    requires multiset(rows) == multiset(MapAll(s.links, LinkRowOf(s)))
    ensures TryAll(rows, LinkFromRow()) == Some(MapAll(rows, RawLink()))
    ensures multiset(MapAll(rows, RawLink())) == multiset(s.links)
  {
    RowsBack(s.links, rows, LinkRowOf(s), RawLink(), LinkFromRow());
  }

  /** The snapshot whose lists are read off the rows as they arrive. */
  function AsRead(s: Snapshot, tasks: seq<TaskRow>, ksaos: seq<KsaoRow>, links: seq<LinkRow>): Snapshot {
    s.(tasks := MapAll(tasks, RawTask(s.tenant, s.job)), ksaos := MapAll(ksaos, RawKsao(s.tenant, s.job)),
       links := MapAll(links, RawLink()))
  }

  ghost predicate RowsOf(s: Snapshot, tasks: seq<TaskRow>, ksaos: seq<KsaoRow>, links: seq<LinkRow>) {
    && multiset(tasks) == multiset(MapAll(s.tasks, TaskRowOf(s)))
    && multiset(ksaos) == multiset(MapAll(s.ksaos, KsaoRowOf(s)))
    && multiset(links) == multiset(MapAll(s.links, LinkRowOf(s)))
  }

  lemma EvidenceBack(lib: Spelling, rules: TextRules, s: Snapshot, beside: Beside,
                     tasks: seq<TaskRow>, ksaos: seq<KsaoRow>, links: seq<LinkRow>)
    requires PartsValid(rules, s) && SharesScope(s) && RowsOf(s, tasks, ksaos, links)
    ensures var t := AsRead(s, tasks, ksaos, links);
            && SameEvidence(s, t)
            && (RebuildEvidence(rules, HeaderOf(lib, s, beside), tasks, ksaos, links) ==
                Some(Evidence(t.tasks, t.ksaos, t.links, s.fja)))
  {
    TasksBack(rules, s, tasks);
    KsaosBack(rules, s, ksaos);
    LinksBack(rules, s, links);
    assert FjaFromHeader(rules, HeaderOf(lib, s, beside)) == Some(s.fja);
  }

  lemma AnyRowOrderReads(lib: Spelling, rules: TextRules, s: Snapshot, beside: Beside,
                         tasks: seq<TaskRow>, ksaos: seq<KsaoRow>, links: seq<LinkRow>)
    requires ValidSnapshot(rules, s) && RowsOf(s, tasks, ksaos, links)
    ensures SameEvidence(s, AsRead(s, tasks, ksaos, links))
    ensures Rebuild(rules, HeaderOf(lib, s, beside), tasks, ksaos, links) == Some(AsRead(s, tasks, ksaos, links))
  {
    EvidenceBack(lib, rules, s, beside, tasks, ksaos, links);
    ValidityForgetsOrder(rules, s, AsRead(s, tasks, ksaos, links));
  }

  /** Rows of a valid snapshot, in any order, rebuild the same evidence and pass the stored-digest comparison. */
  lemma AnyRowOrderRebuilds(lib: Spelling, rules: TextRules, s: Snapshot, beside: Beside,
                            tasks: seq<TaskRow>, ksaos: seq<KsaoRow>, links: seq<LinkRow>)
    requires ValidSnapshot(rules, s) && RowsOf(s, tasks, ksaos, links)
    ensures var r := Assemble(lib, rules, HeaderOf(lib, s, beside), tasks, ksaos, links);
            r.Ok? && SameEvidence(s, r.value) && Print(lib, r.value) == Print(lib, s)
  {
    AnyRowOrderReads(lib, rules, s, beside, tasks, ksaos, links);
    DocumentForgetsOrder(lib, s, AsRead(s, tasks, ksaos, links));
  }
}
