/** The job-analysis document: printed with its lists sorted, and rebuilt through the constructors. */
module JobDocument {
  import opened Prelude
  import opened Facts
  import opened Sorting
  import opened JobAnalysis

  /** Member names; every other name is `Unknown`. */
  datatype Field =
    | AnalysisId | TenantId | JobId | AnalysisVersion | StatusCode | EffectiveFrom | RecordedAt
    | Tasks | Ksaos | Links | Fja | ReviewedBy | ReviewedAt
    | TaskId | TaskStatement | Importance | Difficulty | Source
    | KsaoId | Category | Requirement | Proficiency
    | Strength | Essential
    | DataCode | PeopleCode | ThingsCode
    | SourceUri | SourceTitle | SourceVersion | RetrievedAt | ContentDigest | OriginCode
    | Unknown(name: string)

  datatype Json =
    | JNull
    | JBool(flag: bool)
    | JInt(number: int)
    | JDecimal(fraction: real)
    | JText(text: string)
    | JList(items: seq<Json>)
    | JObject(members: map<Field, Json>)

  /** Library spellings: identifiers, dates and UTC instants to text and back. */
  datatype Spelling = Spelling(
    id: Uuid -> string, readId: string -> Option<Uuid>,
    day: int -> string, readDay: string -> Option<int>,
    instant: int -> string, readInstant: string -> Option<int>)

  /** What the standard library promises of them: reading undoes writing. */
  ghost predicate Lawful(lib: Spelling) {
    && (forall id :: Operational(id) ==> lib.readId(lib.id(id)) == Some(id))
    && (forall day :: lib.readDay(lib.day(day)) == Some(day))
    && (forall instant :: lib.readInstant(lib.instant(instant)) == Some(instant))
  }

  // ---------------------------------------------------------------- printing

  function PrintSource(lib: Spelling, s: EvidenceSource): Json {
    JObject(map[
      SourceUri := JText(s.uri), SourceTitle := JText(s.title), SourceVersion := JText(s.version),
      RetrievedAt := JText(lib.instant(s.retrievedAt)), ContentDigest := JText(s.digest),
      OriginCode := JText(s.origin)])
  }

  function TaskPrinter(lib: Spelling): TaskEvidence -> Json {
    (t: TaskEvidence) => JObject(map[
      TaskId := JText(lib.id(t.task)), TaskStatement := JText(t.statement), Importance := JInt(t.importance),
      Difficulty := JInt(t.difficulty), Source := PrintSource(lib, t.source)])
  }

  function KsaoPrinter(lib: Spelling): KsaoRequirement -> Json {
    (k: KsaoRequirement) => JObject(map[
      KsaoId := JText(lib.id(k.ksao)), Category := JText(k.category), Requirement := JText(k.statement),
      Importance := JInt(k.importance), Proficiency := JInt(k.proficiency), Source := PrintSource(lib, k.source)])
  }

  function LinkPrinter(lib: Spelling): TaskKsaoLink -> Json {
    (l: TaskKsaoLink) => JObject(map[
      TaskId := JText(lib.id(l.task)), KsaoId := JText(lib.id(l.ksao)), Strength := JInt(l.strength),
      Essential := JBool(l.essential)])
  }

  function PrintFja(lib: Spelling, f: FjaProfile): Json {
    JObject(map[
      DataCode := JInt(f.dataCode), PeopleCode := JInt(f.peopleCode), ThingsCode := JInt(f.thingsCode),
      Source := PrintSource(lib, f.source)])
  }

  function HeaderMembers(lib: Spelling, s: Snapshot): map<Field, Json> {
    map[
      AnalysisId := JText(lib.id(s.analysis)), TenantId := JText(lib.id(s.tenant)), JobId := JText(lib.id(s.job)),
      AnalysisVersion := JText(s.version), StatusCode := JText(s.status),
      EffectiveFrom := JText(lib.day(s.effectiveFrom)), RecordedAt := JText(lib.instant(s.recordedAt))]
  }

  /** The evidence, each list sorted by identifier. */
  function EvidenceMembers(lib: Spelling, s: Snapshot): map<Field, Json> {
    map[
      Tasks := JList(MapAll(Sort(s.tasks, TaskKey()), TaskPrinter(lib))),
      Ksaos := JList(MapAll(Sort(s.ksaos, KsaoKey()), KsaoPrinter(lib))),
      Links := JList(MapAll(Sort(s.links, LinkKey()), LinkPrinter(lib))),
      Fja := PrintFja(lib, s.fja)]
  }

  /** The review members appear only when a reviewer is named; a constructed snapshot has both or neither. */
  function ReviewMembers(lib: Spelling, s: Snapshot): map<Field, Json> {
    if s.reviewer.None? || s.reviewedAt.None? then map[]
    else map[ReviewedBy := JText(s.reviewer.value), ReviewedAt := JText(lib.instant(s.reviewedAt.value))]
  }

  /** `to_snapshot`. */
  function Print(lib: Spelling, s: Snapshot): Json {
    JObject(HeaderMembers(lib, s) + EvidenceMembers(lib, s) + ReviewMembers(lib, s))
  }

  // ---------------------------------------------------------------- parsing

  const SOURCE_FIELDS: set<Field> := {SourceUri, SourceTitle, SourceVersion, RetrievedAt, ContentDigest, OriginCode}
  const TASK_FIELDS: set<Field> := {TaskId, TaskStatement, Importance, Difficulty, Source}
  const KSAO_FIELDS: set<Field> := {KsaoId, Category, Requirement, Importance, Proficiency, Source}
  const LINK_FIELDS: set<Field> := {TaskId, KsaoId, Strength, Essential}
  const FJA_FIELDS: set<Field> := {DataCode, PeopleCode, ThingsCode, Source}
  const SNAPSHOT_FIELDS: set<Field> := {
    AnalysisId, TenantId, JobId, AnalysisVersion, StatusCode, EffectiveFrom, RecordedAt,
    Tasks, Ksaos, Links, Fja, ReviewedBy, ReviewedAt}

  const MAX_TASKS := 500
  const MAX_KSAOS := 500
  const MAX_LINKS := 5000

  /** An object without unsupported members. */
  predicate IsObject(j: Json, fields: set<Field>) {
    j.JObject? && j.members.Keys <= fields
  }

  function Get(j: Json, field: Field): Json
    requires j.JObject?
  {
    if field in j.members then j.members[field] else JNull
  }

  function AsText(j: Json): Option<string> {
    if j.JText? then Some(j.text) else None
  }

  /** A JSON boolean is not an integer. */
  function AsInt(j: Json): Option<int> {
    if j.JInt? then Some(j.number) else None
  }

  function AsBool(j: Json): Option<bool> {
    if j.JBool? then Some(j.flag) else None
  }

  function AsId(lib: Spelling, j: Json): (r: Option<Uuid>)
    ensures r.Some? ==> Operational(r.value)
  {
    var text :- AsText(j);
    var id :- lib.readId(text);
    if Operational(id) then Some(id) else None
  }

  function AsInstant(lib: Spelling, j: Json): Option<int> {
    var text :- AsText(j);
    lib.readInstant(text)
  }

  function AsDay(lib: Spelling, j: Json): Option<int> {
    var text :- AsText(j);
    lib.readDay(text)
  }

  /** An absent or null member is `None`; any other non-text value is refused. */
  function AsOptionalText(j: Json): Option<Option<string>> {
    if j.JNull? then Some(None)
    else
      var text :- AsText(j);
      Some(Some(text))
  }

  function AsOptionalInstant(lib: Spelling, j: Json): Option<Option<int>> {
    if j.JNull? then Some(None)
    else
      var instant :- AsInstant(lib, j);
      Some(Some(instant))
  }

  function ParseSource(lib: Spelling, rules: TextRules, j: Json): (r: Option<EvidenceSource>)
    ensures r.Some? ==> ValidSource(rules, r.value)
  {
    if !IsObject(j, SOURCE_FIELDS) then None
    else
      var uri :- AsText(Get(j, SourceUri));
      var title :- AsText(Get(j, SourceTitle));
      var version :- AsText(Get(j, SourceVersion));
      var retrievedAt :- AsInstant(lib, Get(j, RetrievedAt));
      var digest :- AsText(Get(j, ContentDigest));
      var origin :- AsText(Get(j, OriginCode));
      MakeSource(rules, EvidenceSource(uri, title, version, retrievedAt, digest, origin))
  }

  function ParseTask(lib: Spelling, rules: TextRules, tenant: Uuid, job: Uuid, j: Json): (r: Option<TaskEvidence>)
    ensures r.Some? ==> ValidTask(rules, r.value)
  {
    if !IsObject(j, TASK_FIELDS) then None
    else
      var id :- AsId(lib, Get(j, TaskId));
      var statement :- AsText(Get(j, TaskStatement));
      var importance :- AsInt(Get(j, Importance));
      var difficulty :- AsInt(Get(j, Difficulty));
      var source :- ParseSource(lib, rules, Get(j, Source));
      MakeTask(rules, TaskEvidence(tenant, job, id, statement, importance, difficulty, source))
  }

  function ParseKsao(lib: Spelling, rules: TextRules, tenant: Uuid, job: Uuid, j: Json): (r: Option<KsaoRequirement>)
    ensures r.Some? ==> ValidKsao(rules, r.value)
  {
    if !IsObject(j, KSAO_FIELDS) then None
    else
      var id :- AsId(lib, Get(j, KsaoId));
      var category :- AsText(Get(j, Category));
      var statement :- AsText(Get(j, Requirement));
      var importance :- AsInt(Get(j, Importance));
      var proficiency :- AsInt(Get(j, Proficiency));
      var source :- ParseSource(lib, rules, Get(j, Source));
      MakeKsao(rules, KsaoRequirement(tenant, job, id, category, statement, importance, proficiency, source))
  }

  function ParseLink(lib: Spelling, j: Json): (r: Option<TaskKsaoLink>)
    ensures r.Some? ==> ValidLink(r.value)
  {
    if !IsObject(j, LINK_FIELDS) then None
    else
      var task :- AsId(lib, Get(j, TaskId));
      var ksao :- AsId(lib, Get(j, KsaoId));
      var strength :- AsInt(Get(j, Strength));
      var essential :- AsBool(Get(j, Essential));
      MakeLink(TaskKsaoLink(task, ksao, strength, essential))
  }

  function ParseFja(lib: Spelling, rules: TextRules, tenant: Uuid, job: Uuid, j: Json): (r: Option<FjaProfile>)
    requires Operational(tenant) && Operational(job)
    ensures r.Some? ==> ValidFja(rules, r.value)
  {
    if !IsObject(j, FJA_FIELDS) then None
    else
      var dataCode :- AsInt(Get(j, DataCode));
      var peopleCode :- AsInt(Get(j, PeopleCode));
      var thingsCode :- AsInt(Get(j, ThingsCode));
      var source :- ParseSource(lib, rules, Get(j, Source));
      MakeFja(rules, FjaProfile(tenant, job, dataCode, peopleCode, thingsCode, source))
  }

  function TaskParser(lib: Spelling, rules: TextRules, tenant: Uuid, job: Uuid): Json -> Option<TaskEvidence> {
    (j: Json) => ParseTask(lib, rules, tenant, job, j)
  }

  function KsaoParser(lib: Spelling, rules: TextRules, tenant: Uuid, job: Uuid): Json -> Option<KsaoRequirement> {
    (j: Json) => ParseKsao(lib, rules, tenant, job, j)
  }

  function LinkParser(lib: Spelling): Json -> Option<TaskKsaoLink> {
    (j: Json) => ParseLink(lib, j)
  }

  function AsList(j: Json): Option<seq<Json>> {
    if j.JList? then Some(j.items) else None
  }

  predicate AtMost(j: Json, limit: nat) {
    j.JList? ==> |j.items| <= limit
  }

  predicate WithinLimits(j: Json) {
    j.JObject? ==>
      AtMost(Get(j, Tasks), MAX_TASKS) && AtMost(Get(j, Ksaos), MAX_KSAOS) && AtMost(Get(j, Links), MAX_LINKS)
  }

  predicate FitsLimits(s: Snapshot) {
    |s.tasks| <= MAX_TASKS && |s.ksaos| <= MAX_KSAOS && |s.links| <= MAX_LINKS
  }

  datatype Evidence = Evidence(
    tasks: seq<TaskEvidence>, ksaos: seq<KsaoRequirement>, links: seq<TaskKsaoLink>, fja: FjaProfile)

  ghost predicate ValidEvidence(rules: TextRules, e: Evidence) {
    && (forall t :: t in e.tasks ==> ValidTask(rules, t))
    && (forall k :: k in e.ksaos ==> ValidKsao(rules, k))
    && (forall l :: l in e.links ==> ValidLink(l))
    && ValidFja(rules, e.fja)
  }

  ghost function ParseTasks(lib: Spelling, rules: TextRules, tenant: Uuid, job: Uuid, j: Json)
    : (r: Option<seq<TaskEvidence>>)
    ensures r.Some? ==> j.JList? && |r.value| == |j.items| && forall t :: t in r.value ==> ValidTask(rules, t)
  {
    var raw :- AsList(j);
    TryAll(raw, TaskParser(lib, rules, tenant, job))
  }

  ghost function ParseKsaos(lib: Spelling, rules: TextRules, tenant: Uuid, job: Uuid, j: Json)
    : (r: Option<seq<KsaoRequirement>>)
    ensures r.Some? ==> j.JList? && |r.value| == |j.items| && forall k :: k in r.value ==> ValidKsao(rules, k)
  {
    var raw :- AsList(j);
    TryAll(raw, KsaoParser(lib, rules, tenant, job))
  }

  ghost function ParseLinks(lib: Spelling, j: Json): (r: Option<seq<TaskKsaoLink>>)
    ensures r.Some? ==> j.JList? && |r.value| == |j.items| && forall l :: l in r.value ==> ValidLink(l)
  {
    var raw :- AsList(j);
    TryAll(raw, LinkParser(lib))
  }

  /** The evidence when all of its parts parsed. */
  function Together(
    tasks: Option<seq<TaskEvidence>>, ksaos: Option<seq<KsaoRequirement>>, links: Option<seq<TaskKsaoLink>>,
    fja: Option<FjaProfile>): Option<Evidence>
  {
    if tasks.Some? && ksaos.Some? && links.Some? && fja.Some?
    then Some(Evidence(tasks.value, ksaos.value, links.value, fja.value)) else None
  }

  /** The evidence lists of a document, cardinality limits aside. */
  ghost function ParseEvidence(lib: Spelling, rules: TextRules, tenant: Uuid, job: Uuid, j: Json): (r: Option<Evidence>)
    requires j.JObject? && Operational(tenant) && Operational(job)
    ensures r.Some? ==> ValidEvidence(rules, r.value)
    ensures r.Some? ==> (WithinLimits(j) <==>
                         |r.value.tasks| <= MAX_TASKS && |r.value.ksaos| <= MAX_KSAOS && |r.value.links| <= MAX_LINKS)
  {
    Together(ParseTasks(lib, rules, tenant, job, Get(j, Tasks)), ParseKsaos(lib, rules, tenant, job, Get(j, Ksaos)),
             ParseLinks(lib, Get(j, Links)), ParseFja(lib, rules, tenant, job, Get(j, Fja)))
  }

  method EvidenceFromDocument(lib: Spelling, rules: TextRules, tenant: Uuid, job: Uuid, j: Json)
    returns (r: Option<Evidence>)
    requires j.JObject? && Operational(tenant) && Operational(job)
    ensures r == if WithinLimits(j) then ParseEvidence(lib, rules, tenant, job, j) else None
  {
    var rawTasks :- AsList(Get(j, Tasks));
    if |rawTasks| > MAX_TASKS {
      return None;
    }
    var rawKsaos :- AsList(Get(j, Ksaos));
    if |rawKsaos| > MAX_KSAOS {
      return None;
    }
    var rawLinks :- AsList(Get(j, Links));
    if |rawLinks| > MAX_LINKS {
      return None;
    }
    var tasks :- BuildAll(rawTasks, TaskParser(lib, rules, tenant, job));
    var ksaos :- BuildAll(rawKsaos, KsaoParser(lib, rules, tenant, job));
    var links :- BuildAll(rawLinks, LinkParser(lib));
    var fja :- ParseFja(lib, rules, tenant, job, Get(j, Fja));
    r := Some(Evidence(tasks, ksaos, links, fja));
  }

  /** What stands beside the evidence. */
  datatype Header = Header(
    analysis: Uuid, tenant: Uuid, job: Uuid, version: string, status: string, effectiveFrom: int, recordedAt: int,
    reviewer: Option<string>, reviewedAt: Option<int>)

  /** The members read after the evidence. */
  function ParseRest(lib: Spelling, tenant: Uuid, job: Uuid, j: Json): (r: Option<Header>)
    requires j.JObject?
    ensures r.Some? ==> r.value.tenant == tenant && r.value.job == job
  {
    var analysis :- AsId(lib, Get(j, AnalysisId));
    var version :- AsText(Get(j, AnalysisVersion));
    var status :- AsText(Get(j, StatusCode));
    var effectiveFrom :- AsDay(lib, Get(j, EffectiveFrom));
    var recordedAt :- AsInstant(lib, Get(j, RecordedAt));
    var reviewer :- AsOptionalText(Get(j, ReviewedBy));
    var reviewedAt :- AsOptionalInstant(lib, Get(j, ReviewedAt));
    Some(Header(analysis, tenant, job, version, status, effectiveFrom, recordedAt, reviewer, reviewedAt))
  }

  function Compose(h: Header, e: Evidence): Snapshot {
    Snapshot(h.analysis, h.tenant, h.job, h.version, h.status, h.effectiveFrom, h.recordedAt,
             e.tasks, e.ksaos, e.links, e.fja, h.reviewer, h.reviewedAt)
  }

  /** The snapshot of the parts that parsed. */
  ghost function Constructed(rules: TextRules, header: Option<Header>, evidence: Option<Evidence>)
    : (r: Option<Snapshot>)
    requires evidence.Some? ==> ValidEvidence(rules, evidence.value)
    ensures r.Some? ==> header.Some? && evidence.Some? && r.value == Compose(header.value, evidence.value)
    ensures r.Some? ==> ValidSnapshot(rules, r.value)
  {
    if header.Some? && evidence.Some? && Consistent(rules, Compose(header.value, evidence.value))
    then Some(Compose(header.value, evidence.value)) else None
  }

  /** What a document of one tenant and job means, cardinality limits aside. */
  ghost function ParseBody(lib: Spelling, rules: TextRules, tenant: Uuid, job: Uuid, j: Json): (r: Option<Snapshot>)
    requires j.JObject? && Operational(tenant) && Operational(job)
    ensures r.Some? ==> ValidSnapshot(rules, r.value) && r.value.tenant == tenant && r.value.job == job
  {
    Constructed(rules, ParseRest(lib, tenant, job, j), ParseEvidence(lib, rules, tenant, job, j))
  }

  /** What a document means, cardinality limits aside. */
  ghost function ParseSnapshot(lib: Spelling, rules: TextRules, tenant: Uuid, j: Json): (r: Option<Snapshot>)
    ensures r.Some? ==> ValidSnapshot(rules, r.value) && r.value.tenant == tenant
  {
    if IsObject(j, SNAPSHOT_FIELDS) && AsId(lib, Get(j, TenantId)) == Some(tenant) && AsId(lib, Get(j, JobId)).Some?
    then ParseBody(lib, rules, tenant, AsId(lib, Get(j, JobId)).value, j)
    else None
  }

  lemma ParsedWithinLimits(lib: Spelling, rules: TextRules, tenant: Uuid, j: Json)
    requires ParseSnapshot(lib, rules, tenant, j).Some?
    ensures WithinLimits(j) <==> FitsLimits(ParseSnapshot(lib, rules, tenant, j).value)
  {
    var job := AsId(lib, Get(j, JobId)).value;
    var evidence := ParseEvidence(lib, rules, tenant, job, j);
    assert ParseSnapshot(lib, rules, tenant, j) == Constructed(rules, ParseRest(lib, tenant, job, j), evidence);
  }

  /** What a posted document means. */
  ghost function Read(lib: Spelling, rules: TextRules, tenant: Uuid, j: Json): Option<Snapshot> {
    if WithinLimits(j) then ParseSnapshot(lib, rules, tenant, j) else None
  }

  method BodyFromDocument(lib: Spelling, rules: TextRules, tenant: Uuid, job: Uuid, j: Json)
    returns (r: Option<Snapshot>)
    requires j.JObject? && Operational(tenant) && Operational(job)
    ensures r == if WithinLimits(j) then ParseBody(lib, rules, tenant, job, j) else None
  {
    var evidence :- EvidenceFromDocument(lib, rules, tenant, job, j);
    var header :- ParseRest(lib, tenant, job, j);
    var s := Compose(header, evidence);
    var ok := CheckSnapshot(rules, s);
    r := if ok then Some(s) else None;
  }

  method SnapshotFromDocument(lib: Spelling, rules: TextRules, tenant: Uuid, j: Json) returns (r: Option<Snapshot>)
    ensures r == Read(lib, rules, tenant, j)
  {
    if !IsObject(j, SNAPSHOT_FIELDS) {
      return None;
    }
    var posted :- AsId(lib, Get(j, TenantId));
    if posted != tenant {
      return None;
    }
    var job :- AsId(lib, Get(j, JobId));
    r := BodyFromDocument(lib, rules, tenant, job, j);
  }
}
