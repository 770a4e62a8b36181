/** Constructors and documents of a job analysis, said on the fields and on the members by their names. */
module JobMeaning {
  import opened Prelude
  import opened Facts
  import opened Sorting
  import opened Text
  import opened JobAnalysis
  import opened JobDocument
  import opened JobRoundTrip

  // ---------------------------------------------------------------- constructors

  /** Normal text of at least a given length. */
  predicate LongEnough(text: string, minimum: nat) {
    Normalize(text) == text && |text| >= minimum
  }

  ghost predicate MeetsSourceRules(rules: TextRules, s: EvidenceSource) {
    && rules.uri(s.uri) && rules.version(s.version) && rules.digest(s.digest) && LongEnough(s.title, 3)
    && (s.origin == "authoritative_occupation_source" || s.origin == "job_incumbent" || s.origin == "supervisor_sme"
        || s.origin == "occupational_expert" || s.origin == "web_research" || s.origin == "llm_draft")
  }

  ghost predicate MeetsTaskRules(rules: TextRules, t: TaskEvidence) {
    && IsRecordId(t.tenant) && IsRecordId(t.job) && IsRecordId(t.task) && LongEnough(t.statement, 10)
    && 1 <= t.importance <= 5 && 1 <= t.difficulty <= 5 && MeetsSourceRules(rules, t.source)
  }

  ghost predicate MeetsKsaoRules(rules: TextRules, k: KsaoRequirement) {
    && IsRecordId(k.tenant) && IsRecordId(k.job) && IsRecordId(k.ksao) && LongEnough(k.statement, 10)
    && (k.category == "knowledge_requirement" || k.category == "skill_requirement"
        || k.category == "ability_requirement" || k.category == "other_characteristic")
    && 1 <= k.importance <= 5 && 1 <= k.proficiency <= 5 && MeetsSourceRules(rules, k.source)
  }

  ghost predicate MeetsFjaRules(rules: TextRules, f: FjaProfile) {
    && IsRecordId(f.tenant) && IsRecordId(f.job)
    && 0 <= f.dataCode <= 6 && 0 <= f.peopleCode <= 8 && 0 <= f.thingsCode <= 7 && MeetsSourceRules(rules, f.source)
  }

  ghost predicate MeetsLinkRules(l: TaskKsaoLink) {
    IsRecordId(l.task) && IsRecordId(l.ksao) && 1 <= l.strength <= 5
  }

  lemma PartsInFull(rules: TextRules)
    ensures forall s :: ValidSource(rules, s) <==> MeetsSourceRules(rules, s)
    ensures forall t :: ValidTask(rules, t) <==> MeetsTaskRules(rules, t)
    ensures forall k :: ValidKsao(rules, k) <==> MeetsKsaoRules(rules, k)
    ensures forall f :: ValidFja(rules, f) <==> MeetsFjaRules(rules, f)
    ensures forall l :: ValidLink(l) <==> MeetsLinkRules(l)
  {
  }

  ghost predicate PartsMeet(rules: TextRules, s: Snapshot) {
    && (forall t :: t in s.tasks ==> MeetsTaskRules(rules, t))
    && (forall k :: k in s.ksaos ==> MeetsKsaoRules(rules, k))
    && (forall l :: l in s.links ==> MeetsLinkRules(l))
    && MeetsFjaRules(rules, s.fja)
  }

  /** A snapshot whose parts and whole meet the evidence rules. */
  ghost predicate MeetsAllRules(rules: TextRules, s: Snapshot) {
    PartsMeet(rules, s) && MeetsEvidenceRules(rules, s)
  }

  lemma ValidInFull(rules: TextRules, s: Snapshot)
    ensures ValidSnapshot(rules, s) <==> MeetsAllRules(rules, s)
  {
    PartsInFull(rules);
    ConsistentInFull(rules, s);
  }

  // ---------------------------------------------------------------- members by name

  ghost predicate SaysText(j: Json, field: Field, text: string) {
    j.JObject? && field in j.members && j.members[field] == JText(text)
  }

  ghost predicate SaysInt(j: Json, field: Field, number: int) {
    j.JObject? && field in j.members && j.members[field] == JInt(number)
  }

  ghost predicate SaysId(lib: Spelling, j: Json, field: Field, id: Uuid) {
    && j.JObject? && field in j.members && j.members[field].JText?
    && lib.readId(j.members[field].text) == Some(id) && IsRecordId(id)
  }

  ghost predicate SaysInstant(lib: Spelling, j: Json, field: Field, instant: int) {
    && j.JObject? && field in j.members && j.members[field].JText?
    && lib.readInstant(j.members[field].text) == Some(instant)
  }

  /** Text that is the given text once normalized. */
  ghost predicate SaysLoosely(j: Json, field: Field, text: string) {
    j.JObject? && field in j.members && j.members[field].JText? && Normalize(j.members[field].text) == text
  }

  ghost predicate DescribesSource(lib: Spelling, j: Json, s: EvidenceSource) {
    && j.JObject?
    && j.members.Keys <= {SourceUri, SourceTitle, SourceVersion, RetrievedAt, ContentDigest, OriginCode}
    && SaysText(j, SourceUri, s.uri) && SaysLoosely(j, SourceTitle, s.title) && SaysText(j, SourceVersion, s.version)
    && SaysInstant(lib, j, RetrievedAt, s.retrievedAt) && SaysText(j, ContentDigest, s.digest)
    && SaysText(j, OriginCode, s.origin)
  }

  ghost predicate DescribesTask(lib: Spelling, j: Json, t: TaskEvidence) {
    && j.JObject? && j.members.Keys <= {TaskId, TaskStatement, Importance, Difficulty, Source}
    && SaysId(lib, j, TaskId, t.task) && SaysLoosely(j, TaskStatement, t.statement)
    && SaysInt(j, Importance, t.importance) && SaysInt(j, Difficulty, t.difficulty)
    && Source in j.members && DescribesSource(lib, j.members[Source], t.source)
  }

  ghost predicate DescribesKsao(lib: Spelling, j: Json, k: KsaoRequirement) {
    && j.JObject? && j.members.Keys <= {KsaoId, Category, Requirement, Importance, Proficiency, Source}
    && SaysId(lib, j, KsaoId, k.ksao) && SaysText(j, Category, k.category) && SaysLoosely(j, Requirement, k.statement)
    && SaysInt(j, Importance, k.importance) && SaysInt(j, Proficiency, k.proficiency)
    && Source in j.members && DescribesSource(lib, j.members[Source], k.source)
  }

  ghost predicate DescribesLink(lib: Spelling, j: Json, l: TaskKsaoLink) {
    && j.JObject? && j.members.Keys <= {TaskId, KsaoId, Strength, Essential}
    && SaysId(lib, j, TaskId, l.task) && SaysId(lib, j, KsaoId, l.ksao) && SaysInt(j, Strength, l.strength)
    && Essential in j.members && j.members[Essential] == JBool(l.essential)
  }

  ghost predicate DescribesFja(lib: Spelling, j: Json, f: FjaProfile) {
    && j.JObject? && j.members.Keys <= {DataCode, PeopleCode, ThingsCode, Source}
    && SaysInt(j, DataCode, f.dataCode) && SaysInt(j, PeopleCode, f.peopleCode) && SaysInt(j, ThingsCode, f.thingsCode)
    && Source in j.members && DescribesSource(lib, j.members[Source], f.source)
  }

  // ---------------------------------------------------------------- reading one item

  lemma SourceInFull(lib: Spelling, rules: TextRules, j: Json, s: EvidenceSource)
    ensures (ParseSource(lib, rules, j) == Some(s) <==> DescribesSource(lib, j, s) && MeetsSourceRules(rules, s))
  {
    PartsInFull(rules);
    if DescribesSource(lib, j, s) && MeetsSourceRules(rules, s) {
      var raw := s.(title := j.members[SourceTitle].text);
      assert ParseSource(lib, rules, j) == MakeSource(rules, raw);
    }
  }

  lemma TaskRead(lib: Spelling, rules: TextRules, tenant: Uuid, job: Uuid, j: Json, t: TaskEvidence)
    requires ParseTask(lib, rules, tenant, job, j) == Some(t)
    ensures t.tenant == tenant && t.job == job && DescribesTask(lib, j, t) && MeetsTaskRules(rules, t)
  {
    PartsInFull(rules);
    SourceInFull(lib, rules, j.members[Source], t.source);
  }

  lemma TaskIsRead(lib: Spelling, rules: TextRules, tenant: Uuid, job: Uuid, j: Json, t: TaskEvidence)
    requires t.tenant == tenant && t.job == job && DescribesTask(lib, j, t) && MeetsTaskRules(rules, t)
    ensures ParseTask(lib, rules, tenant, job, j) == Some(t)
  {
    PartsInFull(rules);
    SourceInFull(lib, rules, j.members[Source], t.source);
  }

  lemma TaskInFull(lib: Spelling, rules: TextRules, tenant: Uuid, job: Uuid, j: Json, t: TaskEvidence)
    ensures (ParseTask(lib, rules, tenant, job, j) == Some(t) <==>
             t.tenant == tenant && t.job == job && DescribesTask(lib, j, t) && MeetsTaskRules(rules, t))
  {
    if ParseTask(lib, rules, tenant, job, j) == Some(t) {
      TaskRead(lib, rules, tenant, job, j, t);
    }
    if t.tenant == tenant && t.job == job && DescribesTask(lib, j, t) && MeetsTaskRules(rules, t) {
      TaskIsRead(lib, rules, tenant, job, j, t);
    }
  }

  lemma KsaoRead(lib: Spelling, rules: TextRules, tenant: Uuid, job: Uuid, j: Json, k: KsaoRequirement)
    requires ParseKsao(lib, rules, tenant, job, j) == Some(k)
    ensures k.tenant == tenant && k.job == job && DescribesKsao(lib, j, k) && MeetsKsaoRules(rules, k)
  {
    PartsInFull(rules);
    SourceInFull(lib, rules, j.members[Source], k.source);
  }

  lemma KsaoIsRead(lib: Spelling, rules: TextRules, tenant: Uuid, job: Uuid, j: Json, k: KsaoRequirement)
    requires k.tenant == tenant && k.job == job && DescribesKsao(lib, j, k) && MeetsKsaoRules(rules, k)
    ensures ParseKsao(lib, rules, tenant, job, j) == Some(k)
  {
    PartsInFull(rules);
    SourceInFull(lib, rules, j.members[Source], k.source);
  }

  lemma KsaoInFull(lib: Spelling, rules: TextRules, tenant: Uuid, job: Uuid, j: Json, k: KsaoRequirement)
    ensures (ParseKsao(lib, rules, tenant, job, j) == Some(k) <==>
             k.tenant == tenant && k.job == job && DescribesKsao(lib, j, k) && MeetsKsaoRules(rules, k))
  {
    if ParseKsao(lib, rules, tenant, job, j) == Some(k) {
      KsaoRead(lib, rules, tenant, job, j, k);
    }
    if k.tenant == tenant && k.job == job && DescribesKsao(lib, j, k) && MeetsKsaoRules(rules, k) {
      KsaoIsRead(lib, rules, tenant, job, j, k);
    }
  }

  lemma LinkInFull(lib: Spelling, rules: TextRules, j: Json, l: TaskKsaoLink)
    ensures ParseLink(lib, j) == Some(l) <==> DescribesLink(lib, j, l) && MeetsLinkRules(l)
  {
    PartsInFull(rules);
  }

  lemma FjaRead(lib: Spelling, rules: TextRules, tenant: Uuid, job: Uuid, j: Json, f: FjaProfile)
    requires Operational(tenant) && Operational(job) && ParseFja(lib, rules, tenant, job, j) == Some(f)
    ensures f.tenant == tenant && f.job == job && DescribesFja(lib, j, f) && MeetsFjaRules(rules, f)
  {
    PartsInFull(rules);
    SourceInFull(lib, rules, j.members[Source], f.source);
  }

  lemma FjaIsRead(lib: Spelling, rules: TextRules, tenant: Uuid, job: Uuid, j: Json, f: FjaProfile)
    requires Operational(tenant) && Operational(job)
    requires f.tenant == tenant && f.job == job && DescribesFja(lib, j, f) && MeetsFjaRules(rules, f)
    ensures ParseFja(lib, rules, tenant, job, j) == Some(f)
  {
    PartsInFull(rules);
    SourceInFull(lib, rules, j.members[Source], f.source);
  }

  // ---------------------------------------------------------------- reading a document

  ghost predicate DescribesHeader(lib: Spelling, j: Json, s: Snapshot) {
    && SaysId(lib, j, AnalysisId, s.analysis) && SaysId(lib, j, TenantId, s.tenant) && SaysId(lib, j, JobId, s.job)
    && SaysText(j, AnalysisVersion, s.version) && SaysText(j, StatusCode, s.status)
    && EffectiveFrom in j.members && j.members[EffectiveFrom].JText?
    && lib.readDay(j.members[EffectiveFrom].text) == Some(s.effectiveFrom)
    && SaysInstant(lib, j, RecordedAt, s.recordedAt)
  }

  /** A review member that is absent or null says that there is none. */
  ghost predicate DescribesReview(lib: Spelling, j: Json, s: Snapshot) {
    && j.JObject?
    && (if ReviewedBy in j.members && j.members[ReviewedBy] != JNull
        then s.reviewer.Some? && SaysText(j, ReviewedBy, s.reviewer.value) else s.reviewer.None?)
    && (if ReviewedAt in j.members && j.members[ReviewedAt] != JNull
        then s.reviewedAt.Some? && SaysInstant(lib, j, ReviewedAt, s.reviewedAt.value) else s.reviewedAt.None?)
  }

  ghost predicate HasItems(j: Json, field: Field, count: nat) {
    j.JObject? && field in j.members && j.members[field].JList? && |j.members[field].items| == count
  }

  /** The lists item by item, in their order. */
  ghost predicate DescribesTasks(lib: Spelling, j: Json, s: Snapshot) {
    && HasItems(j, Tasks, |s.tasks|)
    && forall i :: 0 <= i < |s.tasks| ==> DescribesTask(lib, j.members[Tasks].items[i], s.tasks[i])
  }

  ghost predicate DescribesKsaos(lib: Spelling, j: Json, s: Snapshot) {
    && HasItems(j, Ksaos, |s.ksaos|)
    && forall i :: 0 <= i < |s.ksaos| ==> DescribesKsao(lib, j.members[Ksaos].items[i], s.ksaos[i])
  }

  ghost predicate DescribesLinks(lib: Spelling, j: Json, s: Snapshot) {
    && HasItems(j, Links, |s.links|)
    && forall i :: 0 <= i < |s.links| ==> DescribesLink(lib, j.members[Links].items[i], s.links[i])
  }

  ghost predicate DescribesEvidence(lib: Spelling, j: Json, s: Snapshot) {
    && DescribesTasks(lib, j, s) && DescribesKsaos(lib, j, s) && DescribesLinks(lib, j, s)
    && j.JObject? && Fja in j.members && DescribesFja(lib, j.members[Fja], s.fja)
  }

  ghost predicate Describes(lib: Spelling, j: Json, s: Snapshot) {
    && j.JObject?
    && j.members.Keys <= {AnalysisId, TenantId, JobId, AnalysisVersion, StatusCode, EffectiveFrom, RecordedAt,
                          Tasks, Ksaos, Links, Fja, ReviewedBy, ReviewedAt}
    && DescribesHeader(lib, j, s) && DescribesEvidence(lib, j, s) && DescribesReview(lib, j, s)
  }

  lemma TasksInFull(lib: Spelling, rules: TextRules, tenant: Uuid, job: Uuid, items: seq<Json>, ts: seq<TaskEvidence>)
    ensures (TryAll(items, TaskParser(lib, rules, tenant, job)) == Some(ts) <==>
             |items| == |ts| && forall i :: 0 <= i < |ts| ==>
               ts[i].tenant == tenant && ts[i].job == job && DescribesTask(lib, items[i], ts[i])
               && MeetsTaskRules(rules, ts[i]))
  {
    var make := TaskParser(lib, rules, tenant, job);
    if |items| == |ts| {
      forall i | 0 <= i < |ts|
        ensures make(items[i]) == Some(ts[i]) <==>
                ts[i].tenant == tenant && ts[i].job == job && DescribesTask(lib, items[i], ts[i])
                && MeetsTaskRules(rules, ts[i])
      {
        TaskInFull(lib, rules, tenant, job, items[i], ts[i]);
      }
      if forall i :: 0 <= i < |ts| ==> make(items[i]) == Some(ts[i]) {
        TryAllIs(items, make, ts);
      }
    }
  }

  lemma KsaosInFull(
    lib: Spelling, rules: TextRules, tenant: Uuid, job: Uuid, items: seq<Json>, ks: seq<KsaoRequirement>)
    ensures (TryAll(items, KsaoParser(lib, rules, tenant, job)) == Some(ks) <==>
             |items| == |ks| && forall i :: 0 <= i < |ks| ==>
               ks[i].tenant == tenant && ks[i].job == job && DescribesKsao(lib, items[i], ks[i])
               && MeetsKsaoRules(rules, ks[i]))
  {
    var make := KsaoParser(lib, rules, tenant, job);
    if |items| == |ks| {
      forall i | 0 <= i < |ks|
        ensures make(items[i]) == Some(ks[i]) <==>
                ks[i].tenant == tenant && ks[i].job == job && DescribesKsao(lib, items[i], ks[i])
                && MeetsKsaoRules(rules, ks[i])
      {
        KsaoInFull(lib, rules, tenant, job, items[i], ks[i]);
      }
      if forall i :: 0 <= i < |ks| ==> make(items[i]) == Some(ks[i]) {
        TryAllIs(items, make, ks);
      }
    }
  }

  lemma LinksInFull(lib: Spelling, rules: TextRules, items: seq<Json>, ls: seq<TaskKsaoLink>)
    ensures (TryAll(items, LinkParser(lib)) == Some(ls) <==>
             |items| == |ls| && forall i :: 0 <= i < |ls| ==>
               DescribesLink(lib, items[i], ls[i]) && MeetsLinkRules(ls[i]))
  {
    var make := LinkParser(lib);
    if |items| == |ls| {
      forall i | 0 <= i < |ls|
        ensures make(items[i]) == Some(ls[i]) <==> DescribesLink(lib, items[i], ls[i]) && MeetsLinkRules(ls[i])
      {
        LinkInFull(lib, rules, items[i], ls[i]);
      }
      if forall i :: 0 <= i < |ls| ==> make(items[i]) == Some(ls[i]) {
        TryAllIs(items, make, ls);
      }
    }
  }

  lemma TaskListInFull(lib: Spelling, rules: TextRules, j: Json, s: Snapshot)
    requires j.JObject?
    ensures (ParseTasks(lib, rules, s.tenant, s.job, Get(j, Tasks)) == Some(s.tasks) <==>
             && DescribesTasks(lib, j, s)
             && (forall t :: t in s.tasks ==> t.tenant == s.tenant && t.job == s.job && MeetsTaskRules(rules, t)))
  {
    if Tasks in j.members && j.members[Tasks].JList? {
      TasksInFull(lib, rules, s.tenant, s.job, j.members[Tasks].items, s.tasks);
    }
  }

  lemma KsaoListInFull(lib: Spelling, rules: TextRules, j: Json, s: Snapshot)
    requires j.JObject?
    ensures (ParseKsaos(lib, rules, s.tenant, s.job, Get(j, Ksaos)) == Some(s.ksaos) <==>
             && DescribesKsaos(lib, j, s)
             && (forall k :: k in s.ksaos ==> k.tenant == s.tenant && k.job == s.job && MeetsKsaoRules(rules, k)))
  {
    if Ksaos in j.members && j.members[Ksaos].JList? {
      KsaosInFull(lib, rules, s.tenant, s.job, j.members[Ksaos].items, s.ksaos);
    }
  }

  lemma LinkListInFull(lib: Spelling, rules: TextRules, j: Json, s: Snapshot)
    requires j.JObject?
    ensures (ParseLinks(lib, Get(j, Links)) == Some(s.links) <==>
             DescribesLinks(lib, j, s) && forall l :: l in s.links ==> MeetsLinkRules(l))
  {
    if Links in j.members && j.members[Links].JList? {
      LinksInFull(lib, rules, j.members[Links].items, s.links);
    }
  }

  lemma FjaMemberInFull(lib: Spelling, rules: TextRules, j: Json, s: Snapshot)
    requires j.JObject? && Operational(s.tenant) && Operational(s.job)
    ensures (ParseFja(lib, rules, s.tenant, s.job, Get(j, Fja)) == Some(s.fja) <==>
             && Fja in j.members && DescribesFja(lib, j.members[Fja], s.fja)
             && s.fja.tenant == s.tenant && s.fja.job == s.job && MeetsFjaRules(rules, s.fja))
  {
    if ParseFja(lib, rules, s.tenant, s.job, Get(j, Fja)) == Some(s.fja) {
      FjaRead(lib, rules, s.tenant, s.job, Get(j, Fja), s.fja);
    }
    if Fja in j.members && DescribesFja(lib, j.members[Fja], s.fja) && s.fja.tenant == s.tenant && s.fja.job == s.job
       && MeetsFjaRules(rules, s.fja)
    {
      FjaIsRead(lib, rules, s.tenant, s.job, Get(j, Fja), s.fja);
    }
  }

  /** The parts of the evidence together. */
  ghost predicate EvidenceParts(lib: Spelling, rules: TextRules, j: Json, s: Snapshot)
    requires j.JObject?
  {
    && (DescribesTasks(lib, j, s)
        && forall t :: t in s.tasks ==> t.tenant == s.tenant && t.job == s.job && MeetsTaskRules(rules, t))
    && (DescribesKsaos(lib, j, s)
        && forall k :: k in s.ksaos ==> k.tenant == s.tenant && k.job == s.job && MeetsKsaoRules(rules, k))
    && (DescribesLinks(lib, j, s) && forall l :: l in s.links ==> MeetsLinkRules(l))
    && Fja in j.members && DescribesFja(lib, j.members[Fja], s.fja)
    && s.fja.tenant == s.tenant && s.fja.job == s.job && MeetsFjaRules(rules, s.fja)
  }

  lemma PartsTogether(lib: Spelling, rules: TextRules, j: Json, s: Snapshot)
    requires j.JObject?
    ensures EvidenceParts(lib, rules, j, s) <==> DescribesEvidence(lib, j, s) && SharesScope(s) && PartsMeet(rules, s)
  {
  }

  /** Each part parses to its own. */
  ghost predicate PartsParse(lib: Spelling, rules: TextRules, j: Json, s: Snapshot)
    requires j.JObject? && Operational(s.tenant) && Operational(s.job)
  {
    && ParseTasks(lib, rules, s.tenant, s.job, Get(j, Tasks)) == Some(s.tasks)
    && ParseKsaos(lib, rules, s.tenant, s.job, Get(j, Ksaos)) == Some(s.ksaos)
    && ParseLinks(lib, Get(j, Links)) == Some(s.links)
    && ParseFja(lib, rules, s.tenant, s.job, Get(j, Fja)) == Some(s.fja)
  }

  lemma EvidenceByPart(lib: Spelling, rules: TextRules, j: Json, s: Snapshot)
    requires j.JObject? && Operational(s.tenant) && Operational(s.job)
    ensures (ParseEvidence(lib, rules, s.tenant, s.job, j) == Some(Evidence(s.tasks, s.ksaos, s.links, s.fja)) <==>
             PartsParse(lib, rules, j, s))
  {
  }

  lemma PartsParseInFull(lib: Spelling, rules: TextRules, j: Json, s: Snapshot)
    requires j.JObject? && Operational(s.tenant) && Operational(s.job)
    ensures PartsParse(lib, rules, j, s) <==> EvidenceParts(lib, rules, j, s)
  {
    TaskListInFull(lib, rules, j, s);
    KsaoListInFull(lib, rules, j, s);
    LinkListInFull(lib, rules, j, s);
    FjaMemberInFull(lib, rules, j, s);
  }

  lemma EvidenceInFull(lib: Spelling, rules: TextRules, j: Json, s: Snapshot)
    requires j.JObject? && Operational(s.tenant) && Operational(s.job)
    ensures (ParseEvidence(lib, rules, s.tenant, s.job, j) == Some(Evidence(s.tasks, s.ksaos, s.links, s.fja)) <==>
             EvidenceParts(lib, rules, j, s))
  {
    EvidenceByPart(lib, rules, j, s);
    PartsParseInFull(lib, rules, j, s);
  }

  function HeaderOfSnapshot(s: Snapshot): Header {
    Header(s.analysis, s.tenant, s.job, s.version, s.status, s.effectiveFrom, s.recordedAt, s.reviewer, s.reviewedAt)
  }

  lemma HeaderInFull(lib: Spelling, j: Json, s: Snapshot)
    requires j.JObject?
    ensures (&& AsId(lib, Get(j, TenantId)) == Some(s.tenant) && AsId(lib, Get(j, JobId)) == Some(s.job)
             && ParseRest(lib, s.tenant, s.job, j) == Some(HeaderOfSnapshot(s)) <==>
             DescribesHeader(lib, j, s) && DescribesReview(lib, j, s))
  {
  }

  lemma BodyParses(lib: Spelling, rules: TextRules, j: Json, s: Snapshot)
    requires j.JObject? && Operational(s.tenant) && Operational(s.job)
    ensures (ParseBody(lib, rules, s.tenant, s.job, j) == Some(s) <==>
             && (ParseEvidence(lib, rules, s.tenant, s.job, j) == Some(Evidence(s.tasks, s.ksaos, s.links, s.fja)))
             && ParseRest(lib, s.tenant, s.job, j) == Some(HeaderOfSnapshot(s))
             && Consistent(rules, s))
  {
  }

  lemma SnapshotParses(lib: Spelling, rules: TextRules, tenant: Uuid, j: Json, s: Snapshot)
    ensures (ParseSnapshot(lib, rules, tenant, j) == Some(s) <==>
             && IsObject(j, SNAPSHOT_FIELDS) && s.tenant == tenant
             && AsId(lib, Get(j, TenantId)) == Some(s.tenant) && AsId(lib, Get(j, JobId)) == Some(s.job)
             && ParseBody(lib, rules, s.tenant, s.job, j) == Some(s))
  {
  }

  /** A posted document is read as a snapshot exactly when it describes that snapshot member by member, for the posting
      tenant, within the limits on the three lists, and the snapshot meets every rule of its parts and of the whole. */
  lemma ReadInFull(lib: Spelling, rules: TextRules, tenant: Uuid, j: Json, s: Snapshot)
    ensures (Read(lib, rules, tenant, j) == Some(s) <==>
             && s.tenant == tenant && Describes(lib, j, s) && MeetsAllRules(rules, s)
             && |s.tasks| <= 500 && |s.ksaos| <= 500 && |s.links| <= 5000)
  {
    ConsistentInFull(rules, s);
    SnapshotParses(lib, rules, tenant, j, s);
    if j.JObject? {
      HeaderInFull(lib, j, s);
      if Operational(s.tenant) && Operational(s.job) {
        BodyParses(lib, rules, j, s);
        EvidenceInFull(lib, rules, j, s);
        PartsTogether(lib, rules, j, s);
      }
    }
  }

  // ---------------------------------------------------------------- printing

  /** The order of a printed document: ascending identifiers, and links by task and then by requirement. */
  ghost predicate IsAscending(s: Snapshot) {
    && (forall i, j :: 0 <= i < j < |s.tasks| ==> s.tasks[i].task < s.tasks[j].task)
    && (forall i, j :: 0 <= i < j < |s.ksaos| ==> s.ksaos[i].ksao < s.ksaos[j].ksao)
    && (forall i, j :: 0 <= i < j < |s.links| ==>
          s.links[i].task < s.links[j].task
          || (s.links[i].task == s.links[j].task && s.links[i].ksao < s.links[j].ksao))
  }

  lemma CanonicalAscends(rules: TextRules, s: Snapshot)
    requires ValidSnapshot(rules, s)
    ensures IsAscending(Canonical(s))
  {
    CanonicalForm(rules, s);
    SortSorts(s.tasks, TaskKey());
    SortSorts(s.ksaos, KsaoKey());
    SortSorts(s.links, LinkKey());
    var c := Canonical(s);
    assert Distinct(c.tasks, TaskKey()) && Distinct(c.ksaos, KsaoKey()) && Distinct(c.links, LinkKey());
    AscendingByKey(c.tasks, TaskKey());
    AscendingByKey(c.ksaos, KsaoKey());
    AscendingByKey(c.links, LinkKey());
  }

  lemma AscendingByKey<T>(xs: seq<T>, key: T -> Key)
    requires Ordered(xs, key) && Distinct(xs, key)
    ensures forall i, j :: 0 <= i < j < |xs| ==>
              key(xs[i]).first < key(xs[j]).first
              || (key(xs[i]).first == key(xs[j]).first && key(xs[i]).second < key(xs[j]).second)
  {
    forall i, j | 0 <= i < j < |xs|
      ensures key(xs[i]).first < key(xs[j]).first
              || (key(xs[i]).first == key(xs[j]).first && key(xs[i]).second < key(xs[j]).second)
    {
      assert !Before(key(xs[j]), key(xs[i])) && key(xs[i]) != key(xs[j]);
    }
  }

  /** A printed snapshot describes, member by member, the same evidence in ascending order. */
  lemma PrintInFull(lib: Spelling, rules: TextRules, s: Snapshot)
    requires Lawful(lib) && ValidSnapshot(rules, s)
    ensures Describes(lib, Print(lib, s), Canonical(s))
    ensures SameEvidence(s, Canonical(s)) && IsAscending(Canonical(s))
  {
    var j, c := Print(lib, s), Canonical(s);
    CanonicalForm(rules, s);
    CanonicalAscends(rules, s);
    PrintThenParse(lib, rules, s.tenant, s);
    ParsedIsDescribed(lib, rules, j, c);
  }

  lemma ParsedIsDescribed(lib: Spelling, rules: TextRules, j: Json, s: Snapshot)
    requires ParseSnapshot(lib, rules, s.tenant, j) == Some(s)
    ensures Describes(lib, j, s)
  {
    SnapshotParses(lib, rules, s.tenant, j, s);
    HeaderInFull(lib, j, s);
    BodyParses(lib, rules, j, s);
    EvidenceInFull(lib, rules, j, s);
    PartsTogether(lib, rules, j, s);
  }
}
