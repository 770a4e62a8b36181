/** Job-analysis evidence: what each constructor accepts and normalizes, and when a snapshot is consistent. */
module JobAnalysis {
  import opened Prelude
  import opened Facts
  import opened Sorting
  import opened Text

  /** Library decisions on strings: the HTTPS URI rule, and the three regular expressions. */
  datatype TextRules = TextRules(
    uri: string -> bool, version: string -> bool, digest: string -> bool, reference: string -> bool)

  const MAX_UUID: int := 0xFFFF_FFFF_FFFF_FFFF_FFFF_FFFF_FFFF_FFFF

  predicate Operational(id: Uuid) {
    0 < id < MAX_UUID
  }

  predicate IsLevel(level: int) {
    1 <= level <= 5
  }

  datatype EvidenceSource = EvidenceSource(
    uri: string, title: string, version: string, retrievedAt: int, digest: string, origin: string)

  datatype TaskEvidence = TaskEvidence(
    tenant: Uuid, job: Uuid, task: Uuid, statement: string, importance: int, difficulty: int, source: EvidenceSource)

  datatype KsaoRequirement = KsaoRequirement(
    tenant: Uuid, job: Uuid, ksao: Uuid, category: string, statement: string, importance: int, proficiency: int,
    source: EvidenceSource)

  datatype FjaProfile = FjaProfile(
    tenant: Uuid, job: Uuid, dataCode: int, peopleCode: int, thingsCode: int, source: EvidenceSource)

  datatype TaskKsaoLink = TaskKsaoLink(task: Uuid, ksao: Uuid, strength: int, essential: bool)

  datatype Snapshot = Snapshot(
    analysis: Uuid, tenant: Uuid, job: Uuid, version: string, status: string, effectiveFrom: int, recordedAt: int,
    tasks: seq<TaskEvidence>, ksaos: seq<KsaoRequirement>, links: seq<TaskKsaoLink>, fja: FjaProfile,
    reviewer: Option<string>, reviewedAt: Option<int>)

  predicate AllowedOrigin(origin: string) {
    origin in ["authoritative_occupation_source", "job_incumbent", "supervisor_sme",
               "occupational_expert", "web_research", "llm_draft"]
  }

  predicate AllowedCategory(category: string) {
    category in ["knowledge_requirement", "skill_requirement", "ability_requirement", "other_characteristic"]
  }

  // ---------------------------------------------------------------- values and their constructors

  /** Text at rest: already normalized, and long enough. */
  predicate IsText(text: string, minimum: nat) {
    Normalize(text) == text && |text| >= minimum
  }

  /** Constructing normalizes; text that is already normalized is left alone. */
  function MakeText(raw: string, minimum: nat): (r: Option<string>)
    ensures r.Some? <==> |Normalize(raw)| >= minimum
    ensures r.Some? ==> r.value == Normalize(raw) && IsText(r.value, minimum) && Split(r.value) == Split(raw)
    ensures IsText(raw, minimum) <==> r == Some(raw)
  {
    NormalizeTwice(raw);
    NormalizeKeepsWords(raw);
    var text := Normalize(raw);
    if |text| < minimum then None else Some(text)
  }

  predicate ValidSource(rules: TextRules, s: EvidenceSource) {
    && rules.uri(s.uri) && IsText(s.title, 3) && rules.version(s.version)
    && rules.digest(s.digest) && AllowedOrigin(s.origin)
  }

  /** A constructor accepts what is valid once normalized, and returns exactly the valid values unchanged. */
  function MakeSource(rules: TextRules, raw: EvidenceSource): (r: Option<EvidenceSource>)
    ensures r.Some? <==> ValidSource(rules, raw.(title := Normalize(raw.title)))
    ensures r.Some? ==> r.value == raw.(title := Normalize(raw.title))
    ensures ValidSource(rules, raw) <==> r == Some(raw)
  {
    var title :- MakeText(raw.title, 3);
    if rules.uri(raw.uri) && rules.version(raw.version) && rules.digest(raw.digest) && AllowedOrigin(raw.origin)
    then Some(raw.(title := title)) else None
  }

  predicate ValidTask(rules: TextRules, t: TaskEvidence) {
    && Operational(t.tenant) && Operational(t.job) && Operational(t.task)
    && IsText(t.statement, 10) && IsLevel(t.importance) && IsLevel(t.difficulty)
    && ValidSource(rules, t.source)
  }

  function MakeTask(rules: TextRules, raw: TaskEvidence): (r: Option<TaskEvidence>)
    requires ValidSource(rules, raw.source)
    ensures r.Some? <==> ValidTask(rules, raw.(statement := Normalize(raw.statement)))
    ensures r.Some? ==> r.value == raw.(statement := Normalize(raw.statement))
    ensures ValidTask(rules, raw) <==> r == Some(raw)
  {
    var statement :- MakeText(raw.statement, 10);
    if Operational(raw.tenant) && Operational(raw.job) && Operational(raw.task) &&
       IsLevel(raw.importance) && IsLevel(raw.difficulty)
    then Some(raw.(statement := statement)) else None
  }

  predicate ValidKsao(rules: TextRules, k: KsaoRequirement) {
    && Operational(k.tenant) && Operational(k.job) && Operational(k.ksao)
    && AllowedCategory(k.category)
    && IsText(k.statement, 10) && IsLevel(k.importance) && IsLevel(k.proficiency)
    && ValidSource(rules, k.source)
  }

  function MakeKsao(rules: TextRules, raw: KsaoRequirement): (r: Option<KsaoRequirement>)
    requires ValidSource(rules, raw.source)
    ensures r.Some? <==> ValidKsao(rules, raw.(statement := Normalize(raw.statement)))
    ensures r.Some? ==> r.value == raw.(statement := Normalize(raw.statement))
    ensures ValidKsao(rules, raw) <==> r == Some(raw)
  {
    var statement :- MakeText(raw.statement, 10);
    if Operational(raw.tenant) && Operational(raw.job) && Operational(raw.ksao) &&
       AllowedCategory(raw.category) && IsLevel(raw.importance) && IsLevel(raw.proficiency)
    then Some(raw.(statement := statement)) else None
  }

  predicate ValidFja(rules: TextRules, f: FjaProfile) {
    && Operational(f.tenant) && Operational(f.job)
    && 0 <= f.dataCode <= 6 && 0 <= f.peopleCode <= 8 && 0 <= f.thingsCode <= 7
    && ValidSource(rules, f.source)
  }

  function MakeFja(rules: TextRules, raw: FjaProfile): (r: Option<FjaProfile>)
    requires ValidSource(rules, raw.source)
    ensures r.Some? ==> ValidFja(rules, r.value)
    ensures ValidFja(rules, raw) <==> r == Some(raw)
  {
    if Operational(raw.tenant) && Operational(raw.job) &&
       0 <= raw.dataCode <= 6 && 0 <= raw.peopleCode <= 8 && 0 <= raw.thingsCode <= 7
    then Some(raw) else None
  }

  predicate ValidLink(l: TaskKsaoLink) {
    Operational(l.task) && Operational(l.ksao) && IsLevel(l.strength)
  }

  function MakeLink(raw: TaskKsaoLink): (r: Option<TaskKsaoLink>)
    ensures r.Some? ==> ValidLink(r.value)
    ensures ValidLink(raw) <==> r == Some(raw)
  {
    if ValidLink(raw) then Some(raw) else None
  }

  // ---------------------------------------------------------------- snapshots

  function TaskKey(): TaskEvidence -> Key {
    (t: TaskEvidence) => Key(t.task, 0)
  }

  function KsaoKey(): KsaoRequirement -> Key {
    (k: KsaoRequirement) => Key(k.ksao, 0)
  }

  function LinkKey(): TaskKsaoLink -> Key {
    (l: TaskKsaoLink) => Key(l.task, l.ksao)
  }

  /** Every element was built by its constructor. */
  ghost predicate PartsValid(rules: TextRules, s: Snapshot) {
    && (forall t :: t in s.tasks ==> ValidTask(rules, t))
    && (forall k :: k in s.ksaos ==> ValidKsao(rules, k))
    && (forall l :: l in s.links ==> ValidLink(l))
    && ValidFja(rules, s.fja)
  }

  predicate HeaderValid(rules: TextRules, s: Snapshot) {
    && Operational(s.analysis) && Operational(s.tenant) && Operational(s.job)
    && rules.version(s.version)
    && s.status in ["analysis_draft", "analysis_validated"]
    && s.tasks != [] && s.ksaos != [] && s.links != []
  }

  predicate SharesScope(s: Snapshot) {
    && (forall t :: t in s.tasks ==> t.tenant == s.tenant && t.job == s.job)
    && (forall k :: k in s.ksaos ==> k.tenant == s.tenant && k.job == s.job)
    && s.fja.tenant == s.tenant && s.fja.job == s.job
  }

  /** All evidence had been retrieved by the given instant. */
  predicate RetrievedBy(s: Snapshot, instant: int) {
    && (forall t :: t in s.tasks ==> t.source.retrievedAt <= instant)
    && (forall k :: k in s.ksaos ==> k.source.retrievedAt <= instant)
    && s.fja.source.retrievedAt <= instant
  }

  function TaskIds(s: Snapshot): set<Uuid> {
    set t | t in s.tasks :: t.task
  }

  function KsaoIds(s: Snapshot): set<Uuid> {
    set k | k in s.ksaos :: k.ksao
  }

  function LinkedTaskIds(s: Snapshot): set<Uuid> {
    set l | l in s.links :: l.task
  }

  function LinkedKsaoIds(s: Snapshot): set<Uuid> {
    set l | l in s.links :: l.ksao
  }

  /** Both ends of every link are listed. */
  ghost predicate LinksResolve(s: Snapshot) {
    LinkedTaskIds(s) <= TaskIds(s) && LinkedKsaoIds(s) <= KsaoIds(s)
  }

  /** Every task supports, and every requirement is supported by, at least one link. */
  ghost predicate EverythingLinked(s: Snapshot) {
    TaskIds(s) <= LinkedTaskIds(s) && KsaoIds(s) <= LinkedKsaoIds(s)
  }

  predicate NoDraftEvidence(s: Snapshot) {
    && (forall t :: t in s.tasks ==> t.source.origin != "llm_draft")
    && (forall k :: k in s.ksaos ==> k.source.origin != "llm_draft")
    && s.fja.source.origin != "llm_draft"
  }

  predicate ReviewValid(rules: TextRules, s: Snapshot) {
    && s.reviewer.Some? == s.reviewedAt.Some?
    && (s.reviewer.Some? ==> rules.reference(s.reviewer.value) && s.reviewedAt.value <= s.recordedAt &&
                             RetrievedBy(s, s.reviewedAt.value))
  }

  /** No task, requirement or link pair is listed twice. */
  ghost predicate DistinctIdentities(s: Snapshot) {
    Distinct(s.tasks, TaskKey()) && Distinct(s.ksaos, KsaoKey()) && Distinct(s.links, LinkKey())
  }

  /** What the evidence rules say of a whole snapshot. */
  ghost predicate Consistent(rules: TextRules, s: Snapshot) {
    && HeaderValid(rules, s)
    && SharesScope(s)
    && RetrievedBy(s, s.recordedAt)
    && DistinctIdentities(s) && LinksResolve(s)
    && ReviewValid(rules, s)
    && (s.status == "analysis_validated" ==> s.reviewer.Some? && EverythingLinked(s) && NoDraftEvidence(s))
  }

  ghost predicate ValidSnapshot(rules: TextRules, s: Snapshot) {
    PartsValid(rules, s) && Consistent(rules, s)
  }

  // ---------------------------------------------------------------- the same rules, written out

  /** A record identifier: neither the nil nor the max UUID. */
  predicate IsRecordId(id: Uuid) {
    0 < id < 0xFFFF_FFFF_FFFF_FFFF_FFFF_FFFF_FFFF_FFFF
  }

  ghost predicate MeetsHeaderRules(rules: TextRules, s: Snapshot) {
    && IsRecordId(s.analysis) && IsRecordId(s.tenant) && IsRecordId(s.job) && rules.version(s.version)
    && (s.status == "analysis_draft" || s.status == "analysis_validated")
    && |s.tasks| > 0 && |s.ksaos| > 0 && |s.links| > 0
  }

  /** All evidence is of the tenant and the job. */
  ghost predicate IsOfOneJob(s: Snapshot) {
    && (forall t :: t in s.tasks ==> t.tenant == s.tenant && t.job == s.job)
    && (forall k :: k in s.ksaos ==> k.tenant == s.tenant && k.job == s.job)
    && s.fja.tenant == s.tenant && s.fja.job == s.job
  }

  ghost predicate IsRetrievedBy(s: Snapshot, instant: int) {
    && (forall t :: t in s.tasks ==> t.source.retrievedAt <= instant)
    && (forall k :: k in s.ksaos ==> k.source.retrievedAt <= instant)
    && s.fja.source.retrievedAt <= instant
  }

  ghost predicate NothingListedTwice(s: Snapshot) {
    && (forall i, j :: 0 <= i < j < |s.tasks| ==> s.tasks[i].task != s.tasks[j].task)
    && (forall i, j :: 0 <= i < j < |s.ksaos| ==> s.ksaos[i].ksao != s.ksaos[j].ksao)
    && (forall i, j :: 0 <= i < j < |s.links| ==>
          s.links[i].task != s.links[j].task || s.links[i].ksao != s.links[j].ksao)
  }

  ghost predicate EndsAreListed(s: Snapshot) {
    && (forall l :: l in s.links ==> exists t :: t in s.tasks && t.task == l.task)
    && (forall l :: l in s.links ==> exists k :: k in s.ksaos && k.ksao == l.ksao)
  }

  ghost predicate LinksEverything(s: Snapshot) {
    && (forall t :: t in s.tasks ==> exists l :: l in s.links && l.task == t.task)
    && (forall k :: k in s.ksaos ==> exists l :: l in s.links && l.ksao == k.ksao)
  }

  ghost predicate HasNoDraft(s: Snapshot) {
    && (forall t :: t in s.tasks ==> t.source.origin != "llm_draft")
    && (forall k :: k in s.ksaos ==> k.source.origin != "llm_draft")
    && s.fja.source.origin != "llm_draft"
  }

  /** Reviewed by nobody, or by someone named, after all evidence was retrieved and before recording. */
  ghost predicate MeetsReviewRules(rules: TextRules, s: Snapshot) {
    && (s.reviewer.None? <==> s.reviewedAt.None?)
    && (s.reviewer.Some? ==> rules.reference(s.reviewer.value) && s.reviewedAt.value <= s.recordedAt
                             && IsRetrievedBy(s, s.reviewedAt.value))
  }

  /** The rules, on the fields of the snapshot alone. */
  ghost predicate MeetsEvidenceRules(rules: TextRules, s: Snapshot) {
    && MeetsHeaderRules(rules, s) && IsOfOneJob(s) && IsRetrievedBy(s, s.recordedAt)
    && NothingListedTwice(s) && EndsAreListed(s) && MeetsReviewRules(rules, s)
    && (s.status == "analysis_validated" ==> s.reviewer.Some? && LinksEverything(s) && HasNoDraft(s))
  }

  lemma DistinctInFull(s: Snapshot)
    ensures DistinctIdentities(s) <==> NothingListedTwice(s)
  {
    assert (Distinct(s.tasks, TaskKey()) <==>
            forall i, j :: 0 <= i < j < |s.tasks| ==> s.tasks[i].task != s.tasks[j].task);
    assert (Distinct(s.ksaos, KsaoKey()) <==>
            forall i, j :: 0 <= i < j < |s.ksaos| ==> s.ksaos[i].ksao != s.ksaos[j].ksao);
  }

  lemma EndsInFull(s: Snapshot)
    ensures LinksResolve(s) <==> EndsAreListed(s)
  {
    if LinksResolve(s) {
      forall l | l in s.links ensures exists t :: t in s.tasks && t.task == l.task {
        assert l.task in LinkedTaskIds(s);
        assert l.task in TaskIds(s);
      }
      forall l | l in s.links ensures exists k :: k in s.ksaos && k.ksao == l.ksao {
        assert l.ksao in LinkedKsaoIds(s);
        assert l.ksao in KsaoIds(s);
      }
    }
  }

  lemma LinkedInFull(s: Snapshot)
    ensures EverythingLinked(s) <==> LinksEverything(s)
  {
    if EverythingLinked(s) {
      forall t | t in s.tasks ensures exists l :: l in s.links && l.task == t.task {
        assert t.task in TaskIds(s);
      }
      forall k | k in s.ksaos ensures exists l :: l in s.links && l.ksao == k.ksao {
        assert k.ksao in KsaoIds(s);
      }
    }
  }

  lemma HeaderRulesInFull(rules: TextRules, s: Snapshot)
    ensures HeaderValid(rules, s) <==> MeetsHeaderRules(rules, s)
    ensures SharesScope(s) <==> IsOfOneJob(s)
    ensures forall at :: RetrievedBy(s, at) <==> IsRetrievedBy(s, at)
    ensures NoDraftEvidence(s) <==> HasNoDraft(s)
  {
  }

  lemma ReviewInFull(rules: TextRules, s: Snapshot)
    ensures ReviewValid(rules, s) <==> MeetsReviewRules(rules, s)
  {
  }

  lemma ConsistentInFull(rules: TextRules, s: Snapshot)
    ensures Consistent(rules, s) <==> MeetsEvidenceRules(rules, s)
  {
    HeaderRulesInFull(rules, s);
    DistinctInFull(s);
    EndsInFull(s);
    LinkedInFull(s);
    ReviewInFull(rules, s);
  }

  /** No other rule looks at the status. */
  lemma StatusAside(rules: TextRules, s: Snapshot, status: string)
    ensures var t := s.(status := status);
            && IsOfOneJob(t) == IsOfOneJob(s) && IsRetrievedBy(t, t.recordedAt) == IsRetrievedBy(s, s.recordedAt)
            && NothingListedTwice(t) == NothingListedTwice(s) && EndsAreListed(t) == EndsAreListed(s)
            && LinksEverything(t) == LinksEverything(s) && HasNoDraft(t) == HasNoDraft(s)
    ensures MeetsReviewRules(rules, s.(status := status)) == MeetsReviewRules(rules, s)
  {
  }

  /** Validation asks for more than a draft does, and for nothing else: a reviewer, every task and requirement linked,
      and no evidence from a language model. */
  lemma ValidatingADraft(rules: TextRules, s: Snapshot)
    ensures (MeetsEvidenceRules(rules, s.(status := "analysis_validated")) <==>
             && MeetsEvidenceRules(rules, s.(status := "analysis_draft"))
             && s.reviewer.Some? && LinksEverything(s) && HasNoDraft(s))
  {
    var draft, validated := s.(status := "analysis_draft"), s.(status := "analysis_validated");
    assert draft.status != validated.status by {
      assert |"analysis_draft"| != |"analysis_validated"|;
    }
    StatusAside(rules, s, "analysis_draft");
    StatusAside(rules, s, "analysis_validated");
    assert MeetsHeaderRules(rules, draft) <==> MeetsHeaderRules(rules, validated);
  }

  /** The link loop: every end is known and no pair is repeated. */
  method CheckLinks(s: Snapshot) returns (ok: bool)
    ensures ok <==> LinksResolve(s) && Distinct(s.links, LinkKey())
  {
    var tasks, ksaos := TaskIds(s), KsaoIds(s);
    var pairs: set<Key> := {};
    for i := 0 to |s.links|
      invariant forall j :: 0 <= j < i ==> s.links[j].task in tasks && s.links[j].ksao in ksaos
      invariant forall p :: p in pairs <==> exists j :: 0 <= j < i && LinkKey()(s.links[j]) == p
      invariant forall j, k :: 0 <= j < k < i ==> LinkKey()(s.links[j]) != LinkKey()(s.links[k])
    {
      var link := s.links[i];
      if link.task !in tasks || link.ksao !in ksaos {
        assert link.task in LinkedTaskIds(s) && link.ksao in LinkedKsaoIds(s);
        return false;
      }
      if Key(link.task, link.ksao) in pairs {
        assert LinkKey()(link) in pairs;
        return false;
      }
      pairs := pairs + {Key(link.task, link.ksao)};
    }
    ok := true;
  }

  /** The snapshot constructor accepts exactly the snapshots that meet the evidence rules; what it accepts as validated
      holds nothing drafted by a language model. */
  method CheckSnapshot(rules: TextRules, s: Snapshot) returns (ok: bool)
    ensures ok <==> Consistent(rules, s)
    ensures ok <==> MeetsEvidenceRules(rules, s)
    ensures ok && s.status == "analysis_validated" ==>
              && (forall t :: t in s.tasks ==> t.source.origin != "llm_draft")
              && (forall k :: k in s.ksaos ==> k.source.origin != "llm_draft")
              && s.fja.source.origin != "llm_draft"
  {
    ok := RunChecks(rules, s);
    ConsistentInFull(rules, s);
  }

  /** The checks in their order. */
  method RunChecks(rules: TextRules, s: Snapshot) returns (ok: bool)
    ensures ok <==> Consistent(rules, s)
  {
    if !HeaderValid(rules, s) || !SharesScope(s) || !RetrievedBy(s, s.recordedAt) {
      return false;
    }
    DistinctIsSize(s.tasks, TaskKey());
    DistinctIsSize(s.ksaos, KsaoKey());
    if |s.tasks| != |Keys(s.tasks, TaskKey())| || |s.ksaos| != |Keys(s.ksaos, KsaoKey())| {
      return false;
    }
    ok := CheckLinks(s);
    if !ok || !ReviewValid(rules, s) {
      return false;
    }
    if s.status == "analysis_validated" {
      if s.reviewer.None? {
        return false;
      }
      return LinkedTaskIds(s) == TaskIds(s) && LinkedKsaoIds(s) == KsaoIds(s) && NoDraftEvidence(s);
    }
  }

  // ---------------------------------------------------------------- order is not evidence

  /** The same evidence, listed in some order. */
  ghost predicate SameEvidence(s: Snapshot, t: Snapshot) {
    && t.(tasks := s.tasks, ksaos := s.ksaos, links := s.links) == s
    && multiset(s.tasks) == multiset(t.tasks)
    && multiset(s.ksaos) == multiset(t.ksaos)
    && multiset(s.links) == multiset(t.links)
  }

  lemma SameMembers(s: Snapshot, t: Snapshot)
    requires SameEvidence(s, t)
    ensures forall x :: x in s.tasks <==> x in t.tasks
    ensures forall x :: x in s.ksaos <==> x in t.ksaos
    ensures forall x :: x in s.links <==> x in t.links
    ensures |s.tasks| == |t.tasks| && |s.ksaos| == |t.ksaos| && |s.links| == |t.links|
  {
    PermutationMembers(s.tasks, t.tasks);
    PermutationMembers(s.ksaos, t.ksaos);
    PermutationMembers(s.links, t.links);
  }

  lemma SameIds(s: Snapshot, t: Snapshot)
    requires SameEvidence(s, t)
    ensures TaskIds(s) == TaskIds(t) && KsaoIds(s) == KsaoIds(t)
    ensures LinkedTaskIds(s) == LinkedTaskIds(t) && LinkedKsaoIds(s) == LinkedKsaoIds(t)
  {
    SameMembers(s, t);
  }

  /** Reordering tasks, requirements or links never changes whether a snapshot is accepted. */
  lemma ValidityForgetsOrder(rules: TextRules, s: Snapshot, t: Snapshot)
    requires SameEvidence(s, t)
    requires ValidSnapshot(rules, s)
    ensures ValidSnapshot(rules, t)
  {
    SameMembers(s, t);
    SameIds(s, t);
    DistinctPermuted(s.tasks, t.tasks, TaskKey());
    DistinctPermuted(s.ksaos, t.ksaos, KsaoKey());
    DistinctPermuted(s.links, t.links, LinkKey());
  }

  /** The snapshot with its three lists sorted by identifier. */
  function Canonical(s: Snapshot): Snapshot {
    s.(tasks := Sort(s.tasks, TaskKey()), ksaos := Sort(s.ksaos, KsaoKey()), links := Sort(s.links, LinkKey()))
  }

  /** The canonical order keeps the evidence, and is the same for every listing of it. */
  lemma CanonicalForm(rules: TextRules, s: Snapshot)
    requires ValidSnapshot(rules, s)
    ensures SameEvidence(s, Canonical(s)) && ValidSnapshot(rules, Canonical(s))
    ensures Canonical(Canonical(s)) == Canonical(s)
  {
    SortSorts(s.tasks, TaskKey());
    SortSorts(s.ksaos, KsaoKey());
    SortSorts(s.links, LinkKey());
    ValidityForgetsOrder(rules, s, Canonical(s));
    SortOfOrdered(Sort(s.tasks, TaskKey()), TaskKey());
    SortOfOrdered(Sort(s.ksaos, KsaoKey()), KsaoKey());
    SortOfOrdered(Sort(s.links, LinkKey()), LinkKey());
  }

  lemma CanonicalForgetsOrder(s: Snapshot, t: Snapshot)
    requires DistinctIdentities(s) && SameEvidence(s, t)
    ensures Canonical(s) == Canonical(t)
  {
    SortForgetsOrder(s.tasks, t.tasks, TaskKey());
    SortForgetsOrder(s.ksaos, t.ksaos, KsaoKey());
    SortForgetsOrder(s.links, t.links, LinkKey());
  }
}
