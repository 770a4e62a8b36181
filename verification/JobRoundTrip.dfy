/** Printing and parsing a job-analysis document undo each other, whatever the order of its lists. */
module JobRoundTrip {
  import opened Prelude
  import opened Facts
  import opened JobAnalysis
  import opened JobDocument
  import opened Text

  lemma SourceRoundTrip(lib: Spelling, rules: TextRules, s: EvidenceSource)
    requires Lawful(lib) && ValidSource(rules, s)
    ensures ParseSource(lib, rules, PrintSource(lib, s)) == Some(s)
  {
  }

  lemma TaskRoundTrip(lib: Spelling, rules: TextRules, t: TaskEvidence)
    requires Lawful(lib) && ValidTask(rules, t)
    ensures ParseTask(lib, rules, t.tenant, t.job, TaskPrinter(lib)(t)) == Some(t)
  {
    SourceRoundTrip(lib, rules, t.source);
  }

  lemma KsaoRoundTrip(lib: Spelling, rules: TextRules, k: KsaoRequirement)
    requires Lawful(lib) && ValidKsao(rules, k)
    ensures ParseKsao(lib, rules, k.tenant, k.job, KsaoPrinter(lib)(k)) == Some(k)
  {
    var j := KsaoPrinter(lib)(k);
    assert IsObject(j, KSAO_FIELDS);
    SourceRoundTrip(lib, rules, k.source);
    assert AsId(lib, Get(j, KsaoId)) == Some(k.ksao);
    assert Get(j, Category) == JText(k.category) && Get(j, Requirement) == JText(k.statement);
  }

  lemma LinkRoundTrip(lib: Spelling, l: TaskKsaoLink)
    requires Lawful(lib) && ValidLink(l)
    ensures ParseLink(lib, LinkPrinter(lib)(l)) == Some(l)
  {
  }

  lemma FjaRoundTrip(lib: Spelling, rules: TextRules, f: FjaProfile)
    requires Lawful(lib) && ValidFja(rules, f)
    ensures ParseFja(lib, rules, f.tenant, f.job, PrintFja(lib, f)) == Some(f)
  {
    SourceRoundTrip(lib, rules, f.source);
  }

  lemma ListsRoundTrip(lib: Spelling, rules: TextRules, s: Snapshot)
    requires Lawful(lib) && PartsValid(rules, s) && SharesScope(s)
    ensures TryAll(MapAll(s.tasks, TaskPrinter(lib)), TaskParser(lib, rules, s.tenant, s.job)) == Some(s.tasks)
    ensures TryAll(MapAll(s.ksaos, KsaoPrinter(lib)), KsaoParser(lib, rules, s.tenant, s.job)) == Some(s.ksaos)
    ensures TryAll(MapAll(s.links, LinkPrinter(lib)), LinkParser(lib)) == Some(s.links)
  {
    forall t | t in s.tasks ensures TaskParser(lib, rules, s.tenant, s.job)(TaskPrinter(lib)(t)) == Some(t) {
      TaskRoundTrip(lib, rules, t);
    }
    forall k | k in s.ksaos ensures KsaoParser(lib, rules, s.tenant, s.job)(KsaoPrinter(lib)(k)) == Some(k) {
      KsaoRoundTrip(lib, rules, k);
    }
    forall l | l in s.links ensures LinkParser(lib)(LinkPrinter(lib)(l)) == Some(l) {
      LinkRoundTrip(lib, l);
    }
    TryAllUndoes(s.tasks, TaskPrinter(lib), TaskParser(lib, rules, s.tenant, s.job));
    TryAllUndoes(s.ksaos, KsaoPrinter(lib), KsaoParser(lib, rules, s.tenant, s.job));
    TryAllUndoes(s.links, LinkPrinter(lib), LinkParser(lib));
  }

  /** The members a parser finds in a printed snapshot, part by part. */
  ghost predicate CarriesHeader(lib: Spelling, j: Json, s: Snapshot) {
    && j.JObject?
    && AsId(lib, Get(j, TenantId)) == Some(s.tenant)
    && AsId(lib, Get(j, JobId)) == Some(s.job)
    && AsId(lib, Get(j, AnalysisId)) == Some(s.analysis)
    && Get(j, AnalysisVersion) == JText(s.version)
    && Get(j, StatusCode) == JText(s.status)
    && AsDay(lib, Get(j, EffectiveFrom)) == Some(s.effectiveFrom)
    && AsInstant(lib, Get(j, RecordedAt)) == Some(s.recordedAt)
  }

  ghost predicate CarriesEvidence(lib: Spelling, j: Json, s: Snapshot) {
    && j.JObject?
    && Get(j, Tasks) == JList(MapAll(s.tasks, TaskPrinter(lib)))
    && Get(j, Ksaos) == JList(MapAll(s.ksaos, KsaoPrinter(lib)))
    && Get(j, Links) == JList(MapAll(s.links, LinkPrinter(lib)))
    && Get(j, Fja) == PrintFja(lib, s.fja)
  }

  ghost predicate CarriesReview(lib: Spelling, j: Json, s: Snapshot) {
    && j.JObject?
    && AsOptionalText(Get(j, ReviewedBy)) == Some(s.reviewer)
    && AsOptionalInstant(lib, Get(j, ReviewedAt)) == Some(s.reviewedAt)
  }

  ghost predicate Carries(lib: Spelling, j: Json, s: Snapshot) {
    IsObject(j, SNAPSHOT_FIELDS) && CarriesHeader(lib, j, s) && CarriesEvidence(lib, j, s) && CarriesReview(lib, j, s)
  }

  const HEADER_FIELDS: set<Field> := {
    AnalysisId, TenantId, JobId, AnalysisVersion, StatusCode, EffectiveFrom, RecordedAt}
  const EVIDENCE_FIELDS: set<Field> := {Tasks, Ksaos, Links, Fja}
  const REVIEW_FIELDS: set<Field> := {ReviewedBy, ReviewedAt}

  lemma HeaderCarries(lib: Spelling, s: Snapshot)
    requires Lawful(lib) && Operational(s.tenant) && Operational(s.job) && Operational(s.analysis)
    ensures HeaderMembers(lib, s).Keys == HEADER_FIELDS
    ensures CarriesHeader(lib, JObject(HeaderMembers(lib, s)), s)
  {
  }

  lemma EvidenceCarries(lib: Spelling, s: Snapshot)
    ensures EvidenceMembers(lib, s).Keys == EVIDENCE_FIELDS
    ensures CarriesEvidence(lib, JObject(EvidenceMembers(lib, s)), Canonical(s))
  {
  }

  lemma ReviewCarries(lib: Spelling, s: Snapshot)
    requires Lawful(lib) && s.reviewer.Some? == s.reviewedAt.Some?
    ensures ReviewMembers(lib, s).Keys <= REVIEW_FIELDS
    ensures CarriesReview(lib, JObject(ReviewMembers(lib, s)), s)
  {
    var j := JObject(ReviewMembers(lib, s));
    if s.reviewer.Some? {
      var at: int := s.reviewedAt.value;
      assert Get(j, ReviewedAt) == JText(lib.instant(at));
      assert lib.readInstant(lib.instant(at)) == Some(at);
    } else {
      assert Get(j, ReviewedAt) == JNull;
    }
  }

  ghost predicate Agree(j: Json, k: Json, fields: set<Field>) {
    j.JObject? && k.JObject? && forall f :: f in fields ==> Get(j, f) == Get(k, f)
  }

  /** A member of one part of a merged object is found there. */
  lemma Merged(a: map<Field, Json>, b: map<Field, Json>, c: map<Field, Json>)
    requires a.Keys == HEADER_FIELDS && b.Keys == EVIDENCE_FIELDS && c.Keys <= REVIEW_FIELDS
    ensures Agree(JObject(a + b + c), JObject(a), HEADER_FIELDS)
    ensures Agree(JObject(a + b + c), JObject(b), EVIDENCE_FIELDS)
    ensures Agree(JObject(a + b + c), JObject(c), REVIEW_FIELDS)
    ensures IsObject(JObject(a + b + c), SNAPSHOT_FIELDS)
  {
    assert HEADER_FIELDS !! EVIDENCE_FIELDS !! REVIEW_FIELDS;
    assert (a + b + c).Keys == a.Keys + b.Keys + c.Keys;
    assert HEADER_FIELDS + EVIDENCE_FIELDS + REVIEW_FIELDS == SNAPSHOT_FIELDS;
  }

  lemma AgreeingCarries(lib: Spelling, j: Json, h: Json, e: Json, r: Json, s: Snapshot)
    requires Agree(j, h, HEADER_FIELDS) && Agree(j, e, EVIDENCE_FIELDS) && Agree(j, r, REVIEW_FIELDS)
    requires CarriesHeader(lib, h, s) && CarriesEvidence(lib, e, s) && CarriesReview(lib, r, s)
    ensures CarriesHeader(lib, j, s) && CarriesEvidence(lib, j, s) && CarriesReview(lib, j, s)
  {
  }

  lemma PrintCarries(lib: Spelling, s: Snapshot)
    requires Lawful(lib) && Operational(s.tenant) && Operational(s.job) && Operational(s.analysis)
    requires s.reviewer.Some? == s.reviewedAt.Some?
    ensures Carries(lib, Print(lib, s), Canonical(s))
  {
    HeaderCarries(lib, s);
    EvidenceCarries(lib, s);
    ReviewCarries(lib, s);
    var a, b, c := HeaderMembers(lib, s), EvidenceMembers(lib, s), ReviewMembers(lib, s);
    Merged(a, b, c);
    AgreeingCarries(lib, Print(lib, s), JObject(a), JObject(b), JObject(c), Canonical(s));
  }

  lemma CarriedEvidenceIsParsed(lib: Spelling, rules: TextRules, j: Json, s: Snapshot)
    requires Lawful(lib) && ValidSnapshot(rules, s)
    requires CarriesEvidence(lib, j, s)
    ensures (ParseEvidence(lib, rules, s.tenant, s.job, j) ==
             Some(Evidence(s.tasks, s.ksaos, s.links, s.fja)))
  {
    ListsRoundTrip(lib, rules, s);
    FjaRoundTrip(lib, rules, s.fja);
  }

  lemma CarriedBodyIsParsed(lib: Spelling, rules: TextRules, j: Json, s: Snapshot)
    requires Lawful(lib) && ValidSnapshot(rules, s)
    requires Carries(lib, j, s)
    ensures ParseBody(lib, rules, s.tenant, s.job, j) == Some(s)
  {
    CarriedEvidenceIsParsed(lib, rules, j, s);
  }

  lemma CarriedIsParsed(lib: Spelling, rules: TextRules, tenant: Uuid, j: Json, s: Snapshot)
    requires Lawful(lib) && ValidSnapshot(rules, s)
    requires Carries(lib, j, s)
    ensures ParseSnapshot(lib, rules, tenant, j) == if tenant == s.tenant then Some(s) else None
  {
    CarriedBodyIsParsed(lib, rules, j, s);
  }

  /** Reading a printed snapshot gives it back with its lists sorted; another tenant's route refuses it. */
  lemma PrintThenParse(lib: Spelling, rules: TextRules, tenant: Uuid, s: Snapshot)
    requires Lawful(lib) && ValidSnapshot(rules, s)
    ensures ParseSnapshot(lib, rules, tenant, Print(lib, s)) == if tenant == s.tenant then Some(Canonical(s)) else None
  {
    CanonicalForm(rules, s);
    PrintCarries(lib, s);
    CarriedIsParsed(lib, rules, tenant, Print(lib, s), Canonical(s));
  }

  /** The document depends on the evidence, not on the order it is listed in. */
  lemma DocumentForgetsOrder(lib: Spelling, s: Snapshot, t: Snapshot)
    requires DistinctIdentities(s) && SameEvidence(s, t)
    ensures Print(lib, s) == Print(lib, t)
  {
    CanonicalForgetsOrder(s, t);
  }

  /** Two valid snapshots have one document exactly when they hold the same evidence; the content digest, which covers
      the document, therefore identifies the evidence. */
  lemma DocumentIdentifiesEvidence(lib: Spelling, rules: TextRules, s: Snapshot, t: Snapshot)
    requires Lawful(lib) && ValidSnapshot(rules, s) && ValidSnapshot(rules, t)
    ensures Print(lib, s) == Print(lib, t) <==> SameEvidence(s, t)
  {
    if SameEvidence(s, t) {
      DocumentForgetsOrder(lib, s, t);
    }
    if Print(lib, s) == Print(lib, t) {
      PrintThenParse(lib, rules, s.tenant, s);
      PrintThenParse(lib, rules, s.tenant, t);
      assert Canonical(s) == Canonical(t);
      CanonicalForm(rules, s);
      CanonicalForm(rules, t);
    }
  }

  /** Sorting the lists changes neither the evidence nor the document. */
  lemma CanonicalKeepsDocument(lib: Spelling, rules: TextRules, s: Snapshot)
    requires ValidSnapshot(rules, s)
    ensures SameEvidence(s, Canonical(s)) && Print(lib, Canonical(s)) == Print(lib, s)
    ensures FitsLimits(Canonical(s)) <==> FitsLimits(s)
  {
    CanonicalForm(rules, s);
    SameMembers(s, Canonical(s));
  }

  /** Reading back what was printed: accepted for the same tenant exactly within the limits, and then the evidence
      comes back, sorted. */
  lemma PrintThenRead(lib: Spelling, rules: TextRules, tenant: Uuid, s: Snapshot)
    requires Lawful(lib) && ValidSnapshot(rules, s)
    ensures (Read(lib, rules, tenant, Print(lib, s)) ==
             if tenant == s.tenant && FitsLimits(s) then Some(Canonical(s)) else None)
  {
    CanonicalKeepsDocument(lib, rules, s);
    PrintThenParse(lib, rules, s.tenant, s);
    PrintThenParse(lib, rules, tenant, s);
    ParsedWithinLimits(lib, rules, s.tenant, Print(lib, s));
  }

  /** Whatever document is accepted, the one printed from it is accepted too and is a fixed point: posting a document
      as it was answered changes nothing. */
  lemma ReadThenPrintIsStable(lib: Spelling, rules: TextRules, tenant: Uuid, j: Json)
    requires Lawful(lib) && Read(lib, rules, tenant, j).Some?
    ensures var printed := Print(lib, Read(lib, rules, tenant, j).value);
            var again := Read(lib, rules, tenant, printed);
            again.Some? && Print(lib, again.value) == printed
  {
    var s := Read(lib, rules, tenant, j).value;
    PrintThenRead(lib, rules, tenant, s);
    CanonicalKeepsDocument(lib, rules, s);
  }

  // ---------------------------------------------------------------- the assumptions can be met

  lemma WordIsText(w: string)
    requires IsWord(w)
    ensures IsText(w, |w|)
  {
    SplitOfJoin([w]);
  }

  function Tally(n: int): string {
    if n >= 0 then seq(n, _ => '1') else seq(-n, _ => '0')
  }

  function ReadTally(s: string): Option<int> {
    Some(if s != "" && s[0] == '0' then -|s| else |s|)
  }

  function Counting(): Spelling {
    Spelling(Tally, ReadTally, Tally, ReadTally, Tally, ReadTally)
  }

  function AnyText(): TextRules {
    TextRules(_ => true, _ => true, _ => true, _ => true)
  }

  lemma TallyReads(n: int)
    ensures ReadTally(Tally(n)) == Some(n)
  {
  }

  lemma CountingIsLawful()
    ensures Lawful(Counting())
  {
    var lib := Counting();
    forall n: int ensures lib.readId(lib.id(n)) == Some(n) {
      TallyReads(n);
    }
    forall n: int ensures lib.readDay(lib.day(n)) == Some(n) {
      TallyReads(n);
    }
    forall n: int ensures lib.readInstant(lib.instant(n)) == Some(n) {
      TallyReads(n);
    }
  }

  function OneOfEach(word: string): Snapshot {
    var source := EvidenceSource("", word, "", 0, "", "job_incumbent");
    Snapshot(1, 1, 1, "", "analysis_validated", 0, 2,
             [TaskEvidence(1, 1, 1, word, 1, 5, source)],
             [KsaoRequirement(1, 1, 1, "skill_requirement", word, 1, 5, source)],
             [TaskKsaoLink(1, 1, 3, true)], FjaProfile(1, 1, 0, 8, 7, source), Some(""), Some(1))
  }

  lemma OneOfEachIsValid(word: string)
    requires IsWord(word) && |word| >= 10
    ensures ValidSnapshot(AnyText(), OneOfEach(word))
  {
    WordIsText(word);
    var s := OneOfEach(word);
    assert PartsValid(AnyText(), s);
    assert TaskIds(s) == {1} by {
      assert s.tasks[0] in s.tasks;
    }
    assert KsaoIds(s) == {1} by {
      assert s.ksaos[0] in s.ksaos;
    }
    assert LinkedTaskIds(s) == {1} && LinkedKsaoIds(s) == {1} by {
      assert s.links[0] in s.links;
    }
  }

  /** There are lawful spellings, and validated snapshots whose documents they print and read. */
  lemma AssumptionsCanBeMet(word: string)
    requires IsWord(word) && |word| >= 10
    ensures Lawful(Counting()) && ValidSnapshot(AnyText(), OneOfEach(word))
    ensures Read(Counting(), AnyText(), 1, Print(Counting(), OneOfEach(word))).Some?
  {
    CountingIsLawful();
    OneOfEachIsValid(word);
    PrintThenRead(Counting(), AnyText(), 1, OneOfEach(word));
  }
}
