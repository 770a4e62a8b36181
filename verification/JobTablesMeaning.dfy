/** What the job-analysis tables hold after a call and what a read and a call answer, said on the columns. */
module JobTablesMeaning {
  import opened Prelude
  import opened Facts
  import opened Sorting
  import opened Text
  import opened JobAnalysis
  import opened JobDocument
  import opened JobStore
  import opened JobPort
  import opened JobMeaning

  // ---------------------------------------------------------------- stored rows

  ghost predicate HoldsSource(c: SourceColumns, s: EvidenceSource) {
    && c.uri == s.uri && c.title == s.title && c.version == s.version && c.retrievedAt == s.retrievedAt
    && c.digest == s.digest && c.origin == s.origin
  }

  ghost predicate HoldsHeader(lib: Spelling, h: HeaderRow, s: Snapshot, beside: Beside) {
    && h.tenant == s.tenant && h.analysis == s.analysis && h.job == s.job
    && h.beside.position == beside.position && h.beside.criterion == beside.criterion
    && h.version == s.version && h.status == s.status && h.effectiveFrom == s.effectiveFrom
    && h.recordedAt == s.recordedAt && h.reviewer == s.reviewer && h.reviewedAt == s.reviewedAt
    && h.digest == Print(lib, s)
    && h.dataCode == s.fja.dataCode && h.peopleCode == s.fja.peopleCode && h.thingsCode == s.fja.thingsCode
    && HoldsSource(h.source, s.fja.source)
  }

  ghost predicate HoldsTask(r: TaskRow, s: Snapshot, t: TaskEvidence) {
    && r.tenant == s.tenant && r.analysis == s.analysis && r.task == t.task && r.statement == t.statement
    && r.importance == t.importance && r.difficulty == t.difficulty && HoldsSource(r.source, t.source)
  }

  ghost predicate HoldsKsao(r: KsaoRow, s: Snapshot, k: KsaoRequirement) {
    && r.tenant == s.tenant && r.analysis == s.analysis && r.ksao == k.ksao && r.category == k.category
    && r.statement == k.statement && r.importance == k.importance && r.proficiency == k.proficiency
    && HoldsSource(r.source, k.source)
  }

  ghost predicate HoldsLink(r: LinkRow, s: Snapshot, l: TaskKsaoLink) {
    && r.tenant == s.tenant && r.analysis == s.analysis && r.task == l.task && r.ksao == l.ksao
    && r.strength == l.strength && r.essential == l.essential
  }

  /** The rows one accepted call appends: a header, a command and an audit event, and a row for each item. */
  lemma StoredHeader(lib: Spelling, db: Tables, c: Call)
    ensures var s, after := c.snapshot, Stored(lib, db, c);
            && after.parents == db.parents
            && |after.headers| == |db.headers| + 1 && after.headers[..|db.headers|] == db.headers
            && HoldsHeader(lib, after.headers[|db.headers|], s, c.beside)
  {
  }

  lemma StoredCommand(lib: Spelling, db: Tables, c: Call)
    ensures var s, after := c.snapshot, Stored(lib, db, c);
            && |after.commands| == |db.commands| + 1 && after.commands[..|db.commands|] == db.commands
            && (var row := after.commands[|db.commands|];
                && row.tenant == s.tenant && row.id == c.commandId && row.analysis == s.analysis && row.key == c.key
                && row.request == c.request && row.actor == c.actor && row.purpose == c.purpose)
            && |after.audits| == |db.audits| + 1 && after.audits[..|db.audits|] == db.audits
            && (var e := after.audits[|db.audits|];
                && e.tenant == s.tenant && e.event == c.auditEvent && e.outbox == c.outbox
                && e.analysis == s.analysis && e.version == s.version && e.actor == c.actor && e.purpose == c.purpose)
  {
  }

  lemma StoredEvidence(lib: Spelling, db: Tables, c: Call)
    ensures var s, after := c.snapshot, Stored(lib, db, c);
            && |after.tasks| == |db.tasks| + |s.tasks| && after.tasks[..|db.tasks|] == db.tasks
            && (forall i :: 0 <= i < |s.tasks| ==> HoldsTask(after.tasks[|db.tasks| + i], s, s.tasks[i]))
            && |after.ksaos| == |db.ksaos| + |s.ksaos| && after.ksaos[..|db.ksaos|] == db.ksaos
            && (forall i :: 0 <= i < |s.ksaos| ==> HoldsKsao(after.ksaos[|db.ksaos| + i], s, s.ksaos[i]))
            && |after.links| == |db.links| + |s.links| && after.links[..|db.links|] == db.links
            && (forall i :: 0 <= i < |s.links| ==> HoldsLink(after.links[|db.links| + i], s, s.links[i]))
  {
  }

  // ---------------------------------------------------------------- what a call answers

  /** A named parent is open in the tenant and belongs to the job. */
  ghost predicate Belongs(rows: map<(Uuid, Uuid), Uuid>, tenant: Uuid, parent: Option<Uuid>, job: Uuid) {
    parent.None? || ((tenant, parent.value) in rows && rows[(tenant, parent.value)] == job)
  }

  ghost predicate IsRowOf(row: CommandRow, c: Call) {
    row.tenant == c.snapshot.tenant && row.key == c.key
  }

  ghost predicate SameCall(row: CommandRow, c: Call) {
    row.request == c.request && row.actor == c.actor && row.purpose == c.purpose
  }

  /** A key that has a command row is answered from that row and writes nothing: another request, actor or purpose is a
      conflict, and an equal one gets the snapshot that the row names. */
  lemma RepeatedKey(lib: Spelling, rules: TextRules, db: Tables, c: Call, i: nat)
    requires CommandsUnique(db) && i < |db.commands| && IsRowOf(db.commands[i], c)
    ensures var a := Persist(lib, rules, db, c);
            && a.tables == db
            && (!SameCall(db.commands[i], c) ==> a.result == Err(IdempotencyConflict))
            && (SameCall(db.commands[i], c) ==>
                  forall s :: a.result == Ok(s) <==>
                    Load(lib, rules, db, c.snapshot.tenant, db.commands[i].analysis) == Ok(Some(s)))
  {
    var p := CommandAt(c.snapshot.tenant, c.key);
    assert OnlyAt(db.commands, p, i);
    FilterOnly(db.commands, p, i);
  }

  /** A new key: the first refusal decides, in the order of the statements, and only an accepted call writes. */
  lemma NewKey(lib: Spelling, rules: TextRules, db: Tables, c: Call)
    requires forall row :: row in db.commands ==> !IsRowOf(row, c)
    ensures var s, a := c.snapshot, Persist(lib, rules, db, c);
            if !((s.tenant, s.job) in db.parents.jobs
                 && Belongs(db.parents.positions, s.tenant, c.beside.position, s.job)
                 && Belongs(db.parents.criteria, s.tenant, c.beside.criterion, s.job))
            then a == Answer(Err(ScopeMissing), db)
            else if exists h :: h in db.headers
                      && (h.analysis == s.analysis
                          || (h.tenant == s.tenant && h.job == s.job && h.version == s.version))
            then a == Answer(Err(IntegrityError), db)
            else if exists row :: row in db.commands && row.id == c.commandId
            then a == Answer(Err(IdempotencyConflict), db)
            else if exists e :: e in db.audits && (e.event == c.auditEvent || e.outbox == c.outbox)
            then a == Answer(Err(DatabaseError), db)
            else a == Answer(Ok(s), Stored(lib, db, c))
  {
    FilterNone(db.commands, CommandAt(c.snapshot.tenant, c.key));
  }

  // ---------------------------------------------------------------- what a read answers

  ghost predicate IsHeaderOf(h: HeaderRow, tenant: Uuid, analysis: Uuid) {
    h.tenant == tenant && h.analysis == analysis
  }

  /** Provenance read from its columns; the title is normalized on the way. */
  ghost predicate ReadsSource(c: SourceColumns, s: EvidenceSource) {
    && s.uri == c.uri && s.title == Normalize(c.title) && s.version == c.version && s.retrievedAt == c.retrievedAt
    && s.digest == c.digest && s.origin == c.origin
  }

  ghost predicate ReadsTask(r: TaskRow, t: TaskEvidence) {
    && t.task == r.task && t.statement == Normalize(r.statement) && t.importance == r.importance
    && t.difficulty == r.difficulty && ReadsSource(r.source, t.source)
  }

  ghost predicate ReadsKsao(r: KsaoRow, k: KsaoRequirement) {
    && k.ksao == r.ksao && k.category == r.category && k.statement == Normalize(r.statement)
    && k.importance == r.importance && k.proficiency == r.proficiency && ReadsSource(r.source, k.source)
  }

  ghost predicate ReadsLink(r: LinkRow, l: TaskKsaoLink) {
    l.task == r.task && l.ksao == r.ksao && l.strength == r.strength && l.essential == r.essential
  }

  ghost predicate ReadsHeader(lib: Spelling, h: HeaderRow, s: Snapshot) {
    && s.tenant == h.tenant && s.analysis == h.analysis && s.job == h.job && s.version == h.version
    && s.status == h.status && s.effectiveFrom == h.effectiveFrom && s.recordedAt == h.recordedAt
    && s.reviewer == h.reviewer && s.reviewedAt == h.reviewedAt && Print(lib, s) == h.digest
    && s.fja.dataCode == h.dataCode && s.fja.peopleCode == h.peopleCode && s.fja.thingsCode == h.thingsCode
    && ReadsSource(h.source, s.fja.source)
  }

  /** The items are exactly those of the rows of the snapshot. */
  ghost predicate ReadsTasks(db: Tables, s: Snapshot) {
    && (forall t :: t in s.tasks ==>
          exists r :: r in db.tasks && r.tenant == s.tenant && r.analysis == s.analysis && ReadsTask(r, t))
    && (forall r :: r in db.tasks && r.tenant == s.tenant && r.analysis == s.analysis ==>
          exists t :: t in s.tasks && ReadsTask(r, t))
  }

  ghost predicate ReadsKsaos(db: Tables, s: Snapshot) {
    && (forall k :: k in s.ksaos ==>
          exists r :: r in db.ksaos && r.tenant == s.tenant && r.analysis == s.analysis && ReadsKsao(r, k))
    && (forall r :: r in db.ksaos && r.tenant == s.tenant && r.analysis == s.analysis ==>
          exists k :: k in s.ksaos && ReadsKsao(r, k))
  }

  ghost predicate ReadsLinks(db: Tables, s: Snapshot) {
    && (forall l :: l in s.links ==>
          exists r :: r in db.links && r.tenant == s.tenant && r.analysis == s.analysis && ReadsLink(r, l))
    && (forall r :: r in db.links && r.tenant == s.tenant && r.analysis == s.analysis ==>
          exists l :: l in s.links && ReadsLink(r, l))
  }

  /** Whether there is a snapshot to read is decided by tenant and identity together. */
  lemma AbsentInFull(lib: Spelling, rules: TextRules, db: Tables, tenant: Uuid, analysis: Uuid)
    ensures (Load(lib, rules, db, tenant, analysis) == Ok(None) <==>
             forall h :: h in db.headers ==> !IsHeaderOf(h, tenant, analysis))
  {
    var p := HeaderAt(tenant, analysis);
    if forall h :: h in db.headers ==> !IsHeaderOf(h, tenant, analysis) {
      FilterNone(db.headers, p);
    }
    if h :| h in db.headers && IsHeaderOf(h, tenant, analysis) {
      assert h in Filter(db.headers, p);
    }
  }

  /** A snapshot that is read meets every rule, and is that of the one header of the tenant and identity and of exactly
      the rows beside it, columns and stored document included. */
  lemma LoadedInFull(lib: Spelling, rules: TextRules, db: Tables, tenant: Uuid, analysis: Uuid, s: Snapshot)
    requires Load(lib, rules, db, tenant, analysis) == Ok(Some(s))
    ensures s.tenant == tenant && s.analysis == analysis && MeetsAllRules(rules, s)
    ensures exists h :: h in db.headers && IsHeaderOf(h, tenant, analysis) && ReadsHeader(lib, h, s)
    ensures ReadsTasks(db, s) && ReadsKsaos(db, s) && ReadsLinks(db, s)
  {
    var h := LoadedFrom(lib, rules, db, tenant, analysis, s);
    RebuiltHeader(lib, rules, h, TaskRowsAt(db, tenant, analysis), KsaoRowsAt(db, tenant, analysis),
                  LinkRowsAt(db, tenant, analysis), s);
    ValidInFull(rules, s);
    LoadedTasks(rules, h, db, s);
    LoadedKsaos(rules, h, db, s);
    LoadedLinks(db, s);
  }

  lemma LoadedFrom(lib: Spelling, rules: TextRules, db: Tables, tenant: Uuid, analysis: Uuid, s: Snapshot)
    returns (h: HeaderRow)
    requires Load(lib, rules, db, tenant, analysis) == Ok(Some(s))
    ensures h in db.headers && IsHeaderOf(h, tenant, analysis) && Print(lib, s) == h.digest && ValidSnapshot(rules, s)
    ensures (Rebuild(rules, h, TaskRowsAt(db, tenant, analysis), KsaoRowsAt(db, tenant, analysis),
                     LinkRowsAt(db, tenant, analysis)) == Some(s))
  {
    h := Filter(db.headers, HeaderAt(tenant, analysis))[0];
    assert h in Filter(db.headers, HeaderAt(tenant, analysis));
  }

  lemma SortedHas<T(!new)>(xs: seq<T>, key: T -> Key)
    ensures forall x :: x in Sort(xs, key) <==> x in xs
  {
    SortSorts(xs, key);
    PermutationMembers(Sort(xs, key), xs);
  }

  lemma RebuiltEvidence(
    rules: TextRules, h: HeaderRow, tasks: seq<TaskRow>, ksaos: seq<KsaoRow>, links: seq<LinkRow>, s: Snapshot)
    requires Rebuild(rules, h, tasks, ksaos, links) == Some(s)
    ensures RebuildEvidence(rules, h, tasks, ksaos, links) == Some(Evidence(s.tasks, s.ksaos, s.links, s.fja))
    ensures s == SnapshotOf(h, Evidence(s.tasks, s.ksaos, s.links, s.fja))
  {
  }

  lemma RebuiltParts(
    rules: TextRules, h: HeaderRow, tasks: seq<TaskRow>, ksaos: seq<KsaoRow>, links: seq<LinkRow>, e: Evidence)
    requires RebuildEvidence(rules, h, tasks, ksaos, links) == Some(e)
    ensures TasksOf(rules, h, tasks) == Some(e.tasks) && KsaosOf(rules, h, ksaos) == Some(e.ksaos)
    ensures LinksOf(links) == Some(e.links) && FjaFromHeader(rules, h) == Some(e.fja)
  {
  }

  lemma RebuiltHeader(
    lib: Spelling, rules: TextRules, h: HeaderRow, tasks: seq<TaskRow>, ksaos: seq<KsaoRow>, links: seq<LinkRow>,
    s: Snapshot)
    requires Rebuild(rules, h, tasks, ksaos, links) == Some(s) && Print(lib, s) == h.digest
    ensures ReadsHeader(lib, h, s)
    ensures TasksOf(rules, h, tasks) == Some(s.tasks) && KsaosOf(rules, h, ksaos) == Some(s.ksaos)
    ensures LinksOf(links) == Some(s.links)
  {
    RebuiltEvidence(rules, h, tasks, ksaos, links, s);
    RebuiltParts(rules, h, tasks, ksaos, links, Evidence(s.tasks, s.ksaos, s.links, s.fja));
    RebuiltFja(rules, h, s.fja);
  }

  lemma RebuiltFja(rules: TextRules, h: HeaderRow, f: FjaProfile)
    requires FjaFromHeader(rules, h) == Some(f)
    ensures f.dataCode == h.dataCode && f.peopleCode == h.peopleCode && f.thingsCode == h.thingsCode
    ensures ReadsSource(h.source, f.source)
  {
  }

  lemma LoadedTasks(rules: TextRules, h: HeaderRow, db: Tables, s: Snapshot)
    requires TasksOf(rules, h, TaskRowsAt(db, s.tenant, s.analysis)) == Some(s.tasks)
    ensures ReadsTasks(db, s)
  {
    RebuiltTasks(rules, h, TaskRowsAt(db, s.tenant, s.analysis), s.tasks);
    SortedHas(Filter(db.tasks, TaskAt(s.tenant, s.analysis)), TaskRowKey());
  }

  lemma LoadedKsaos(rules: TextRules, h: HeaderRow, db: Tables, s: Snapshot)
    requires KsaosOf(rules, h, KsaoRowsAt(db, s.tenant, s.analysis)) == Some(s.ksaos)
    ensures ReadsKsaos(db, s)
  {
    RebuiltKsaos(rules, h, KsaoRowsAt(db, s.tenant, s.analysis), s.ksaos);
    SortedHas(Filter(db.ksaos, KsaoAt(s.tenant, s.analysis)), KsaoRowKey());
  }

  lemma LoadedLinks(db: Tables, s: Snapshot)
    requires LinksOf(LinkRowsAt(db, s.tenant, s.analysis)) == Some(s.links)
    ensures ReadsLinks(db, s)
  {
    RebuiltLinks(LinkRowsAt(db, s.tenant, s.analysis), s.links);
    SortedHas(Filter(db.links, LinkAt(s.tenant, s.analysis)), LinkRowKey());
  }

  lemma RebuiltTasks(rules: TextRules, h: HeaderRow, rows: seq<TaskRow>, ts: seq<TaskEvidence>)
    requires TasksOf(rules, h, rows) == Some(ts)
    ensures forall t :: t in ts ==> exists r :: r in rows && ReadsTask(r, t)
    ensures forall r :: r in rows ==> exists t :: t in ts && ReadsTask(r, t)
  {
    forall i | 0 <= i < |rows| ensures ReadsTask(rows[i], ts[i]) {
      assert BuildTask(rules, h.tenant, h.job, rows[i]) == Some(ts[i]);
    }
    forall t | t in ts ensures exists r :: r in rows && ReadsTask(r, t) {
      var i :| 0 <= i < |ts| && ts[i] == t;
      assert rows[i] in rows && ReadsTask(rows[i], ts[i]);
    }
    forall r | r in rows ensures exists t :: t in ts && ReadsTask(r, t) {
      var i :| 0 <= i < |rows| && rows[i] == r;
      assert ts[i] in ts && ReadsTask(rows[i], ts[i]);
    }
  }

  lemma RebuiltKsaos(rules: TextRules, h: HeaderRow, rows: seq<KsaoRow>, ks: seq<KsaoRequirement>)
    requires KsaosOf(rules, h, rows) == Some(ks)
    ensures forall k :: k in ks ==> exists r :: r in rows && ReadsKsao(r, k)
    ensures forall r :: r in rows ==> exists k :: k in ks && ReadsKsao(r, k)
  {
    forall i | 0 <= i < |rows| ensures ReadsKsao(rows[i], ks[i]) {
      assert BuildKsao(rules, h.tenant, h.job, rows[i]) == Some(ks[i]);
    }
    forall k | k in ks ensures exists r :: r in rows && ReadsKsao(r, k) {
      var i :| 0 <= i < |ks| && ks[i] == k;
      assert rows[i] in rows && ReadsKsao(rows[i], ks[i]);
    }
    forall r | r in rows ensures exists k :: k in ks && ReadsKsao(r, k) {
      var i :| 0 <= i < |rows| && rows[i] == r;
      assert ks[i] in ks && ReadsKsao(rows[i], ks[i]);
    }
  }

  lemma RebuiltLinks(rows: seq<LinkRow>, ls: seq<TaskKsaoLink>)
    requires LinksOf(rows) == Some(ls)
    ensures forall l :: l in ls ==> exists r :: r in rows && ReadsLink(r, l)
    ensures forall r :: r in rows ==> exists l :: l in ls && ReadsLink(r, l)
  {
    forall i | 0 <= i < |rows| ensures ReadsLink(rows[i], ls[i]) {
      assert BuildLink(rows[i]) == Some(ls[i]);
    }
    forall l | l in ls ensures exists r :: r in rows && ReadsLink(r, l) {
      var i :| 0 <= i < |ls| && ls[i] == l;
      assert rows[i] in rows && ReadsLink(rows[i], ls[i]);
    }
    forall r | r in rows ensures exists l :: l in ls && ReadsLink(r, l) {
      var i :| 0 <= i < |rows| && rows[i] == r;
      assert ls[i] in ls && ReadsLink(rows[i], ls[i]);
    }
  }
}
