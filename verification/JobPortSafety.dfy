/** Persisted snapshots stay readable with the document that was accepted, and retries answer with it. */
module JobPortSafety {
  import opened Prelude
  import opened Facts
  import opened Sorting
  import opened JobAnalysis
  import opened JobDocument
  import opened JobRoundTrip
  import opened JobStore
  import opened JobPort

  /** A fresh snapshot: no header carries its identity. */
  ghost predicate Fresh(db: Tables, s: Snapshot) {
    forall h :: h in db.headers ==> h.analysis != s.analysis
  }

  /** The call's parents are in scope, and its audit identities are not stored. */
  ghost predicate Admissible(db: Tables, c: Call) {
    InScope(db.parents, c.snapshot.tenant, c.snapshot.job, c.beside) && !AuditTaken(db, c)
  }

  /** Neither the command's identity nor its key is stored. */
  ghost predicate FreshCommand(db: Tables, c: Call) {
    forall d :: d in db.commands ==> d.id != c.commandId && !(d.tenant == c.snapshot.tenant && d.key == c.key)
  }

  /** Reads of one snapshot see exactly these rows. */
  ghost predicate SameRows(db: Tables, db': Tables, tenant: Uuid, analysis: Uuid) {
    && Filter(db'.headers, HeaderAt(tenant, analysis)) == Filter(db.headers, HeaderAt(tenant, analysis))
    && Filter(db'.tasks, TaskAt(tenant, analysis)) == Filter(db.tasks, TaskAt(tenant, analysis))
    && Filter(db'.ksaos, KsaoAt(tenant, analysis)) == Filter(db.ksaos, KsaoAt(tenant, analysis))
    && Filter(db'.links, LinkAt(tenant, analysis)) == Filter(db.links, LinkAt(tenant, analysis))
  }

  lemma OthersUnread(lib: Spelling, db: Tables, c: Call, tenant: Uuid, analysis: Uuid)
    requires analysis != c.snapshot.analysis
    ensures SameRows(db, Stored(lib, db, c), tenant, analysis)
  {
    var s := c.snapshot;
    FilterAppendMiss(db.headers, [HeaderOf(lib, s, c.beside)], HeaderAt(tenant, analysis));
    FilterAppendMiss(db.tasks, MapAll(s.tasks, TaskRowOf(s)), TaskAt(tenant, analysis));
    FilterAppendMiss(db.ksaos, MapAll(s.ksaos, KsaoRowOf(s)), KsaoAt(tenant, analysis));
    FilterAppendMiss(db.links, MapAll(s.links, LinkRowOf(s)), LinkAt(tenant, analysis));
  }

  /** Storing one snapshot changes no other snapshot's reads. */
  lemma OthersLoadAlike(lib: Spelling, rules: TextRules, db: Tables, c: Call, tenant: Uuid, analysis: Uuid)
    requires analysis != c.snapshot.analysis
    ensures Load(lib, rules, Stored(lib, db, c), tenant, analysis) == Load(lib, rules, db, tenant, analysis)
  {
    OthersUnread(lib, db, c, tenant, analysis);
  }

  /** A list whose old part misses and whose new part hits is its new part. */
  lemma FilterNewPart<R(!new)>(before: seq<R>, added: seq<R>, p: R -> bool)
    requires forall x :: x in before ==> !p(x)
    requires forall x :: x in added ==> p(x)
    ensures Filter(before + added, p) == added
  {
    FilterAppend(before, added, p);
    FilterNone(before, p);
    FilterAll(added, p);
  }

  lemma OwnRows(lib: Spelling, db: Tables, c: Call)
    requires RowsOwned(db) && Fresh(db, c.snapshot)
    ensures var s := c.snapshot; var db' := Stored(lib, db, c);
            && Filter(db'.headers, HeaderAt(s.tenant, s.analysis)) == [HeaderOf(lib, s, c.beside)]
            && Filter(db'.tasks, TaskAt(s.tenant, s.analysis)) == MapAll(s.tasks, TaskRowOf(s))
            && Filter(db'.ksaos, KsaoAt(s.tenant, s.analysis)) == MapAll(s.ksaos, KsaoRowOf(s))
            && Filter(db'.links, LinkAt(s.tenant, s.analysis)) == MapAll(s.links, LinkRowOf(s))
  {
    var s := c.snapshot;
    FilterNewPart(db.headers, [HeaderOf(lib, s, c.beside)], HeaderAt(s.tenant, s.analysis));
    FilterNewPart(db.tasks, MapAll(s.tasks, TaskRowOf(s)), TaskAt(s.tenant, s.analysis));
    FilterNewPart(db.ksaos, MapAll(s.ksaos, KsaoRowOf(s)), KsaoAt(s.tenant, s.analysis));
    FilterNewPart(db.links, MapAll(s.links, LinkRowOf(s)), LinkAt(s.tenant, s.analysis));
  }

  /** A stored snapshot loads as the same evidence with the same document. */
  lemma StoredLoads(lib: Spelling, rules: TextRules, db: Tables, c: Call)
    requires ValidSnapshot(rules, c.snapshot)
    requires RowsOwned(db) && Fresh(db, c.snapshot)
    ensures var r := Load(lib, rules, Stored(lib, db, c), c.snapshot.tenant, c.snapshot.analysis);
            r.Ok? && r.value.Some? && SameEvidence(c.snapshot, r.value.value) &&
            Print(lib, r.value.value) == Print(lib, c.snapshot)
  {
    var s, db' := c.snapshot, Stored(lib, db, c);
    OwnRows(lib, db, c);
    var tasks := TaskRowsAt(db', s.tenant, s.analysis);
    var ksaos := KsaoRowsAt(db', s.tenant, s.analysis);
    var links := LinkRowsAt(db', s.tenant, s.analysis);
    SortSorts(MapAll(s.tasks, TaskRowOf(s)), TaskRowKey());
    SortSorts(MapAll(s.ksaos, KsaoRowOf(s)), KsaoRowKey());
    SortSorts(MapAll(s.links, LinkRowOf(s)), LinkRowKey());
    AnyRowOrderRebuilds(lib, rules, s, c.beside, tasks, ksaos, links);
  }

  /** The unique constraints accept the rows of a snapshot that is not taken. */
  lemma StoringKeepsUnique(lib: Spelling, db: Tables, c: Call)
    requires HeadersUnique(db) && CommandsUnique(db)
    requires !Taken(db, c.snapshot) && FreshCommand(db, c)
    ensures HeadersUnique(Stored(lib, db, c)) && CommandsUnique(Stored(lib, db, c))
  {
    var db' := Stored(lib, db, c);
    forall i, j | 0 <= i < j < |db'.headers|
      ensures db'.headers[i].analysis != db'.headers[j].analysis && !SameVersion(db'.headers[i], db'.headers[j])
    {
      assert db'.headers[i] == db.headers[i] && db'.headers[i] in db.headers;
    }
    forall i, j | 0 <= i < j < |db'.commands|
      ensures db'.commands[i].id != db'.commands[j].id
      ensures !(db'.commands[i].tenant == db'.commands[j].tenant && db'.commands[i].key == db'.commands[j].key)
    {
      assert db'.commands[i] == db.commands[i] && db'.commands[i] in db.commands;
    }
  }

  lemma StoringKeepsKeys(lib: Spelling, db: Tables, c: Call)
    ensures (forall tenant, analysis ::
               HasHeader(db, tenant, analysis) ==> HasHeader(Stored(lib, db, c), tenant, analysis))
    ensures HasHeader(Stored(lib, db, c), c.snapshot.tenant, c.snapshot.analysis)
  {
    var db' := Stored(lib, db, c);
    forall tenant, analysis | HasHeader(db, tenant, analysis) ensures HasHeader(db', tenant, analysis) {
      var h :| h in db.headers && h.tenant == tenant && h.analysis == analysis;
      assert h in db'.headers;
    }
    assert HeaderOf(lib, c.snapshot, c.beside) in db'.headers;
  }

  lemma StoringKeepsOwners(lib: Spelling, db: Tables, c: Call)
    requires RowsOwned(db)
    ensures RowsOwned(Stored(lib, db, c))
  {
    StoringKeepsKeys(lib, db, c);
  }

  /** The row written for an accepted call, and every earlier row, names the document stored for it. */
  lemma StoringKeepsBinding(lib: Spelling, db: Tables, c: Call)
    requires c.request == Request(Print(lib, c.snapshot), c.beside)
    requires RowsOwned(db) && CommandsBound(db) && Fresh(db, c.snapshot)
    ensures CommandsBound(Stored(lib, db, c))
  {
    var db' := Stored(lib, db, c);
    forall d, h | d in db'.commands && h in db'.headers && h.analysis == d.analysis
      ensures d.request == Request(h.digest, h.beside)
    {
      if d in db.commands {
        assert HasHeader(db, d.tenant, d.analysis);
      }
    }
  }

  lemma EarlierStillLoads(lib: Spelling, rules: TextRules, db: Tables, c: Call, h: HeaderRow)
    requires Loads(lib, rules, db, h) && h.analysis != c.snapshot.analysis
    ensures Loads(lib, rules, Stored(lib, db, c), h)
  {
    OthersLoadAlike(lib, rules, db, c, h.tenant, h.analysis);
  }

  lemma OwnLoads(lib: Spelling, rules: TextRules, db: Tables, c: Call)
    requires RowsOwned(db) && Fresh(db, c.snapshot) && ValidSnapshot(rules, c.snapshot)
    ensures Loads(lib, rules, Stored(lib, db, c), HeaderOf(lib, c.snapshot, c.beside))
  {
    StoredLoads(lib, rules, db, c);
  }

  lemma StoringKeepsLoads(lib: Spelling, rules: TextRules, db: Tables, c: Call)
    requires RowsOwned(db) && AllLoad(lib, rules, db) && Fresh(db, c.snapshot)
    requires ValidSnapshot(rules, c.snapshot)
    ensures AllLoad(lib, rules, Stored(lib, db, c))
  {
    var db' := Stored(lib, db, c);
    OwnLoads(lib, rules, db, c);
    forall h | h in db.headers ensures Loads(lib, rules, db', h) {
      EarlierStillLoads(lib, rules, db, c, h);
    }
  }

  lemma StoringKeepsAudits(lib: Spelling, db: Tables, c: Call)
    requires Audited(db) && Scoped(db) && Admissible(db, c)
    ensures Audited(Stored(lib, db, c)) && Scoped(Stored(lib, db, c))
  {
    var db' := Stored(lib, db, c);
    forall i, j | 0 <= i < j < |db'.audits|
      ensures db'.audits[i].event != db'.audits[j].event && db'.audits[i].outbox != db'.audits[j].outbox
    {
      assert db'.audits[i] == db.audits[i] && db'.audits[i] in db.audits;
    }
  }

  /** Storing an accepted snapshot keeps everything the tables promise. */
  lemma StoringKeepsWellStored(lib: Spelling, rules: TextRules, db: Tables, c: Call)
    requires WellStored(lib, rules, db) && WellFormed(lib, rules, c)
    requires !Taken(db, c.snapshot) && FreshCommand(db, c) && Admissible(db, c)
    ensures WellStored(lib, rules, Stored(lib, db, c))
  {
    assert Fresh(db, c.snapshot);
    StoringKeepsAudits(lib, db, c);
    StoringKeepsUnique(lib, db, c);
    StoringKeepsOwners(lib, db, c);
    StoringKeepsBinding(lib, db, c);
    StoringKeepsLoads(lib, rules, db, c);
  }

  /** A call changes nothing, or stores its own snapshot, free of conflicts, and answers with it. */
  lemma PersistEffect(lib: Spelling, rules: TextRules, db: Tables, c: Call)
    ensures var a := Persist(lib, rules, db, c);
            || a.tables == db
            || (a == Answer(Ok(c.snapshot), Stored(lib, db, c)) && !Taken(db, c.snapshot) && FreshCommand(db, c) &&
                Admissible(db, c))
  {
    var p := CommandAt(c.snapshot.tenant, c.key);
    if Filter(db.commands, p) == [] {
      forall d | d in db.commands ensures !p(d) {
        assert d !in Filter(db.commands, p);
      }
    }
  }

  lemma PersistKeepsWellStored(lib: Spelling, rules: TextRules, db: Tables, c: Call)
    requires WellStored(lib, rules, db) && WellFormed(lib, rules, c)
    ensures WellStored(lib, rules, Persist(lib, rules, db, c).tables)
  {
    PersistEffect(lib, rules, db, c);
    if Persist(lib, rules, db, c).tables != db {
      StoringKeepsWellStored(lib, rules, db, c);
    }
  }

  // ---------------------------------------------------------------- answers

  lemma CommandLoads(lib: Spelling, rules: TextRules, db: Tables, row: CommandRow)
    requires WellStored(lib, rules, db) && row in db.commands
    ensures var r := Load(lib, rules, db, row.tenant, row.analysis);
            r.Ok? && r.value.Some? && Print(lib, r.value.value) == row.request.document
  {
    assert HasHeader(db, row.tenant, row.analysis);
    var h :| h in db.headers && h.tenant == row.tenant && h.analysis == row.analysis;
    assert Loads(lib, rules, db, h);
  }

  /** A bound key answers with the stored document for the same request, and refuses any other. */
  lemma BoundKeyAnswers(lib: Spelling, rules: TextRules, db: Tables, c: Call)
    requires WellStored(lib, rules, db) && WellFormed(lib, rules, c)
    requires Filter(db.commands, CommandAt(c.snapshot.tenant, c.key)) != []
    ensures var a := Persist(lib, rules, db, c);
            var row := Filter(db.commands, CommandAt(c.snapshot.tenant, c.key))[0];
            && a.tables == db
            && (if row.request == c.request && row.actor == c.actor && row.purpose == c.purpose
                then a.result.Ok? && Print(lib, a.result.value) == Print(lib, c.snapshot)
                else a.result == Err(IdempotencyConflict))
  {
    var row := Filter(db.commands, CommandAt(c.snapshot.tenant, c.key))[0];
    assert row in Filter(db.commands, CommandAt(c.snapshot.tenant, c.key));
    CommandLoads(lib, rules, db, row);
  }

  lemma FreshKeyAnswers(lib: Spelling, rules: TextRules, db: Tables, c: Call)
    requires Filter(db.commands, CommandAt(c.snapshot.tenant, c.key)) == []
    ensures var a := Persist(lib, rules, db, c);
            && (a.result.Ok? <==> Admissible(db, c) && !Taken(db, c.snapshot) && !CommandIdTaken(db, c.commandId))
            && (if a.result.Ok? then a.result == Ok(c.snapshot) && a.tables == Stored(lib, db, c)
                else a.tables == db && a.result.error != InvalidEvidence &&
                     (a.result.error == IntegrityError ==> Taken(db, c.snapshot)))
  {
  }

  /** The service compares the answer with the posted document; that comparison never fails. Nor does a load behind
      a replay: the only integrity error left is a header that already holds the identity or the version. */
  lemma AnswerIsThePostedDocument(lib: Spelling, rules: TextRules, db: Tables, c: Call)
    requires WellStored(lib, rules, db) && WellFormed(lib, rules, c)
    ensures var a := Persist(lib, rules, db, c);
            && (a.result.Ok? ==> Print(lib, a.result.value) == Print(lib, c.snapshot))
            && (a.result.Err? ==> a.tables == db && a.result.error != InvalidEvidence &&
                                  (a.result.error == IntegrityError ==> Taken(db, c.snapshot)))
  {
    if Filter(db.commands, CommandAt(c.snapshot.tenant, c.key)) != [] {
      BoundKeyAnswers(lib, rules, db, c);
    } else {
      FreshKeyAnswers(lib, rules, db, c);
    }
  }

  // ---------------------------------------------------------------- runs

  /** The tables after a list of calls, one transaction after another. */
  ghost function AfterAll(lib: Spelling, rules: TextRules, db: Tables, calls: seq<Call>): Tables
    decreases |calls|
  {
    if calls == [] then db else AfterAll(lib, rules, Persist(lib, rules, db, calls[0]).tables, calls[1..])
  }

  /** No snapshot is stored yet, whatever parents exist. */
  function Empty(parents: Parents): Tables {
    Tables(parents, [], [], [], [], [], [])
  }

  lemma EmptyIsWellStored(lib: Spelling, rules: TextRules, parents: Parents)
    ensures WellStored(lib, rules, Empty(parents))
  {
  }

  /** From empty tables, whatever is called, every stored snapshot loads with the document it was stored for. */
  lemma {:induction false} RunsStayWellStored(lib: Spelling, rules: TextRules, db: Tables, calls: seq<Call>)
    requires WellStored(lib, rules, db)
    requires forall c :: c in calls ==> WellFormed(lib, rules, c)
    ensures WellStored(lib, rules, AfterAll(lib, rules, db, calls))
    decreases |calls|
  {
    if calls != [] {
      assert calls[0] in calls;
      PersistKeepsWellStored(lib, rules, db, calls[0]);
      RunsStayWellStored(lib, rules, Persist(lib, rules, db, calls[0]).tables, calls[1..]);
    }
  }

  /** One call keeps a bound key bound to its row. */
  lemma CallKeepsKey(lib: Spelling, rules: TextRules, db: Tables, c: Call, tenant: Uuid, key: string)
    requires Filter(db.commands, CommandAt(tenant, key)) != []
    ensures (Filter(Persist(lib, rules, db, c).tables.commands, CommandAt(tenant, key)) ==
             Filter(db.commands, CommandAt(tenant, key)))
  {
    PersistEffect(lib, rules, db, c);
    if Persist(lib, rules, db, c).tables != db {
      FilterAppendMiss(db.commands, [CommandOf(c)], CommandAt(tenant, key));
    }
  }

  /** One call leaves every stored snapshot's load as it was. */
  lemma CallKeepsLoads(lib: Spelling, rules: TextRules, db: Tables, c: Call, h: HeaderRow)
    requires h in db.headers
    ensures h in Persist(lib, rules, db, c).tables.headers
    ensures (Load(lib, rules, Persist(lib, rules, db, c).tables, h.tenant, h.analysis) ==
             Load(lib, rules, db, h.tenant, h.analysis))
  {
    PersistEffect(lib, rules, db, c);
    if Persist(lib, rules, db, c).tables != db {
      OthersLoadAlike(lib, rules, db, c, h.tenant, h.analysis);
    }
  }

  /** A stored snapshot loads identically after any further calls. */
  lemma {:induction false} StoredForGood(lib: Spelling, rules: TextRules, db: Tables, calls: seq<Call>, h: HeaderRow)
    requires h in db.headers
    ensures h in AfterAll(lib, rules, db, calls).headers
    ensures (Load(lib, rules, AfterAll(lib, rules, db, calls), h.tenant, h.analysis) ==
             Load(lib, rules, db, h.tenant, h.analysis))
    decreases |calls|
  {
    if calls != [] {
      CallKeepsLoads(lib, rules, db, calls[0], h);
      StoredForGood(lib, rules, Persist(lib, rules, db, calls[0]).tables, calls[1..], h);
    }
  }

  lemma StoredBindsKey(lib: Spelling, db: Tables, c: Call)
    requires Filter(db.commands, CommandAt(c.snapshot.tenant, c.key)) == []
    ensures Filter(Stored(lib, db, c).commands, CommandAt(c.snapshot.tenant, c.key)) == [CommandOf(c)]
  {
    FilterAppend(db.commands, [CommandOf(c)], CommandAt(c.snapshot.tenant, c.key));
  }

  /** The first row is the call's own, or one that says the same. */
  predicate BoundBy(rows: seq<CommandRow>, c: Call) {
    rows != [] && rows[0].request == c.request && rows[0].actor == c.actor && rows[0].purpose == c.purpose
  }

  /** After an accepted call its key is bound to its request. */
  lemma AcceptedBindsKey(lib: Spelling, rules: TextRules, db: Tables, c: Call)
    requires WellStored(lib, rules, db) && WellFormed(lib, rules, c)
    requires Persist(lib, rules, db, c).result.Ok?
    ensures BoundBy(Filter(Persist(lib, rules, db, c).tables.commands, CommandAt(c.snapshot.tenant, c.key)), c)
  {
    if Filter(db.commands, CommandAt(c.snapshot.tenant, c.key)) != [] {
      BoundKeyAnswers(lib, rules, db, c);
    } else {
      FreshKeyAnswers(lib, rules, db, c);
      StoredBindsKey(lib, db, c);
    }
  }

  lemma {:induction false} KeyStaysBound(
    lib: Spelling, rules: TextRules, db: Tables, calls: seq<Call>, tenant: Uuid, key: string)
    requires Filter(db.commands, CommandAt(tenant, key)) != []
    ensures (Filter(AfterAll(lib, rules, db, calls).commands, CommandAt(tenant, key)) ==
             Filter(db.commands, CommandAt(tenant, key)))
    decreases |calls|
  {
    if calls != [] {
      CallKeepsKey(lib, rules, db, calls[0], tenant, key);
      KeyStaysBound(lib, rules, Persist(lib, rules, db, calls[0]).tables, calls[1..], tenant, key);
    }
  }

  /** After an accepted call and any calls since, the same key answers with the accepted document when the request,
      actor and purpose are the same, refuses when any differs, and changes nothing either way. */
  lemma RetryAnswersAlike(lib: Spelling, rules: TextRules, db: Tables, c: Call, since: seq<Call>, d: Call)
    requires WellStored(lib, rules, db) && WellFormed(lib, rules, c) && WellFormed(lib, rules, d)
    requires forall e :: e in since ==> WellFormed(lib, rules, e)
    requires Persist(lib, rules, db, c).result.Ok?
    requires d.snapshot.tenant == c.snapshot.tenant && d.key == c.key
    ensures var db' := AfterAll(lib, rules, Persist(lib, rules, db, c).tables, since);
            var a := Persist(lib, rules, db', d);
            && a.tables == db'
            && (if d.request == c.request && d.actor == c.actor && d.purpose == c.purpose
                then a.result.Ok? && Print(lib, a.result.value) == Print(lib, c.snapshot)
                else a.result == Err(IdempotencyConflict))
  {
    var after := Persist(lib, rules, db, c).tables;
    PersistKeepsWellStored(lib, rules, db, c);
    RunsStayWellStored(lib, rules, after, since);
    AcceptedBindsKey(lib, rules, db, c);
    KeyStaysBound(lib, rules, after, since, c.snapshot.tenant, c.key);
    BoundKeyAnswers(lib, rules, AfterAll(lib, rules, after, since), d);
  }

  lemma LoadedIs(lib: Spelling, rules: TextRules, db: Tables, tenant: Uuid, analysis: Uuid)
    requires Load(lib, rules, db, tenant, analysis).Ok? && Load(lib, rules, db, tenant, analysis).value.Some?
    ensures var t := Load(lib, rules, db, tenant, analysis).value.value;
            t.tenant == tenant && t.analysis == analysis && ValidSnapshot(rules, t)
  {
    var headers := Filter(db.headers, HeaderAt(tenant, analysis));
    assert headers[0] in headers;
  }

  /** The replayed snapshot has the posted identity. */
  lemma ReplayNamesTheSame(lib: Spelling, rules: TextRules, db: Tables, c: Call, row: CommandRow)
    requires Lawful(lib) && WellStored(lib, rules, db) && WellFormed(lib, rules, c)
    requires row in db.commands && row.tenant == c.snapshot.tenant && row.request == c.request
    ensures row.analysis == c.snapshot.analysis
  {
    CommandLoads(lib, rules, db, row);
    LoadedIs(lib, rules, db, row.tenant, row.analysis);
    var t := Load(lib, rules, db, row.tenant, row.analysis).value.value;
    DocumentIdentifiesEvidence(lib, rules, t, c.snapshot);
  }

  lemma AcceptedLoads(lib: Spelling, rules: TextRules, db: Tables, c: Call)
    requires Lawful(lib) && WellStored(lib, rules, db) && WellFormed(lib, rules, c)
    requires Persist(lib, rules, db, c).result.Ok?
    ensures HasHeader(Persist(lib, rules, db, c).tables, c.snapshot.tenant, c.snapshot.analysis)
    ensures var r := Load(lib, rules, Persist(lib, rules, db, c).tables, c.snapshot.tenant, c.snapshot.analysis);
            r.Ok? && r.value.Some? && Print(lib, r.value.value) == Print(lib, c.snapshot)
  {
    var rows := Filter(db.commands, CommandAt(c.snapshot.tenant, c.key));
    if rows != [] {
      assert rows[0] in rows;
      BoundKeyAnswers(lib, rules, db, c);
      CommandLoads(lib, rules, db, rows[0]);
      ReplayNamesTheSame(lib, rules, db, c, rows[0]);
    } else {
      FreshKeyAnswers(lib, rules, db, c);
      PersistEffect(lib, rules, db, c);
      StoringKeepsKeys(lib, db, c);
      StoredLoads(lib, rules, db, c);
    }
  }

  /** In any run from empty tables, a snapshot once accepted can be read back at the end, by its own identity, as the
      same evidence with the same document. */
  lemma AcceptedStaysReadable(
    lib: Spelling, rules: TextRules, parents: Parents, earlier: seq<Call>, c: Call, later: seq<Call>)
    requires Lawful(lib) && WellFormed(lib, rules, c)
    requires forall e :: e in earlier ==> WellFormed(lib, rules, e)
    requires Persist(lib, rules, AfterAll(lib, rules, Empty(parents), earlier), c).result.Ok?
    ensures var db := Persist(lib, rules, AfterAll(lib, rules, Empty(parents), earlier), c).tables;
            var r := Load(lib, rules, AfterAll(lib, rules, db, later), c.snapshot.tenant, c.snapshot.analysis);
            r.Ok? && r.value.Some? && SameEvidence(c.snapshot, r.value.value) &&
            Print(lib, r.value.value) == Print(lib, c.snapshot)
  {
    EmptyIsWellStored(lib, rules, parents);
    RunsStayWellStored(lib, rules, Empty(parents), earlier);
    var before := AfterAll(lib, rules, Empty(parents), earlier);
    var db := Persist(lib, rules, before, c).tables;
    AcceptedLoads(lib, rules, before, c);
    var h :| h in db.headers && h.tenant == c.snapshot.tenant && h.analysis == c.snapshot.analysis;
    StoredForGood(lib, rules, db, later, h);
    LoadedIs(lib, rules, db, h.tenant, h.analysis);
    DocumentIdentifiesEvidence(lib, rules, c.snapshot, Load(lib, rules, db, h.tenant, h.analysis).value.value);
  }
}
