/** The job-analysis adapter, statement by statement, over the rows it writes and reads. */
module JobDatabase {
  import opened Prelude
  import opened Facts
  import opened JobAnalysis
  import opened JobDocument
  import opened JobStore
  import JobPort

  class PostgresJobAnalysisPort {
    var parents: Parents
    var headers: seq<HeaderRow>
    var tasks: seq<TaskRow>
    var ksaos: seq<KsaoRow>
    var links: seq<LinkRow>
    var commands: seq<CommandRow>
    var audits: seq<AuditRow>

    ghost function Contents(): Tables
      reads this
    {
      Tables(parents, headers, tasks, ksaos, links, commands, audits)
    }

    constructor (parents: Parents)
      ensures Contents() == Tables(parents, [], [], [], [], [], [])
    {
      this.parents := parents;
      headers, tasks, ksaos, links, commands, audits := [], [], [], [], [], [];
    }

    method LoadSnapshot(lib: Spelling, rules: TextRules, tenant: Uuid, analysis: Uuid) returns (r: JobPort.Loaded)
      ensures r == JobPort.Load(lib, rules, Contents(), tenant, analysis)
    {
      var found := Filter(headers, JobPort.HeaderAt(tenant, analysis));
      if found == [] {
        return Ok(None);
      }
      if |found| > 1 {
        return Err(IntegrityError);
      }
      var db := Tables(parents, headers, tasks, ksaos, links, commands, audits);
      var built := BuildSnapshot(rules, found[0], JobPort.TaskRowsAt(db, tenant, analysis),
                                 JobPort.KsaoRowsAt(db, tenant, analysis), JobPort.LinkRowsAt(db, tenant, analysis));
      if built.None? {
        return Err(InvalidEvidence);
      }
      if Print(lib, built.value) != found[0].digest {
        return Err(IntegrityError);
      }
      r := Ok(built);
    }

    method PersistSnapshot(lib: Spelling, rules: TextRules, c: JobPort.Call) returns (r: Result<Snapshot, StoreError>)
      modifies this
      ensures JobPort.Answer(r, Contents()) == JobPort.Persist(lib, rules, old(Contents()), c)
    {
      var s := c.snapshot;
      var existing := Filter(commands, JobPort.CommandAt(s.tenant, c.key));
      if existing != [] {
        r := AnswerFromRow(lib, rules, c, existing[0]);
        return;
      }
      if (s.tenant, s.job) !in parents.jobs ||
         !JobPort.BoundTo(parents.positions, s.tenant, c.beside.position, s.job) ||
         !JobPort.BoundTo(parents.criteria, s.tenant, c.beside.criterion, s.job) {
        return Err(ScopeMissing);
      }
      var db := Tables(parents, headers, tasks, ksaos, links, commands, audits);
      if JobPort.Taken(db, s) {
        return Err(IntegrityError);
      }
      var refused := WriteRows(lib, c);
      r := if refused.Some? then Err(refused.value) else Ok(s);
    }

    /** The inserts in their order, up to the first one that is refused; then the transaction rolls back. */
    method WriteRows(lib: Spelling, c: JobPort.Call) returns (refused: Option<StoreError>)
      modifies this
      ensures refused == if JobPort.CommandIdTaken(old(Contents()), c.commandId) then Some(IdempotencyConflict)
                         else if JobPort.AuditTaken(old(Contents()), c) then Some(DatabaseError)
                         else None
      ensures Contents() == if refused.Some? then old(Contents()) else JobPort.Stored(lib, old(Contents()), c)
    {
      var db := Tables(parents, headers, tasks, ksaos, links, commands, audits);
      headers := headers + [HeaderOf(lib, c.snapshot, c.beside)];
      InsertTasks(c.snapshot);
      InsertKsaos(c.snapshot);
      InsertLinks(c.snapshot);
      if JobPort.CommandIdTaken(db, c.commandId) {
        refused := Some(IdempotencyConflict);
      } else {
        commands := commands + [JobPort.CommandOf(c)];
        if JobPort.AuditTaken(db, c) {
          refused := Some(DatabaseError);
        } else {
          audits := audits + [JobPort.AuditOf(c)];
          refused := None;
        }
      }
      if refused.Some? {
        headers, tasks, ksaos, links, commands := db.headers, db.tasks, db.ksaos, db.links, db.commands;
      }
    }

    /** The stored command row answers a repeated key. */
    method AnswerFromRow(lib: Spelling, rules: TextRules, c: JobPort.Call, row: CommandRow)
      returns (r: Result<Snapshot, StoreError>)
      ensures r == JobPort.Replay(lib, rules, Contents(), c, row)
    {
      if row.request != c.request || row.actor != c.actor || row.purpose != c.purpose {
        return Err(IdempotencyConflict);
      }
      var loaded := LoadSnapshot(lib, rules, c.snapshot.tenant, row.analysis);
      if loaded.Err? {
        return Err(loaded.error);
      }
      if loaded.value.None? {
        return Err(IntegrityError);
      }
      r := Ok(loaded.value.value);
    }

    /** One insert for each task. */
    method InsertTasks(s: Snapshot)
      modifies `tasks
      ensures tasks == old(tasks) + MapAll(s.tasks, TaskRowOf(s))
    {
      for i := 0 to |s.tasks|
        invariant tasks == old(tasks) + MapAll(s.tasks, TaskRowOf(s))[..i]
      {
        var t := s.tasks[i];
        tasks := tasks + [TaskRow(s.tenant, s.analysis, t.task, t.statement, t.importance, t.difficulty,
                                  SourceParams(t.source))];
      }
    }

    method InsertKsaos(s: Snapshot)
      modifies `ksaos
      ensures ksaos == old(ksaos) + MapAll(s.ksaos, KsaoRowOf(s))
    {
      for i := 0 to |s.ksaos|
        invariant ksaos == old(ksaos) + MapAll(s.ksaos, KsaoRowOf(s))[..i]
      {
        var k := s.ksaos[i];
        ksaos := ksaos + [KsaoRow(s.tenant, s.analysis, k.ksao, k.category, k.statement, k.importance, k.proficiency,
                                  SourceParams(k.source))];
      }
    }

    method InsertLinks(s: Snapshot)
      modifies `links
      ensures links == old(links) + MapAll(s.links, LinkRowOf(s))
    {
      for i := 0 to |s.links|
        invariant links == old(links) + MapAll(s.links, LinkRowOf(s))[..i]
      {
        var l := s.links[i];
        links := links + [LinkRow(s.tenant, s.analysis, l.task, l.ksao, l.strength, l.essential)];
      }
    }
  }

  /** The rows through the constructors, item by item, then the snapshot constructor. */
  method BuildSnapshot(rules: TextRules, h: HeaderRow, tasks: seq<TaskRow>, ksaos: seq<KsaoRow>, links: seq<LinkRow>)
    returns (r: Option<Snapshot>)
    ensures r == Rebuild(rules, h, tasks, ksaos, links)
  {
    var builtTasks :- BuildAll(tasks, TaskFromRow(rules, h.tenant, h.job));
    var builtKsaos :- BuildAll(ksaos, KsaoFromRow(rules, h.tenant, h.job));
    var builtLinks :- BuildAll(links, LinkFromRow());
    var fja :- FjaFromHeader(rules, h);
    var s := SnapshotOf(h, Evidence(builtTasks, builtKsaos, builtLinks, fja));
    var ok := CheckSnapshot(rules, s);
    r := if ok then Some(s) else None;
  }
}
