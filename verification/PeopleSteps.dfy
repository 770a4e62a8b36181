/** Mutation transactions as interleaved statements over the committed tables (READ COMMITTED).

    Each statement reads the rows committed when it runs. Locks are held to the end of the transaction;
    a commit inserts all rows at once and then releases; a rollback inserts nothing.
 */
module PeopleSteps {
  import opened Prelude
  import opened Facts
  import opened Assignment
  import opened Employment
  import opened People

  datatype Lock =
    | KeyLock(key: KeyId)
    | ConversionLock(conversion: Uuid)
    | PositionLock(position: Uuid)

  datatype Ending =
    | Committed(answer: Answer)
    | Replayed(answer: Answer)
    | Failed

  /** The next statement of a transaction. */
  datatype Counter =
    | Started         // take the advisory lock on the key
    | KeyLocked       // read the idempotency row
    | Fresh           // select the conversion, the parents or the decision
    | Converting      // wait for the lock on the conversion row
    | Converted       // read the clock, or the versions of the named employment
    | EmploymentRead  // select the position versions
    | Positioning     // wait for the lock on the position row
    | Positioned      // read the clock
    | Clocked         // read the employments or the assignments that may conflict
    | Loaded          // run the kernel check
    | Ready           // insert and commit
    | Finished(ending: Ending)

  /** How far a transaction has come; every statement moves it forward. */
  function Progress(c: Counter): nat {
    match c
    case Started => 0
    case KeyLocked => 1
    case Fresh => 2
    case Converting => 3
    case Converted => 4
    case EmploymentRead => 5
    case Positioning => 6
    case Positioned => 7
    case Clocked => 8
    case Loaded => 9
    case Ready => 10
    case Finished(_) => 11
  }

  datatype Txn = Txn(
    command: Command, authority: Authority, startedAt: int, counter: Counter, locks: set<Lock>,
    conversions: seq<Conversion>, employments: seq<EmploymentVersion>, positions: seq<PositionVersion>,
    recordedAt: int, assignments: seq<AssignmentFact>)

  type TxnId = nat

  datatype State = State(db: Db, clock: int, txns: map<TxnId, Txn>)

  datatype Action =
    | Tick(to: int)
    | Begin(id: TxnId, command: Command, authority: Authority)
    | Step(id: TxnId)
    | Rollback(id: TxnId)

  ghost predicate LockFree(s: State, id: TxnId, lock: Lock) {
    forall other :: other in s.txns && other != id ==> lock !in s.txns[other].locks
  }

  /** A result set: the selected rows in any order. */
  ghost predicate ResultOf<T>(rows: seq<T>, selected: seq<T>) {
    multiset(rows) == multiset(selected)
  }

  function Abandon(t: Txn): Txn {
    t.(counter := Finished(Failed), locks := {})
  }

  function Finish(t: Txn, ending: Ending): Txn {
    t.(counter := Finished(ending), locks := {})
  }

  /** Replay lookup: no row, a row with another digest, or a row to answer from. */
  function ReadReplay(db: Db, t: Txn): Txn {
    var key := KeyOf(t.command);
    if key !in db.keys then t.(counter := Fresh)
    else if db.keys[key].digest != Digest(t.command, t.authority) then Abandon(t)
    else if t.command.AcceptHire? && db.keys[key].record != CreatedRecord(t.command) then Abandon(t)
    else Finish(t, Replayed(AnswerWith(t.command, db.keys[key].record)))
  }

  /** The statement after the replay lookup. */
  ghost predicate FreshStep(s: State, t: Txn, t': Txn) {
    var c := t.command;
    match c
    case CreateEmployment(tenant, person, _, _, _, _, _, _, _, _, _) =>
      && t' == t.(counter := Converting, conversions := t'.conversions)
      && ResultOf(t'.conversions, Filter(s.db.conversions, OpenConversionOf(tenant, person)))
    case CreateAssignment(tenant, _, person, _, _, _, _, _, _, _, _) =>
      && t' == t.(counter := Converting, conversions := t'.conversions)
      && ResultOf(t'.conversions, Filter(s.db.conversions, OpenConversionOf(tenant, person)))
    case CreatePosition(_, _, _, _, _, _, _, _, _, _, _) =>
      t' == if ParentsExist(c, s.db) then t.(counter := Ready, recordedAt := t.startedAt) else Abandon(t)
    case AcceptHire(_, _, _, _, _, _, _, _, _, _, _, _, _, _) =>
      t' == if DecisionConfirmsHire(c, t.authority, s.db, t.startedAt)
            then t.(counter := Ready, recordedAt := t.startedAt) else Abandon(t)
  }

  /** Read the facts that may conflict, after the clock. */
  ghost predicate LoadStep(s: State, t: Txn, t': Txn) {
    var c := t.command;
    if c.CreateEmployment? then
      && t' == t.(counter := Loaded, employments := t'.employments)
      && ResultOf(t'.employments, Filter(s.db.employments, OfPerson(c.tenant, c.person)))
    else
      && c.CreateAssignment?
      && t' == t.(counter := Loaded, assignments := t'.assignments)
      && ResultOf(t'.assignments,
                  Filter(s.db.assignments, SharesEmploymentOrPosition(c.tenant, c.employment, c.position)))
  }

  ghost predicate KernelAccepts(t: Txn) {
    var c := t.command;
    if c.CreateEmployment? then EmploymentAccepted(c, t.employments, t.recordedAt)
    else c.CreateAssignment? && AssignmentAccepted(c, t.employments, t.positions, t.assignments, t.recordedAt)
  }

  /** Every statement but the last leaves the committed rows alone. */
  ghost predicate Statement(s: State, id: TxnId, t: Txn, t': Txn) {
    var c := t.command;
    match t.counter
    case Started =>
      LockFree(s, id, KeyLock(KeyOf(c))) && t' == t.(counter := KeyLocked, locks := {KeyLock(KeyOf(c))})
    case KeyLocked => t' == ReadReplay(s.db, t)
    case Fresh => FreshStep(s, t, t')
    case Converting =>
      if |t.conversions| != 1 then t' == Abandon(t)
      else
        var lock := ConversionLock(t.conversions[0].id);
        LockFree(s, id, lock) && t' == t.(counter := Converted, locks := t.locks + {lock})
    case Converted =>
      if c.CreateEmployment? then t' == t.(counter := Clocked, recordedAt := s.clock)
      else
        && c.CreateAssignment?
        && t' == t.(counter := EmploymentRead, employments := t'.employments)
        && ResultOf(t'.employments, Filter(s.db.employments, OfEmployment(c.tenant, c.employment)))
    case EmploymentRead =>
      && c.CreateAssignment?
      && t' == t.(counter := Positioning, positions := t'.positions)
      && ResultOf(t'.positions, Filter(s.db.positions, OfPosition(c.tenant, c.position)))
    case Positioning =>
      && c.CreateAssignment?
      && if t.positions == [] then t' == t.(counter := Positioned)
         else
           var lock := PositionLock(c.position);
           LockFree(s, id, lock) && t' == t.(counter := Positioned, locks := t.locks + {lock})
    case Positioned => t' == t.(counter := Clocked, recordedAt := s.clock)
    case Clocked => LoadStep(s, t, t')
    case Loaded => t' == if KernelAccepts(t) then t.(counter := Ready) else Abandon(t)
    case Ready => !IdentitiesFree(c, s.db) && t' == Abandon(t)
    case Finished(_) => false
  }

  function CommittedTxn(t: Txn): Txn {
    Finish(t, Committed(AnswerWith(t.command, CreatedRecord(t.command))))
  }

  ghost predicate Commits(s: State, t: Txn) {
    t.counter == Ready && IdentitiesFree(t.command, s.db)
  }

  ghost predicate Next(s: State, action: Action, s': State) {
    match action
    case Tick(to) => s.clock <= to && s' == s.(clock := to)
    case Begin(id, c, a) =>
      && id !in s.txns && Constructible(c)
      && s' == s.(txns := s.txns[id := Txn(c, a, s.clock, Started, {}, [], [], [], 0, [])])
    case Step(id) =>
      && id in s.txns
      && var t := s.txns[id];
         if Commits(s, t) then
           s' == s.(db := Insert(t.command, t.authority, t.recordedAt, s.db), txns := s.txns[id := CommittedTxn(t)])
         else
           id in s'.txns && Statement(s, id, t, s'.txns[id]) && s' == s.(txns := s.txns[id := s'.txns[id]])
    case Rollback(id) =>
      && id in s.txns && !s.txns[id].counter.Finished?
      && s' == s.(txns := s.txns[id := Abandon(s.txns[id])])
  }
}
