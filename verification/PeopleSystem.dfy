/** Theorems over whole runs of the interleaved mutation transactions. */
module PeopleSystem {
  import opened Prelude
  import opened Facts
  import opened Assignment
  import opened Employment
  import opened People
  import opened PeopleSteps
  import opened PeopleInvariant
  import opened PeopleCommit
  import opened PeopleSafety

  // ---------------------------------------------------------------- runs

  /** No transaction is open and the committed tables obey the rules; the tables may be empty. */
  ghost predicate Start(s: State) {
    s.txns == map[] && DbInv(s.db, s.clock)
  }

  /** Empty tables are a start, whatever decisions and position parents exist. */
  lemma EmptyTablesStart(decisions: seq<DecisionRow>, parents: set<(Uuid, Uuid, Uuid)>, clock: int)
    ensures Start(State(Db(map[], [], [], [], [], [], map[], decisions, parents), clock, map[]))
  {
  }

  ghost predicate Steps(states: seq<State>, actions: seq<Action>) {
    && |states| == |actions| + 1
    && forall i :: 0 <= i < |actions| ==> Next(states[i], actions[i], states[i + 1])
  }

  ghost predicate Run(states: seq<State>, actions: seq<Action>) {
    Steps(states, actions) && Start(states[0])
  }

  /** A statement drops locks or takes one that nobody else holds. */
  lemma StatementLocks(s: State, id: TxnId, t: Txn, t': Txn, lock: Lock)
    requires Statement(s, id, t, t') && lock in t'.locks
    ensures lock in t.locks || LockFree(s, id, lock)
  {
  }

  lemma StepLocks(s: State, id: TxnId, t': Txn)
    requires LocksExclusive(s) && id in s.txns && Statement(s, id, s.txns[id], t')
    ensures forall other :: other in s.txns && other != id ==> s.txns[other].locks !! t'.locks
  {
    forall other | other in s.txns && other != id ensures s.txns[other].locks !! t'.locks {
      forall lock | lock in t'.locks ensures lock !in s.txns[other].locks {
        StatementLocks(s, id, s.txns[id], t', lock);
      }
    }
  }

  lemma StatementKeepsSystem(s: State, id: TxnId, s': State)
    requires Inv(s) && Next(s, Step(id), s') && !Commits(s, s.txns[id])
    ensures Inv(s')
  {
    var t' := s'.txns[id];
    assert Statement(s, id, s.txns[id], t');
    StatementKeepsInv(s, id, s.txns[id], t');
    StepLocks(s, id, t');
    ReplacedTxn(s, id, t');
  }

  /** Replacing one transaction by one that satisfies its invariant and shares no lock keeps the system invariant. */
  lemma ReplacedTxn(s: State, id: TxnId, t': Txn)
    requires Inv(s) && id in s.txns && TxnInv(s.db, s.clock, t')
    requires forall other :: other in s.txns && other != id ==> s.txns[other].locks !! t'.locks
    ensures Inv(s.(txns := s.txns[id := t']))
  {
    var s' := s.(txns := s.txns[id := t']);
    forall i, j | i in s'.txns && j in s'.txns && i != j ensures s'.txns[i].locks !! s'.txns[j].locks {
      if i != id && j != id {
        assert s.txns[i].locks !! s.txns[j].locks;
      }
    }
  }

  lemma CommitKeepsTxns(s: State, id: TxnId)
    requires Inv(s) && id in s.txns && Commits(s, s.txns[id])
    ensures forall i :: i in s.txns && i != id ==> TxnInv(After(s.db, s.txns[id]), s.clock, s.txns[i])
  {
    forall i | i in s.txns && i != id ensures TxnInv(After(s.db, s.txns[id]), s.clock, s.txns[i]) {
      CommitKeepsOthers(s.db, s.clock, s.txns[i], s.txns[id]);
    }
  }

  lemma FewerLocksExclusive(s: State, id: TxnId, db': Db, t': Txn)
    requires LocksExclusive(s) && id in s.txns && t'.locks == {}
    ensures LocksExclusive(s.(db := db', txns := s.txns[id := t']))
  {
  }

  lemma CommitKeepsSystem(s: State, id: TxnId, s': State)
    requires Inv(s) && Next(s, Step(id), s') && Commits(s, s.txns[id])
    ensures Inv(s')
  {
    var u := s.txns[id];
    CommitKeepsDb(s.db, s.clock, u);
    CommitAnswers(s.db, s.clock, u);
    CommitKeepsTxns(s, id);
    FewerLocksExclusive(s, id, After(s.db, u), CommittedTxn(u));
  }

  lemma TickKeepsInv(s: State, to: int)
    requires Inv(s) && s.clock <= to
    ensures Inv(s.(clock := to))
  {
    forall i | i in s.txns ensures TxnInv(s.db, to, s.txns[i]) {
      ClockAdvances(s.db, s.clock, to, s.txns[i]);
    }
  }

  /** Every step of every transaction keeps the system invariant. */
  lemma NextKeepsInv(s: State, action: Action, s': State)
    requires Inv(s) && Next(s, action, s')
    ensures Inv(s')
  {
    match action
    case Tick(to) => TickKeepsInv(s, to);
    case Begin(_, _, _) =>
    case Step(id) =>
      if Commits(s, s.txns[id]) {
        CommitKeepsSystem(s, id, s');
      } else {
        StatementKeepsSystem(s, id, s');
      }
    case Rollback(id) =>
      AbandonKeepsInv(s.db, s.clock, s.txns[id]);
      ReplacedTxn(s, id, Abandon(s.txns[id]));
  }

  lemma {:induction false} RunKeepsInv(states: seq<State>, actions: seq<Action>, n: nat)
    requires Run(states, actions) && n < |states|
    ensures Inv(states[n])
    decreases n
  {
    if n > 0 {
      RunKeepsInv(states, actions, n - 1);
      NextKeepsInv(states[n - 1], actions[n - 1], states[n]);
    }
  }

  /** In every state of every interleaving, on every day and at every knowledge cutoff, the visible allocations
      of each position and of each employment total at most one, and no person holds two exclusive employments. */
  lemma RulesHoldInEveryState(states: seq<State>, actions: seq<Action>, n: nat)
    requires Run(states, actions) && n < |states|
    ensures WithinCapacity(states[n].db.assignments)
    ensures Exclusive(states[n].db.employments)
    ensures AssignmentsOwned(states[n].db)
  {
    RunKeepsInv(states, actions, n);
  }

  // ---------------------------------------------------------------- refinement

  /** A step of the atomic system: the acting transaction's command, accepted at its own instant, which is between its
      start and the clock, and answered with the identity it created. */
  ghost predicate AtomicStep(s: State, action: Action, s': State) {
    && action.Step? && action.id in s.txns && action.id in s'.txns
    && var t := s.txns[action.id];
       && t.startedAt <= t.recordedAt <= s.clock
       && AtomicCreate(t.command, t.authority, t.recordedAt, s.db, s'.db)
       && s'.txns[action.id].counter == Finished(Committed(AnswerWith(t.command, CreatedRecord(t.command))))
  }

  /** The committed tables of any run move only by atomic creates of the acting transaction, answered accordingly: the
      interleaved system refines the atomic one. */
  lemma RunRefinesAtomic(states: seq<State>, actions: seq<Action>, n: nat)
    requires Run(states, actions) && n < |actions|
    ensures states[n + 1].db == states[n].db || AtomicStep(states[n], actions[n], states[n + 1])
  {
    RunKeepsInv(states, actions, n);
    var s := states[n];
    assert Next(s, actions[n], states[n + 1]);
    if actions[n].Step? && Commits(s, s.txns[actions[n].id]) {
      CommitIsAtomicCreate(s.db, s.clock, s.txns[actions[n].id]);
    }
  }

  // ---------------------------------------------------------------- idempotency

  predicate SameRequest(t: Txn, t': Txn) {
    t'.command == t.command && t'.authority == t.authority && t'.startedAt == t.startedAt
  }

  /** Committed rows stay, and finished transactions stay finished. */
  lemma NextKeepsRows(s: State, action: Action, s': State)
    requires Next(s, action, s')
    ensures Grows(s.db, s'.db)
    ensures forall i :: i in s.txns ==> i in s'.txns && SameRequest(s.txns[i], s'.txns[i])
    ensures forall i :: i in s.txns && s.txns[i].counter.Finished? ==> s'.txns[i] == s.txns[i]
  {
    if action.Step? && Commits(s, s.txns[action.id]) {
      CommitGrows(s.db, s.txns[action.id]);
    }
  }

  predicate Answered(t: Txn) {
    t.counter.Finished? && (t.counter.ending.Committed? || t.counter.ending.Replayed?)
  }

  /** All successful transactions with one key carry the same payload and give the same answer, whatever
      identifiers the retries generated; a hire gives back the identities of the original. */
  lemma SameKeySameAnswer(states: seq<State>, actions: seq<Action>, n: nat, i: TxnId, j: TxnId)
    requires Run(states, actions) && n < |states|
    requires i in states[n].txns && j in states[n].txns
    requires Answered(states[n].txns[i]) && Answered(states[n].txns[j])
    requires KeyOf(states[n].txns[i].command) == KeyOf(states[n].txns[j].command)
    ensures var a, b := states[n].txns[i], states[n].txns[j];
            && Digest(a.command, a.authority) == Digest(b.command, b.authority)
            && a.counter.ending.answer == b.counter.ending.answer
  {
    RunKeepsInv(states, actions, n);
    var a, b := states[n].txns[i], states[n].txns[j];
    assert AnsweredFromRow(states[n].db, a) && AnsweredFromRow(states[n].db, b);
    var record := states[n].db.keys[KeyOf(a.command)].record;
    EqualPayloadsAnswerAlike(a.command, a.authority, b.command, b.authority, record);
  }

  /** At most one transaction commits for each key. */
  ghost predicate CommitsDistinct(s: State) {
    forall i, j :: i in s.txns && j in s.txns && i != j && CommittedHere(s.txns[i]) && CommittedHere(s.txns[j])
      ==> KeyOf(s.txns[i].command) != KeyOf(s.txns[j].command)
  }

  predicate CommittedHere(t: Txn) {
    t.counter.Finished? && t.counter.ending.Committed?
  }

  lemma StatementCommitsNothing(s: State, id: TxnId, t: Txn, t': Txn)
    requires Statement(s, id, t, t')
    ensures !CommittedHere(t')
  {
  }

  /** Only a commit step turns a transaction into a committed one. */
  lemma NewlyCommitted(s: State, action: Action, s': State, i: TxnId)
    requires Next(s, action, s') && i in s'.txns && CommittedHere(s'.txns[i])
    requires !(i in s.txns && CommittedHere(s.txns[i]))
    ensures action == Step(i) && Commits(s, s.txns[i])
  {
    if action.Step? && !Commits(s, s.txns[action.id]) {
      StatementCommitsNothing(s, action.id, s.txns[action.id], s'.txns[action.id]);
    }
  }

  ghost predicate CommittedKeysStored(s: State) {
    forall i :: i in s.txns && CommittedHere(s.txns[i]) ==> KeyOf(s.txns[i].command) in s.db.keys
  }

  lemma CommittedKeyStored(s: State)
    requires Inv(s)
    ensures CommittedKeysStored(s)
  {
    forall i | i in s.txns && CommittedHere(s.txns[i]) ensures KeyOf(s.txns[i].command) in s.db.keys {
      assert TxnInv(s.db, s.clock, s.txns[i]);
    }
  }

  lemma NextKeepsDistinct(s: State, action: Action, s': State)
    requires CommittedKeysStored(s) && Next(s, action, s') && CommitsDistinct(s)
    ensures CommitsDistinct(s')
  {
    NextKeepsRows(s, action, s');
    forall i, j | i in s'.txns && j in s'.txns && i != j && CommittedHere(s'.txns[i]) && CommittedHere(s'.txns[j])
      ensures KeyOf(s'.txns[i].command) != KeyOf(s'.txns[j].command)
    {
      if !(i in s.txns && CommittedHere(s.txns[i])) {
        NewlyCommitted(s, action, s', i);
      } else if !(j in s.txns && CommittedHere(s.txns[j])) {
        NewlyCommitted(s, action, s', j);
      }
    }
  }

  /** One step from a state that keeps the invariant. */
  lemma InvKeepsDistinct(s: State, action: Action, s': State)
    requires Inv(s) && Next(s, action, s') && CommitsDistinct(s)
    ensures CommitsDistinct(s')
  {
    CommittedKeyStored(s);
    NextKeepsDistinct(s, action, s');
  }

  lemma {:induction false} OneCommitPerKey(states: seq<State>, actions: seq<Action>, n: nat)
    requires Run(states, actions) && n < |states|
    ensures CommitsDistinct(states[n])
    decreases n
  {
    if n > 0 {
      OneCommitPerKey(states, actions, n - 1);
      RunKeepsInv(states, actions, n - 1);
      InvKeepsDistinct(states[n - 1], actions[n - 1], states[n]);
    }
  }

  /** While a transaction works on a key that had no row, no row appears: its own key insert never conflicts. */
  lemma KeyInsertNeverConflicts(states: seq<State>, actions: seq<Action>, n: nat, i: TxnId)
    requires Run(states, actions) && n < |states|
    requires i in states[n].txns && states[n].txns[i].counter.Ready?
    ensures KeyOf(states[n].txns[i].command) !in states[n].db.keys
  {
    RunKeepsInv(states, actions, n);
    ReadyKeyIsFree(states[n], i);
  }

  lemma ReadyKeyIsFree(s: State, i: TxnId)
    requires Inv(s) && i in s.txns && s.txns[i].counter.Ready?
    ensures KeyOf(s.txns[i].command) !in s.db.keys
  {
    assert TxnInv(s.db, s.clock, s.txns[i]);
  }

  /** A transaction whose payload differs from the row of its key never succeeds and never changes a table. */
  lemma DifferentPayloadChangesNothing(s: State, i: TxnId, s': State)
    requires Inv(s) && i in s.txns && KeyOf(s.txns[i].command) in s.db.keys
    requires s.db.keys[KeyOf(s.txns[i].command)].digest != Digest(s.txns[i].command, s.txns[i].authority)
    ensures !Answered(s.txns[i])
    ensures Next(s, Step(i), s') ==> s'.db == s.db && !Answered(s'.txns[i])
  {
    assert TxnInv(s.db, s.clock, s.txns[i]);
    if Next(s, Step(i), s') {
      assert !Commits(s, s.txns[i]);
      StatementKeepsInv(s, i, s.txns[i], s'.txns[i]);
      assert AnsweredFromRow(s.db, s'.txns[i]);
    }
  }

  /** A retry of a stored command is always answered, with the stored identity; the checks that could refuse
      a matching row never fire. */
  lemma RetryIsAnswered(s: State, i: TxnId, s': State)
    requires Inv(s) && Next(s, Step(i), s') && s.txns[i].counter.KeyLocked?
    requires var c := s.txns[i].command;
             KeyOf(c) in s.db.keys && s.db.keys[KeyOf(c)].digest == Digest(c, s.txns[i].authority)
    ensures Answered(s'.txns[i]) && s'.db == s.db
    ensures var c := s.txns[i].command;
            s'.txns[i].counter.ending.answer == AnswerWith(c, s.db.keys[KeyOf(c)].record)
  {
    assert Statement(s, i, s.txns[i], s'.txns[i]);
  }

  // ---------------------------------------------------------------- conservation

  ghost function Records(db: Db): nat {
    |db.employments| + |db.positions| + |db.assignments|
  }

  ghost function CommittedIds(s: State): set<TxnId> {
    set i | i in s.txns && CommittedHere(s.txns[i])
  }

  /** Rows beyond one record, one audit event and one key row for each committed transaction. */
  ghost function Surplus(s: State): (int, int, int) {
    var commits := |CommittedIds(s)|;
    (Records(s.db) - commits, |s.db.audits| - commits, |s.db.keys| - commits)
  }

  lemma CommitAddsOne(db: Db, u: Txn)
    requires IdentitiesFree(u.command, db)
    ensures Records(After(db, u)) == Records(db) + 1
    ensures |After(db, u).audits| == |db.audits| + 1
    ensures |After(db, u).keys| == |db.keys| + 1
  {
  }

  lemma CommittedIdsStep(s: State, action: Action, s': State)
    requires Next(s, action, s')
    ensures (CommittedIds(s') ==
             if action.Step? && Commits(s, s.txns[action.id]) then CommittedIds(s) + {action.id} else CommittedIds(s))
  {
    NextKeepsRows(s, action, s');
    forall i | i in CommittedIds(s') && i !in CommittedIds(s) ensures action == Step(i) && Commits(s, s.txns[i]) {
      NewlyCommitted(s, action, s', i);
    }
  }

  lemma OneMoreCommitted(s: State, id: TxnId, s': State)
    requires id !in CommittedIds(s) && CommittedIds(s') == CommittedIds(s) + {id}
    ensures |CommittedIds(s')| == |CommittedIds(s)| + 1
  {
  }

  lemma CommitBalances(s: State, u: Txn, s': State)
    requires IdentitiesFree(u.command, s.db) && s'.db == After(s.db, u)
    requires |CommittedIds(s')| == |CommittedIds(s)| + 1
    ensures Surplus(s') == Surplus(s)
  {
    CommitAddsOne(s.db, u);
  }

  lemma CommitConserves(s: State, id: TxnId, s': State)
    requires Next(s, Step(id), s') && Commits(s, s.txns[id])
    ensures Surplus(s') == Surplus(s)
  {
    CommittedIdsStep(s, Step(id), s');
    OneMoreCommitted(s, id, s');
    CommitBalances(s, s.txns[id], s');
  }

  lemma NextConserves(s: State, action: Action, s': State)
    requires Next(s, action, s')
    ensures Surplus(s') == Surplus(s)
  {
    if action.Step? && Commits(s, s.txns[action.id]) {
      CommitConserves(s, action.id, s');
    } else {
      CommittedIdsStep(s, action, s');
      assert s'.db == s.db;
    }
  }

  /** Over any run, one record, one audit event and one key row are added for each committed transaction. */
  lemma {:induction false} RunConserves(states: seq<State>, actions: seq<Action>, n: nat)
    requires Run(states, actions) && n < |states|
    ensures Surplus(states[n]) == (Records(states[0].db), |states[0].db.audits|, |states[0].db.keys|)
    decreases n
  {
    if n == 0 {
      assert CommittedIds(states[0]) == {};
    } else {
      RunConserves(states, actions, n - 1);
      NextConserves(states[n - 1], actions[n - 1], states[n]);
    }
  }

  // ---------------------------------------------------------------- progress

  ghost predicate Unfinished(s: State, id: TxnId) {
    id in s.txns && !s.txns[id].counter.Finished?
  }

  ghost predicate CanStep(s: State, id: TxnId) {
    exists s' :: Next(s, Step(id), s')
  }

  lemma StatementMakesProgress(s: State, id: TxnId, t: Txn, t': Txn)
    requires Statement(s, id, t, t')
    ensures Progress(t.counter) < Progress(t'.counter) <= 11
  {
    match t.counter
    case Fresh => FreshMakesProgress(s, t, t');
    case Clocked => LoadMakesProgress(s, t, t');
    case _ =>
  }

  lemma FreshMakesProgress(s: State, t: Txn, t': Txn)
    requires FreshStep(s, t, t')
    ensures Progress(t'.counter) >= 3
  {
  }

  lemma LoadMakesProgress(s: State, t: Txn, t': Txn)
    requires LoadStep(s, t, t')
    ensures Progress(t'.counter) == 9
  {
  }

  /** Every statement moves its transaction forward, so a transaction takes at most eleven. */
  lemma StepMakesProgress(s: State, id: TxnId, s': State)
    requires Next(s, Step(id), s')
    ensures id in s'.txns && Progress(s.txns[id].counter) < Progress(s'.txns[id].counter) <= 11
  {
    if !Commits(s, s.txns[id]) {
      StatementMakesProgress(s, id, s.txns[id], s'.txns[id]);
    }
  }

  /** The lock the next statement waits for, if it waits for one. */
  function Awaited(t: Txn): Option<Lock> {
    match t.counter
    case Started => Some(KeyLock(KeyOf(t.command)))
    case Converting => if |t.conversions| == 1 then Some(ConversionLock(t.conversions[0].id)) else None
    case Positioning =>
      if t.positions != [] && t.command.CreateAssignment? then Some(PositionLock(t.command.position)) else None
    case _ => None
  }

  /** A result of the next statement. */
  ghost predicate HasStatement(s: State, id: TxnId, t: Txn) {
    exists t' :: Statement(s, id, t, t')
  }

  lemma ReadsAlwaysRun(s: State, id: TxnId, t: Txn)
    requires TxnInv(s.db, s.clock, t) && !t.counter.Finished? && !t.counter.Ready?
    requires Awaited(t).None?
    ensures HasStatement(s, id, t)
  {
    var c := t.command;
    match t.counter
    case KeyLocked => assert Statement(s, id, t, ReadReplay(s.db, t));
    case Fresh =>
      var t' :=
        if Guarded(c) then
          t.(counter := Converting, conversions := Filter(s.db.conversions, OpenConversionOf(c.tenant, c.person)))
        else if c.CreatePosition? then
          (if ParentsExist(c, s.db) then t.(counter := Ready, recordedAt := t.startedAt) else Abandon(t))
        else
          (if DecisionConfirmsHire(c, t.authority, s.db, t.startedAt)
           then t.(counter := Ready, recordedAt := t.startedAt) else Abandon(t));
      assert Statement(s, id, t, t');
    case Converting => assert Statement(s, id, t, Abandon(t));
    case Converted =>
      var t' := if c.CreateEmployment? then t.(counter := Clocked, recordedAt := s.clock)
                else t.(counter := EmploymentRead,
                        employments := Filter(s.db.employments, OfEmployment(c.tenant, c.employment)));
      assert Statement(s, id, t, t');
    case EmploymentRead =>
      var t' := t.(counter := Positioning, positions := Filter(s.db.positions, OfPosition(c.tenant, c.position)));
      assert Statement(s, id, t, t');
    case Positioning => assert Statement(s, id, t, t.(counter := Positioned));
    case Positioned => assert Statement(s, id, t, t.(counter := Clocked, recordedAt := s.clock));
    case Clocked =>
      var t' := if c.CreateEmployment? then
                  t.(counter := Loaded, employments := Filter(s.db.employments, OfPerson(c.tenant, c.person)))
                else
                  t.(counter := Loaded, assignments := Filter(s.db.assignments, Conflicting(c)));
      assert Statement(s, id, t, t');
    case Loaded => assert Statement(s, id, t, if KernelAccepts(t) then t.(counter := Ready) else Abandon(t));
  }

  lemma GrantsRun(s: State, id: TxnId, t: Txn)
    requires TxnInv(s.db, s.clock, t)
    requires Awaited(t).Some? && LockFree(s, id, Awaited(t).value)
    ensures HasStatement(s, id, t)
  {
    match t.counter
    case Started => assert Statement(s, id, t, t.(counter := KeyLocked, locks := {KeyLock(KeyOf(t.command))}));
    case Converting => assert Statement(s, id, t, t.(counter := Converted, locks := t.locks + {Awaited(t).value}));
    case Positioning => assert Statement(s, id, t, t.(counter := Positioned, locks := t.locks + {Awaited(t).value}));
  }

  lemma RunnableCanStep(s: State, id: TxnId)
    requires Inv(s) && Unfinished(s, id)
    requires Awaited(s.txns[id]).None? || LockFree(s, id, Awaited(s.txns[id]).value)
    ensures CanStep(s, id)
  {
    var t := s.txns[id];
    if Commits(s, t) {
      var s' := s.(db := Insert(t.command, t.authority, t.recordedAt, s.db), txns := s.txns[id := CommittedTxn(t)]);
      assert Next(s, Step(id), s');
    } else {
      if t.counter.Ready? {
        assert Statement(s, id, t, Abandon(t));
      } else if Awaited(t).None? {
        ReadsAlwaysRun(s, id, t);
      } else {
        GrantsRun(s, id, t);
      }
      var t' :| Statement(s, id, t, t');
      assert Next(s, Step(id), s.(txns := s.txns[id := t']));
    }
  }

  /** Whoever holds an awaited lock is further along than whoever waits for it. */
  lemma HolderIsAhead(s: State, id: TxnId, other: TxnId)
    requires Inv(s) && id in s.txns && other in s.txns && Awaited(s.txns[id]).Some?
    requires Awaited(s.txns[id]).value in s.txns[other].locks
    ensures Unfinished(s, other) && Progress(s.txns[id].counter) < Progress(s.txns[other].counter)
  {
    assert s.txns[other].locks == LocksAt(s.txns[other]);
  }

  /** No run deadlocks on the locks taken explicitly: locks are taken in the order key, conversion, position,
      so from any unfinished transaction a chain of holders leads to one that can step. */
  lemma {:induction false} SomeoneCanStep(s: State, id: TxnId) returns (who: TxnId)
    requires Inv(s) && Unfinished(s, id)
    ensures Unfinished(s, who) && CanStep(s, who)
    decreases 11 - Progress(s.txns[id].counter)
  {
    var awaited := Awaited(s.txns[id]);
    if awaited.None? || LockFree(s, id, awaited.value) {
      RunnableCanStep(s, id);
      who := id;
    } else {
      var other :| other in s.txns && other != id && awaited.value in s.txns[other].locks;
      HolderIsAhead(s, id, other);
      who := SomeoneCanStep(s, other);
    }
  }

  /** In every state of every run, while a transaction is unfinished, some unfinished transaction can step. */
  lemma NoDeadlock(states: seq<State>, actions: seq<Action>, n: nat, id: TxnId)
    requires Run(states, actions) && n < |states| && Unfinished(states[n], id)
    ensures exists who :: Unfinished(states[n], who) && CanStep(states[n], who)
  {
    RunKeepsInv(states, actions, n);
    var who := SomeoneCanStep(states[n], id);
  }
}
