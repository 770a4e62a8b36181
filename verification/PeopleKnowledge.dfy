/** When the facts known at a past cutoff are settled, and exactly what unsettles them. */
module PeopleKnowledge {
  import opened Prelude
  import opened Facts
  import opened Allocation
  import opened People
  import opened PeopleSteps
  import opened PeopleInvariant
  import opened PeopleCommit
  import opened PeopleSystem

  function KnownEmployment(knownAt: int): EmploymentVersion -> bool {
    (v: EmploymentVersion) => v.recorded.Contains(knownAt)
  }

  function KnownPosition(knownAt: int): PositionVersion -> bool {
    (v: PositionVersion) => v.recorded.Contains(knownAt)
  }

  function KnownAssignment(knownAt: int): Scope {
    (f: AssignmentFact) => f.recorded.Contains(knownAt)
  }

  datatype Knowledge = Knowledge(
    employments: seq<EmploymentVersion>, positions: seq<PositionVersion>, assignments: seq<AssignmentFact>)
  {
    function Size(): nat {
      |employments| + |positions| + |assignments|
    }
  }

  /** The facts known at a cutoff, in table order. */
  ghost function KnownThen(db: Db, knownAt: int): Knowledge {
    Knowledge(Filter(db.employments, KnownEmployment(knownAt)), Filter(db.positions, KnownPosition(knownAt)),
              Filter(db.assignments, KnownAssignment(knownAt)))
  }

  // ---------------------------------------------------------------- one commit

  /** A commit adds one fact to what is known from its recorded instant on, and nothing before. */
  lemma CommitAddsKnowledge(db: Db, u: Txn, knownAt: int)
    ensures (KnownThen(After(db, u), knownAt).Size() ==
             KnownThen(db, knownAt).Size() + if u.recordedAt <= knownAt then 1 else 0)
    ensures knownAt < u.recordedAt ==> KnownThen(After(db, u), knownAt) == KnownThen(db, knownAt)
  {
    var c := u.command;
    if c.CreateEmployment? || c.AcceptHire? {
      FilterAppend(db.employments, [ProposedEmployment(c, u.recordedAt)], KnownEmployment(knownAt));
    } else if c.CreatePosition? {
      FilterAppend(db.positions, [ProposedPosition(c, u.recordedAt)], KnownPosition(knownAt));
    } else {
      FilterAppend(db.assignments, [ProposedAssignment(c, u.recordedAt)], KnownAssignment(knownAt));
    }
  }

  /** Per commit, exactly: what was known at a cutoff changes if and only if the commit's recorded instant is not later
      than the cutoff, whatever the command. */
  lemma CommitChangesKnowledge(db: Db, u: Txn, knownAt: int)
    ensures KnownThen(After(db, u), knownAt) != KnownThen(db, knownAt) <==> u.recordedAt <= knownAt
  {
    CommitAddsKnowledge(db, u, knownAt);
  }

  // ---------------------------------------------------------------- one run

  /** The step commits a fact recorded no later than the cutoff. */
  ghost predicate RecordsBy(s: State, action: Action, knownAt: int) {
    action.Step? && action.id in s.txns && Commits(s, s.txns[action.id]) && s.txns[action.id].recordedAt <= knownAt
  }

  lemma NextChangesKnowledge(s: State, action: Action, s': State, knownAt: int)
    requires Next(s, action, s')
    ensures RecordsBy(s, action, knownAt) ==> KnownThen(s'.db, knownAt).Size() > KnownThen(s.db, knownAt).Size()
    ensures !RecordsBy(s, action, knownAt) ==> KnownThen(s'.db, knownAt) == KnownThen(s.db, knownAt)
  {
    if action.Step? && Commits(s, s.txns[action.id]) {
      CommitAddsKnowledge(s.db, s.txns[action.id], knownAt);
    } else {
      assert s'.db == s.db;
    }
  }

  ghost predicate RecordsAt(states: seq<State>, actions: seq<Action>, n: nat, knownAt: int)
    requires n < |actions| < |states|
  {
    RecordsBy(states[n], actions[n], knownAt)
  }

  /** What is known either stays or grows by each step. */
  ghost predicate GrowsOrStays(ks: seq<Knowledge>, grows: seq<bool>) {
    && |ks| == |grows| + 1
    && forall k :: 0 <= k < |grows| ==> if grows[k] then ks[k].Size() < ks[k + 1].Size() else ks[k] == ks[k + 1]
  }

  lemma {:induction false} GrowthChain(ks: seq<Knowledge>, grows: seq<bool>, m: nat, n: nat)
    requires GrowsOrStays(ks, grows) && m <= n < |ks|
    ensures ks[m] == ks[n] <==> forall k :: m <= k < n ==> !grows[k]
    ensures ks[m].Size() <= ks[n].Size()
    decreases n
  {
    if m < n {
      GrowthChain(ks, grows, m, n - 1);
      assert if grows[n - 1] then ks[n - 1].Size() < ks[n].Size() else ks[n - 1] == ks[n];
    }
  }

  /** Over a run, exactly: what was known at a cutoff differs between two states if and only if some step in between
      commits a fact recorded no later than the cutoff. */
  lemma RunChangesKnowledge(states: seq<State>, actions: seq<Action>, m: nat, n: nat, knownAt: int)
    requires Steps(states, actions) && m <= n < |states|
    ensures (KnownThen(states[m].db, knownAt) == KnownThen(states[n].db, knownAt) <==>
             forall k :: m <= k < n ==> !RecordsAt(states, actions, k, knownAt))
  {
    var ks := seq(|states|, k requires 0 <= k < |states| => KnownThen(states[k].db, knownAt));
    var grows := seq(|actions|, k requires 0 <= k < |actions| => RecordsAt(states, actions, k, knownAt));
    forall k | 0 <= k < |actions|
      ensures if grows[k] then ks[k].Size() < ks[k + 1].Size() else ks[k] == ks[k + 1]
    {
      NextChangesKnowledge(states[k], actions[k], states[k + 1], knownAt);
    }
    GrowthChain(ks, grows, m, n);
    assert forall k :: m <= k < n ==> grows[k] == RecordsAt(states, actions, k, knownAt);
  }

  // ---------------------------------------------------------------- settled cutoffs

  /** An open transaction whose fact, if it commits, is recorded no later than the cutoff: a guarded command past its
      clock read, or a position or hire from its start on. */
  predicate MayRecordBy(t: Txn, knownAt: int) {
    && !t.counter.Finished?
    && if Guarded(t.command) then HasClock(t) && t.recordedAt <= knownAt else t.startedAt <= knownAt
  }

  /** The cutoff is past, and no open transaction may still record by it. */
  ghost predicate Settled(s: State, knownAt: int) {
    knownAt < s.clock && forall i :: i in s.txns ==> !MayRecordBy(s.txns[i], knownAt)
  }

  lemma StatementKeepsSettled(s: State, id: TxnId, t: Txn, t': Txn, knownAt: int)
    requires Statement(s, id, t, t') && knownAt < s.clock
    requires !MayRecordBy(t, knownAt)
    ensures !MayRecordBy(t', knownAt)
  {
    match t.counter
    case Fresh =>
    case Clocked =>
    case _ =>
  }

  lemma NextKeepsSettled(s: State, action: Action, s': State, knownAt: int)
    requires Next(s, action, s') && Settled(s, knownAt)
    ensures Settled(s', knownAt)
  {
    if action.Step? && !Commits(s, s.txns[action.id]) {
      StatementKeepsSettled(s, action.id, s.txns[action.id], s'.txns[action.id], knownAt);
    }
  }

  lemma SettledRecordsNothing(s: State, action: Action, knownAt: int)
    requires Inv(s) && Settled(s, knownAt)
    ensures !RecordsBy(s, action, knownAt)
  {
    if action.Step? && action.id in s.txns {
      var t := s.txns[action.id];
      assert TxnInv(s.db, s.clock, t) && !MayRecordBy(t, knownAt);
    }
  }

  lemma {:induction false} RunStaysSettled(states: seq<State>, actions: seq<Action>, m: nat, n: nat, knownAt: int)
    requires Steps(states, actions) && m <= n < |states| && Settled(states[m], knownAt)
    ensures Settled(states[n], knownAt)
    decreases n
  {
    if m < n {
      RunStaysSettled(states, actions, m, n - 1, knownAt);
      NextKeepsSettled(states[n - 1], actions[n - 1], states[n], knownAt);
    }
  }

  /** A past cutoff that no open transaction may still record by is settled for good: in every later state of the run
      the employments, positions and assignments known at it are the same. */
  lemma SettledKnowledgeStays(states: seq<State>, actions: seq<Action>, m: nat, n: nat, knownAt: int)
    requires Run(states, actions) && m <= n < |states| && Settled(states[m], knownAt)
    ensures KnownThen(states[n].db, knownAt) == KnownThen(states[m].db, knownAt)
  {
    forall k | m <= k < n ensures !RecordsAt(states, actions, k, knownAt) {
      RunStaysSettled(states, actions, m, k, knownAt);
      RunKeepsInv(states, actions, k);
      SettledRecordsNothing(states[k], actions[k], knownAt);
    }
    RunChangesKnowledge(states, actions, m, n, knownAt);
  }

  // ---------------------------------------------------------------- a past cutoff that changes

  function LateCommand(): Command {
    CreatePosition(1, 1, 1, 1, 1, 1, "open", 0, "", "", "")
  }

  function OneParent(): Db {
    Db(map[], [], [], [], [], [], map[], [], {(1, 1, 1)})
  }

  /** The late transaction at one of its statements, begun and recorded at instant 0. */
  function LateTxn(counter: Counter): Txn {
    var key := KeyLock(KeyOf(LateCommand()));
    Txn(LateCommand(), Authority("", ""), 0, counter, if counter.Started? then {} else {key}, [], [], [], 0, [])
  }

  function LateState(clock: int, counter: Counter): State {
    State(OneParent(), clock, map[0 := LateTxn(counter)])
  }

  function AfterLateCommit(): State {
    State(After(OneParent(), LateTxn(Ready)), 5, map[0 := CommittedTxn(LateTxn(Ready))])
  }

  function LateStates(): seq<State> {
    [State(OneParent(), 0, map[]), LateState(0, Started), LateState(0, KeyLocked), LateState(0, Fresh),
     LateState(0, Ready), LateState(5, Ready), AfterLateCommit()]
  }

  function LateActions(): seq<Action> {
    [Begin(0, LateCommand(), Authority("", "")), Step(0), Step(0), Step(0), Tick(5), Step(0)]
  }

  /** The transaction's own statements: the key lock, the replay read, the parents. */
  lemma LateStatements(n: nat)
    requires 1 <= n <= 3
    ensures Next(LateStates()[n], Step(0), LateStates()[n + 1])
  {
    var s, s' := LateStates()[n], LateStates()[n + 1];
    assert !Commits(s, s.txns[0]);
    assert Statement(s, 0, s.txns[0], s'.txns[0]);
    assert s' == s.(txns := s.txns[0 := s'.txns[0]]);
  }

  lemma LateBegin()
    ensures Next(LateStates()[0], LateActions()[0], LateStates()[1])
    ensures Next(LateStates()[4], LateActions()[4], LateStates()[5])
  {
  }

  lemma LateCommit()
    ensures Next(LateStates()[5], Step(0), LateStates()[6])
  {
    assert Commits(LateStates()[5], LateTxn(Ready));
  }

  lemma LateStep(n: nat)
    requires n < 6
    ensures Next(LateStates()[n], LateActions()[n], LateStates()[n + 1])
  {
    if n == 0 || n == 4 {
      LateBegin();
    } else if n == 5 {
      LateCommit();
    } else {
      LateStatements(n);
    }
  }

  lemma LateRun()
    ensures Run(LateStates(), LateActions())
  {
    EmptyTablesStart([], {(1, 1, 1)}, 0);
    forall n | 0 <= n < |LateActions()| ensures Next(LateStates()[n], LateActions()[n], LateStates()[n + 1]) {
      LateStep(n);
    }
  }

  /** A run, from nothing but one position parent, in which the past changes: at instant 5 nothing is known as of
      cutoff 3, and one commit later a position is. */
  lemma LateCommitChangesThePast()
    ensures Run(LateStates(), LateActions())
    ensures LateStates()[5].clock == 5 && Inv(LateStates()[5]) && !Settled(LateStates()[5], 3)
    ensures KnownThen(LateStates()[5].db, 3) != KnownThen(LateStates()[6].db, 3)
  {
    LateRun();
    RunKeepsInv(LateStates(), LateActions(), 5);
    CommitChangesKnowledge(OneParent(), LateTxn(Ready), 3);
    assert MayRecordBy(LateStates()[5].txns[0], 3);
  }
}
