/** What every reachable state of the interleaved transactions satisfies. */
module PeopleInvariant {
  import opened Prelude
  import opened Facts
  import opened Allocation
  import opened Assignment
  import opened Employment
  import opened People
  import opened PeopleSteps

  // ---------------------------------------------------------------- the committed tables

  ghost predicate RecordedBy(db: Db, clock: int) {
    && (forall v :: v in db.employments ==> v.recorded.start <= clock)
    && (forall v :: v in db.positions ==> v.recorded.start <= clock)
    && (forall f :: f in db.assignments ==> f.recorded.start <= clock)
  }

  /** Keys and foreign keys: one owner for each employment, one open conversion for each person. */
  ghost predicate Keyed(db: Db) {
    && (forall v, w :: v in db.employments && w in db.employments && v.employment == w.employment
          ==> v.tenant == w.tenant && v.person == w.person)
    && (forall v :: v in db.employments ==> v.person in db.persons && db.persons[v.person] == v.tenant)
    && (forall c :: c in db.conversions ==> c.person in db.persons && db.persons[c.person] == c.tenant)
    && (forall tenant, person :: |Filter(db.conversions, OpenConversionOf(tenant, person))| <= 1)
    && (forall k :: k in db.keys && db.keys[k].digest.semantics.HireSemantics?
          ==> db.keys[k].record == db.keys[k].digest.semantics.conversion)
  }

  ghost predicate Owned(db: Db, f: AssignmentFact) {
    exists v :: v in db.employments && v.tenant == f.tenant && v.employment == f.employment && v.person == f.person
  }

  ghost predicate AssignmentsOwned(db: Db) {
    forall f :: f in db.assignments ==> RatioIsValid(f.ratio) && Owned(db, f)
  }

  /** Every seat and every employment is within capacity at every day and every knowledge cutoff. */
  ghost predicate WithinCapacity(assignments: seq<AssignmentFact>) {
    && (forall tenant, position, day, knownAt ::
          Load(assignments, OnPosition(tenant, position), day, knownAt) <= ONE)
    && (forall tenant, employment, day, knownAt ::
          Load(assignments, OnEmployment(tenant, employment), day, knownAt) <= ONE)
  }

  /** Nobody holds two exclusive employments on one day, at any knowledge cutoff. */
  ghost predicate Exclusive(employments: seq<EmploymentVersion>) {
    forall tenant, person, knownAt :: OneExclusiveEmployment(employments, tenant, person, knownAt)
  }

  ghost predicate DbInv(db: Db, clock: int) {
    && RecordedBy(db, clock)
    && Keyed(db)
    && AssignmentsOwned(db)
    && WithinCapacity(db.assignments)
    && Exclusive(db.employments)
  }

  // ---------------------------------------------------------------- one transaction

  predicate Guarded(c: Command) {
    c.CreateEmployment? || c.CreateAssignment?
  }

  ghost function ConversionLocks(t: Txn): set<Lock> {
    if Guarded(t.command) && |t.conversions| == 1 then {ConversionLock(t.conversions[0].id)} else {}
  }

  ghost function PositionLocks(t: Txn): set<Lock> {
    if t.command.CreateAssignment? && t.positions != [] then {PositionLock(t.command.position)} else {}
  }

  /** The locks a transaction holds at each of its statements. */
  ghost function LocksAt(t: Txn): set<Lock> {
    var at := Progress(t.counter);
    if at == 0 || at == 11 then {}
    else {KeyLock(KeyOf(t.command))}
         + (if 4 <= at then ConversionLocks(t) else {})
         + (if 7 <= at then PositionLocks(t) else {})
  }

  predicate PastReplay(t: Txn) {
    2 <= Progress(t.counter) <= 10
  }

  predicate HoldsConversion(t: Txn) {
    Guarded(t.command) && 4 <= Progress(t.counter) <= 10
  }

  predicate HasEmployments(t: Txn) {
    t.command.CreateAssignment? && 5 <= Progress(t.counter) <= 10
  }

  predicate HasPositions(t: Txn) {
    t.command.CreateAssignment? && 6 <= Progress(t.counter) <= 10
  }

  predicate HasClock(t: Txn) {
    8 <= Progress(t.counter) <= 10
  }

  predicate HasConflicts(t: Txn) {
    9 <= Progress(t.counter) <= 10
  }

  /** Only the guarded commands select a conversion, and only an assignment reads versions by name. */
  predicate OnItsPath(t: Txn) {
    var at := Progress(t.counter);
    && (3 <= at <= 9 ==> Guarded(t.command))
    && (5 <= at <= 7 ==> t.command.CreateAssignment?)
  }

  ghost predicate ConversionsRead(db: Db, t: Txn)
    requires Guarded(t.command)
  {
    forall c :: c in t.conversions ==> c in db.conversions && OpenConversionOf(t.command.tenant, t.command.person)(c)
  }

  /** The conversion row in hand is the one open conversion of the person. */
  ghost predicate ConversionRead(db: Db, t: Txn)
    requires Guarded(t.command)
  {
    && |t.conversions| == 1
    && t.conversions[0] in db.conversions
    && OpenConversionOf(t.command.tenant, t.command.person)(t.conversions[0])
  }

  /** The named versions in hand are still all the versions, if there were any. */
  ghost predicate EmploymentsStable(db: Db, t: Txn)
    requires t.command.CreateAssignment?
  {
    var c := t.command;
    t.employments != [] ==> ResultOf(t.employments, Filter(db.employments, OfEmployment(c.tenant, c.employment)))
  }

  ghost predicate PositionsStable(db: Db, t: Txn)
    requires t.command.CreateAssignment?
  {
    t.positions != [] ==> ResultOf(t.positions, Filter(db.positions, OfPosition(t.command.tenant, t.command.position)))
  }

  /** Only such an assignment can still be accepted: its employment belongs to its person, its position exists. */
  ghost predicate Promising(t: Txn)
    requires t.command.CreateAssignment?
  {
    t.employments != [] && t.positions != [] && forall v :: v in t.employments ==> v.person == t.command.person
  }

  function Conflicting(c: Command): Scope
    requires c.CreateAssignment?
  {
    SharesEmploymentOrPosition(c.tenant, c.employment, c.position)
  }

  /** The rows that may conflict were all recorded no later than the transaction's own instant. */
  ghost predicate ConflictsKnown(db: Db, t: Txn) {
    var c := t.command;
    if c.CreateEmployment? then
      forall v :: v in db.employments && OfPerson(c.tenant, c.person)(v) ==> v.recorded.start <= t.recordedAt
    else if t.command.CreateAssignment? then
      Promising(t) ==> forall f :: f in db.assignments && Conflicting(t.command)(f) ==> f.recorded.start <= t.recordedAt
    else true
  }

  ghost predicate ConflictsStable(db: Db, t: Txn) {
    if t.command.CreateEmployment? then
      ResultOf(t.employments, Filter(db.employments, OfPerson(t.command.tenant, t.command.person)))
    else if t.command.CreateAssignment? then
      Promising(t) ==> ResultOf(t.assignments, Filter(db.assignments, Conflicting(t.command)))
    else true
  }

  ghost predicate Checked(db: Db, t: Txn) {
    match t.command
    case CreateEmployment(_, _, _, _, _, _, _, _, _, _, _) => KernelAccepts(t)
    case CreateAssignment(_, _, _, _, _, _, _, _, _, _, _) => KernelAccepts(t) && Promising(t)
    case CreatePosition(_, _, _, _, _, _, _, _, _, _, _) => ParentsExist(t.command, db) && t.recordedAt == t.startedAt
    case AcceptHire(_, _, _, _, _, _, _, _, _, _, _, _, _, _) =>
      DecisionConfirmsHire(t.command, t.authority, db, t.recordedAt) && t.recordedAt == t.startedAt
  }

  ghost predicate Persisted(db: Db, t: Txn) {
    && AuditOf(t.command, t.authority, t.recordedAt) in db.audits
    && match t.command
       case CreateEmployment(_, _, _, _, _, _, _, _, _, _, _) =>
         ProposedEmployment(t.command, t.recordedAt) in db.employments
       case CreatePosition(_, _, _, _, _, _, _, _, _, _, _) =>
         ProposedPosition(t.command, t.recordedAt) in db.positions
       case CreateAssignment(_, _, _, _, _, _, _, _, _, _, _) =>
         ProposedAssignment(t.command, t.recordedAt) in db.assignments
       case AcceptHire(_, _, _, _, _, _, _, _, _, _, _, _, _, _) =>
         ProposedEmployment(t.command, t.recordedAt) in db.employments
  }

  /** A finished transaction answered from the key row that is committed now. */
  ghost predicate AnsweredFromRow(db: Db, t: Txn) {
    match t.counter
    case Finished(Committed(answer)) =>
      && KeyOf(t.command) in db.keys
      && db.keys[KeyOf(t.command)] == KeyRow(CreatedRecord(t.command), Digest(t.command, t.authority))
      && answer == AnswerWith(t.command, CreatedRecord(t.command))
      && Persisted(db, t)
    case Finished(Replayed(answer)) =>
      && KeyOf(t.command) in db.keys
      && db.keys[KeyOf(t.command)].digest == Digest(t.command, t.authority)
      && answer == AnswerWith(t.command, db.keys[KeyOf(t.command)].record)
    case _ => true
  }

  ghost predicate TxnInv(db: Db, clock: int, t: Txn) {
    && Constructible(t.command)
    && t.startedAt <= clock
    && t.locks == LocksAt(t)
    && (PastReplay(t) ==> KeyOf(t.command) !in db.keys)
    && OnItsPath(t)
    && (t.counter.Converting? ==> ConversionsRead(db, t))
    && (HoldsConversion(t) ==> ConversionRead(db, t))
    && (HasEmployments(t) ==> EmploymentsStable(db, t))
    && (HasPositions(t) ==> PositionsStable(db, t))
    && (HasClock(t) ==> t.startedAt <= t.recordedAt <= clock && ConflictsKnown(db, t))
    && (HasConflicts(t) ==> ConflictsStable(db, t))
    && (t.counter.Ready? ==> Checked(db, t))
    && AnsweredFromRow(db, t)
  }

  ghost predicate LocksExclusive(s: State) {
    forall i, j :: i in s.txns && j in s.txns && i != j ==> s.txns[i].locks !! s.txns[j].locks
  }

  ghost predicate Inv(s: State) {
    && DbInv(s.db, s.clock)
    && (forall i :: i in s.txns ==> TxnInv(s.db, s.clock, s.txns[i]))
    && LocksExclusive(s)
  }

  // ---------------------------------------------------------------- steps that commit nothing

  lemma ResultMembers<T(!new)>(rows: seq<T>, selected: seq<T>)
    requires ResultOf(rows, selected)
    ensures |rows| == |selected|
    ensures forall x :: x in rows <==> x in selected
  {
    PermutationMembers(rows, selected);
  }

  lemma ClockAdvances(db: Db, clock: int, later: int, t: Txn)
    requires clock <= later && TxnInv(db, clock, t)
    ensures TxnInv(db, later, t)
  {
  }

  lemma AbandonKeepsInv(db: Db, clock: int, t: Txn)
    requires TxnInv(db, clock, t)
    ensures TxnInv(db, clock, Abandon(t))
  {
  }

  lemma KernelNeedsPromise(t: Txn, db: Db, clock: int)
    requires TxnInv(db, clock, t) && t.counter.Loaded? && t.command.CreateAssignment? && KernelAccepts(t)
    ensures Promising(t)
  {
    var c := t.command;
    var proposed := ProposedAssignment(c, t.recordedAt);
    if t.employments != [] {
      ResultMembers(t.employments, Filter(db.employments, OfEmployment(c.tenant, c.employment)));
    }
    EmploymentCoverageMeaning(proposed, t.employments, t.recordedAt);
    var day := proposed.effective.start;
    assert proposed.effective.Contains(day);
    assert EligibleOn(proposed, t.employments, day, t.recordedAt);
    var v := EmploymentOn(proposed, t.employments, day, t.recordedAt)[0];
    assert v in EmploymentOn(proposed, t.employments, day, t.recordedAt);
    assert v in t.employments;
    assert StaffableOn(proposed, t.positions, day, t.recordedAt);
    assert PersonMatches(proposed, t.employments);
  }

  lemma StepStarted(s: State, t: Txn, t': Txn)
    requires t.counter.Started? && TxnInv(s.db, s.clock, t)
    requires t' == t.(counter := KeyLocked, locks := {KeyLock(KeyOf(t.command))})
    ensures TxnInv(s.db, s.clock, t')
  {
  }

  lemma StepKeyLocked(s: State, t: Txn, t': Txn)
    requires t.counter.KeyLocked? && TxnInv(s.db, s.clock, t)
    requires t' == ReadReplay(s.db, t)
    ensures TxnInv(s.db, s.clock, t')
  {
  }

  lemma StepFresh(s: State, t: Txn, t': Txn)
    requires t.counter.Fresh? && TxnInv(s.db, s.clock, t)
    requires FreshStep(s, t, t')
    ensures TxnInv(s.db, s.clock, t')
  {
    var c := t.command;
    if Guarded(c) {
      ResultMembers(t'.conversions, Filter(s.db.conversions, OpenConversionOf(c.tenant, c.person)));
    }
  }

  lemma StepConverting(s: State, id: TxnId, t: Txn, t': Txn)
    requires t.counter.Converting?
    requires DbInv(s.db, s.clock) && TxnInv(s.db, s.clock, t) && Statement(s, id, t, t')
    ensures TxnInv(s.db, s.clock, t')
  {
    if |t.conversions| == 1 {
      assert t.conversions[0] in t.conversions;
    }
  }

  lemma StepConverted(s: State, id: TxnId, t: Txn, t': Txn)
    requires t.counter.Converted?
    requires DbInv(s.db, s.clock) && TxnInv(s.db, s.clock, t) && Statement(s, id, t, t')
    ensures TxnInv(s.db, s.clock, t')
  {
  }

  lemma StepEmploymentRead(s: State, id: TxnId, t: Txn, t': Txn)
    requires t.counter.EmploymentRead?
    requires DbInv(s.db, s.clock) && TxnInv(s.db, s.clock, t) && Statement(s, id, t, t')
    ensures TxnInv(s.db, s.clock, t')
  {
  }

  lemma StepPositioning(s: State, id: TxnId, t: Txn, t': Txn)
    requires t.counter.Positioning?
    requires DbInv(s.db, s.clock) && TxnInv(s.db, s.clock, t) && Statement(s, id, t, t')
    ensures TxnInv(s.db, s.clock, t')
  {
  }

  lemma StepPositioned(s: State, t: Txn, t': Txn)
    requires t.counter.Positioned? && TxnInv(s.db, s.clock, t)
    requires t' == t.(counter := Clocked, recordedAt := s.clock)
    requires RecordedBy(s.db, s.clock)
    ensures TxnInv(s.db, s.clock, t')
  {
  }

  lemma StepClockedEmployment(s: State, t: Txn, rows: seq<EmploymentVersion>)
    requires t.counter.Clocked? && TxnInv(s.db, s.clock, t) && t.command.CreateEmployment?
    requires ResultOf(rows, Filter(s.db.employments, OfPerson(t.command.tenant, t.command.person)))
    ensures TxnInv(s.db, s.clock, t.(counter := Loaded, employments := rows))
  {
    var t' := t.(counter := Loaded, employments := rows);
    assert ConflictsKnown(s.db, t');
    assert ConflictsStable(s.db, t');
  }

  lemma StepClockedAssignment(s: State, t: Txn, rows: seq<AssignmentFact>)
    requires t.counter.Clocked? && TxnInv(s.db, s.clock, t) && t.command.CreateAssignment?
    requires ResultOf(rows, Filter(s.db.assignments, Conflicting(t.command)))
    ensures TxnInv(s.db, s.clock, t.(counter := Loaded, assignments := rows))
  {
    var t' := t.(counter := Loaded, assignments := rows);
    assert Promising(t') == Promising(t);
    assert ConflictsKnown(s.db, t');
    assert ConflictsStable(s.db, t');
  }

  lemma StepLoaded(s: State, t: Txn, t': Txn)
    requires t.counter.Loaded? && TxnInv(s.db, s.clock, t)
    requires t' == if KernelAccepts(t) then t.(counter := Ready) else Abandon(t)
    ensures TxnInv(s.db, s.clock, t')
  {
    if KernelAccepts(t) {
      if t.command.CreateAssignment? {
        KernelNeedsPromise(t, s.db, s.clock);
        assert EmploymentsStable(s.db, t') && PositionsStable(s.db, t');
      }
      assert t' == t.(counter := Ready);
      assert ConversionRead(s.db, t');
      assert ConflictsKnown(s.db, t') && ConflictsStable(s.db, t');
      assert Checked(s.db, t');
    } else {
      AbandonKeepsInv(s.db, s.clock, t);
    }
  }

  /** A statement keeps the transaction's own invariant. */
  lemma StatementKeepsInv(s: State, id: TxnId, t: Txn, t': Txn)
    requires DbInv(s.db, s.clock) && TxnInv(s.db, s.clock, t) && Statement(s, id, t, t')
    ensures TxnInv(s.db, s.clock, t')
  {
    match t.counter
    case Started => StepStarted(s, t, t');
    case KeyLocked => StepKeyLocked(s, t, t');
    case Fresh => StepFresh(s, t, t');
    case Converting => StepConverting(s, id, t, t');
    case Converted => StepConverted(s, id, t, t');
    case EmploymentRead => StepEmploymentRead(s, id, t, t');
    case Positioning => StepPositioning(s, id, t, t');
    case Positioned => StepPositioned(s, t, t');
    case Clocked =>
      if t.command.CreateEmployment? {
        StepClockedEmployment(s, t, t'.employments);
      } else {
        StepClockedAssignment(s, t, t'.assignments);
      }
    case Loaded => StepLoaded(s, t, t');
    case Ready => AbandonKeepsInv(s.db, s.clock, t);
    case Finished(_) =>
  }
}
