/** What a commit leaves unchanged for every other transaction in flight. */
module PeopleCommit {
  import opened Prelude
  import opened Facts
  import opened Assignment
  import opened Employment
  import opened People
  import opened PeopleSteps
  import opened PeopleInvariant

  ghost predicate CanCommit(db: Db, clock: int, u: Txn) {
    DbInv(db, clock) && TxnInv(db, clock, u) && u.counter.Ready? && IdentitiesFree(u.command, db)
  }

  function After(db: Db, u: Txn): Db {
    Insert(u.command, u.authority, u.recordedAt, db)
  }

  /** Two transactions with the conversion row of one person would hold the same lock. */
  lemma OneHolderPerPerson(db: Db, clock: int, t: Txn, u: Txn)
    requires Keyed(db) && TxnInv(db, clock, t) && TxnInv(db, clock, u)
    requires HoldsConversion(t) && HoldsConversion(u)
    requires t.command.tenant == u.command.tenant && t.command.person == u.command.person
    ensures !(t.locks !! u.locks)
  {
    var p := OpenConversionOf(t.command.tenant, t.command.person);
    var rows := Filter(db.conversions, p);
    assert t.conversions[0] in rows && u.conversions[0] in rows;
    assert |rows| <= 1;
    assert t.conversions[0] == rows[0] && u.conversions[0] == rows[0];
    assert ConversionLock(rows[0].id) in t.locks && ConversionLock(rows[0].id) in u.locks;
  }

  lemma ConvertedPersonExists(db: Db, clock: int, t: Txn)
    requires Keyed(db) && TxnInv(db, clock, t) && HoldsConversion(t)
    ensures t.command.person in db.persons
  {
  }

  /** While a transaction holds the conversion row of its person, nobody adds an employment of the person. */
  lemma PersonEmploymentsKept(db: Db, clock: int, t: Txn, u: Txn)
    requires CanCommit(db, clock, u) && TxnInv(db, clock, t) && HoldsConversion(t) && t.locks !! u.locks
    ensures var p := OfPerson(t.command.tenant, t.command.person);
            Filter(After(db, u).employments, p) == Filter(db.employments, p)
  {
    var p := OfPerson(t.command.tenant, t.command.person);
    var c := u.command;
    ConvertedPersonExists(db, clock, t);
    if c.CreateEmployment? || c.AcceptHire? {
      var v := ProposedEmployment(c, u.recordedAt);
      if p(v) && c.CreateEmployment? {
        OneHolderPerPerson(db, clock, t, u);
      }
      FilterAppendMiss(db.employments, [v], p);
    }
  }

  /** The versions of an employment that exists are never added to. */
  lemma NamedEmploymentKept(db: Db, clock: int, u: Txn, tenant: Uuid, employment: Uuid)
    requires CanCommit(db, clock, u)
    requires exists v :: v in db.employments && v.employment == employment
    ensures var p := OfEmployment(tenant, employment);
            Filter(After(db, u).employments, p) == Filter(db.employments, p)
  {
    var c := u.command;
    if c.CreateEmployment? || c.AcceptHire? {
      FilterAppendMiss(db.employments, [ProposedEmployment(c, u.recordedAt)], OfEmployment(tenant, employment));
    }
  }

  lemma NamedPositionKept(db: Db, clock: int, u: Txn, tenant: Uuid, position: Uuid)
    requires CanCommit(db, clock, u)
    requires exists v :: v in db.positions && v.position == position
    ensures var p := OfPosition(tenant, position);
            Filter(After(db, u).positions, p) == Filter(db.positions, p)
  {
    if u.command.CreatePosition? {
      FilterAppendMiss(db.positions, [ProposedPosition(u.command, u.recordedAt)], OfPosition(tenant, position));
    }
  }

  /** The rows in hand are rows of the table. */
  lemma InHand<T(!new)>(rows: seq<T>, table: seq<T>, p: T -> bool)
    requires ResultOf(rows, Filter(table, p))
    ensures forall x :: x in rows <==> x in table && p(x)
  {
    ResultMembers(rows, Filter(table, p));
  }

  /** A promising assignment's employment belongs to its person in the committed tables. */
  lemma PromiseNamesOwner(db: Db, clock: int, t: Txn, v: EmploymentVersion)
    requires Keyed(db) && TxnInv(db, clock, t) && HasPositions(t) && Promising(t)
    requires v in db.employments && v.employment == t.command.employment
    ensures v.tenant == t.command.tenant && v.person == t.command.person
  {
    InHand(t.employments, db.employments, OfEmployment(t.command.tenant, t.command.employment));
    var w := t.employments[0];
    assert w in t.employments;
  }

  /** Two promising assignments that could conflict would hold a common lock. */
  lemma ConflictingAssignmentsExclude(db: Db, clock: int, t: Txn, u: Txn)
    requires Keyed(db) && TxnInv(db, clock, t) && TxnInv(db, clock, u)
    requires t.command.CreateAssignment? && u.command.CreateAssignment?
    requires HasPositions(t) && Progress(t.counter) >= 7 && Promising(t)
    requires u.counter.Ready?
    requires Conflicting(t.command)(ProposedAssignment(u.command, u.recordedAt))
    ensures !(t.locks !! u.locks)
  {
    if u.command.position == t.command.position {
      PositionHoldersExclude(db, clock, t, u);
    } else {
      EmploymentHoldersExclude(db, clock, t, u);
    }
  }

  /** Both hold the position's lock. */
  lemma PositionHoldersExclude(db: Db, clock: int, t: Txn, u: Txn)
    requires TxnInv(db, clock, t) && TxnInv(db, clock, u)
    requires t.command.CreateAssignment? && u.command.CreateAssignment? && u.command.position == t.command.position
    requires HasPositions(t) && Progress(t.counter) >= 7 && t.positions != []
    requires u.counter.Ready? && u.positions != []
    ensures !(t.locks !! u.locks)
  {
    assert PositionLock(t.command.position) in LocksAt(t) && PositionLock(t.command.position) in LocksAt(u);
  }

  /** The employment has one owner, and both hold that person's conversion lock. */
  lemma EmploymentHoldersExclude(db: Db, clock: int, t: Txn, u: Txn)
    requires Keyed(db) && TxnInv(db, clock, t) && TxnInv(db, clock, u)
    requires t.command.CreateAssignment? && u.command.CreateAssignment?
    requires t.command.tenant == u.command.tenant && t.command.employment == u.command.employment
    requires HasPositions(t) && Promising(t) && u.counter.Ready?
    ensures !(t.locks !! u.locks)
  {
    InHand(u.employments, db.employments, OfEmployment(u.command.tenant, u.command.employment));
    var v := u.employments[0];
    assert v in u.employments;
    PromiseNamesOwner(db, clock, t, v);
    OneHolderPerPerson(db, clock, t, u);
  }

  /** From the position lock on, nobody adds an assignment to the employment or the position of a promising one. */
  lemma ConflictsKept(db: Db, clock: int, t: Txn, u: Txn)
    requires CanCommit(db, clock, u) && TxnInv(db, clock, t) && t.locks !! u.locks
    requires HasPositions(t) && Progress(t.counter) >= 7 && Promising(t)
    ensures Filter(After(db, u).assignments, Conflicting(t.command)) == Filter(db.assignments, Conflicting(t.command))
    ensures forall f :: f in After(db, u).assignments && Conflicting(t.command)(f) ==> f in db.assignments
  {
    if u.command.CreateAssignment? {
      var f := ProposedAssignment(u.command, u.recordedAt);
      if Conflicting(t.command)(f) {
        ConflictingAssignmentsExclude(db, clock, t, u);
      }
      FilterAppendMiss(db.assignments, [f], Conflicting(t.command));
    }
  }

  // ---------------------------------------------------------------- tables only grow

  ghost predicate Grows(db: Db, db': Db) {
    && db.employments <= db'.employments
    && db.positions <= db'.positions
    && db.assignments <= db'.assignments
    && db.conversions <= db'.conversions
    && db.audits <= db'.audits
    && (forall k :: k in db.keys ==> k in db'.keys && db'.keys[k] == db.keys[k])
    && db'.decisions == db.decisions && db'.parents == db.parents
  }

  lemma PrefixMembers<T>(a: seq<T>, b: seq<T>)
    requires a <= b
    ensures forall x :: x in a ==> x in b
  {
    forall x | x in a ensures x in b {
      var i :| 0 <= i < |a| && a[i] == x;
      assert b[i] == x;
    }
  }

  lemma CommitGrows(db: Db, u: Txn)
    requires IdentitiesFree(u.command, db)
    ensures Grows(db, After(db, u))
  {
  }

  lemma AnswersStand(db: Db, db': Db, t: Txn)
    requires Grows(db, db') && AnsweredFromRow(db, t)
    ensures AnsweredFromRow(db', t)
  {
    PrefixMembers(db.employments, db'.employments);
    PrefixMembers(db.positions, db'.positions);
    PrefixMembers(db.assignments, db'.assignments);
    PrefixMembers(db.audits, db'.audits);
  }

  // ---------------------------------------------------------------- other transactions

  lemma ReadsKept(db: Db, clock: int, t: Txn, u: Txn)
    requires CanCommit(db, clock, u) && TxnInv(db, clock, t) && t.locks !! u.locks
    ensures HoldsConversion(t) ==> ConversionRead(After(db, u), t)
    ensures HasEmployments(t) ==> EmploymentsStable(After(db, u), t)
    ensures HasPositions(t) ==> PositionsStable(After(db, u), t)
  {
    CommitGrows(db, u);
    PrefixMembers(db.conversions, After(db, u).conversions);
    var c := t.command;
    if HasEmployments(t) && t.employments != [] {
      InHand(t.employments, db.employments, OfEmployment(c.tenant, c.employment));
      assert t.employments[0] in t.employments;
      NamedEmploymentKept(db, clock, u, c.tenant, c.employment);
    }
    if HasPositions(t) && t.positions != [] {
      InHand(t.positions, db.positions, OfPosition(c.tenant, c.position));
      assert t.positions[0] in t.positions;
      NamedPositionKept(db, clock, u, c.tenant, c.position);
    }
  }

  lemma ConflictReadsKept(db: Db, clock: int, t: Txn, u: Txn)
    requires CanCommit(db, clock, u) && TxnInv(db, clock, t) && t.locks !! u.locks
    ensures HasClock(t) ==> ConflictsKnown(After(db, u), t)
    ensures HasConflicts(t) ==> ConflictsStable(After(db, u), t)
  {
    if HasClock(t) && t.command.CreateEmployment? {
      var p := OfPerson(t.command.tenant, t.command.person);
      PersonEmploymentsKept(db, clock, t, u);
      forall v | v in After(db, u).employments && p(v) ensures v.recorded.start <= t.recordedAt {
        assert v in Filter(After(db, u).employments, p);
        assert v in Filter(db.employments, p);
      }
    }
    if HasClock(t) && t.command.CreateAssignment? && Promising(t) {
      ConflictsKept(db, clock, t, u);
    }
  }

  /** A commit keeps the invariant of every other transaction: what it has read is still what the tables hold. */
  lemma CommitKeepsOthers(db: Db, clock: int, t: Txn, u: Txn)
    requires CanCommit(db, clock, u) && TxnInv(db, clock, t) && t.locks !! u.locks
    ensures TxnInv(After(db, u), clock, t)
  {
    CommitGrows(db, u);
    AnswersStand(db, After(db, u), t);
    ReadsKept(db, clock, t, u);
    ConflictReadsKept(db, clock, t, u);
    PrefixMembers(db.conversions, After(db, u).conversions);
    KeyStaysFree(db, clock, t, u);
  }

  lemma KeyStaysFree(db: Db, clock: int, t: Txn, u: Txn)
    requires TxnInv(db, clock, u) && u.counter.Ready? && TxnInv(db, clock, t) && t.locks !! u.locks
    ensures PastReplay(t) ==> KeyOf(t.command) !in After(db, u).keys
  {
    if PastReplay(t) {
      assert KeyLock(KeyOf(t.command)) in t.locks && KeyLock(KeyOf(u.command)) in u.locks;
    }
  }

  lemma CommitAnswers(db: Db, clock: int, u: Txn)
    requires CanCommit(db, clock, u)
    ensures TxnInv(After(db, u), clock, CommittedTxn(u))
  {
  }
}
