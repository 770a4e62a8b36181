/** A commit keeps the kernel's capacity and exclusivity rules at every coordinate, and is a valid atomic create. */
module PeopleSafety {
  import opened Prelude
  import opened Intervals
  import opened Facts
  import opened Allocation
  import opened Assignment
  import opened Employment
  import opened People
  import opened PeopleSteps
  import opened PeopleInvariant
  import opened PeopleCommit

  // ---------------------------------------------------------------- capacity at every day and cutoff

  /** One more open-ended allocation, checked on its own days at its own instant, keeps the scope within
      capacity on every day and at every cutoff: before its instant it is not visible, and after its
      instant no more is visible than at it. */
  lemma CapacityKept(xs: seq<AssignmentFact>, f: AssignmentFact, scope: Scope)
    requires f.recorded.end.None?
    requires NonNegative(xs + [f], scope)
    requires forall g :: g in xs && scope(g) ==> g.recorded.start <= f.recorded.start
    requires forall day :: f.effective.Contains(day) ==> Load(xs + [f], scope, day, f.recorded.start) <= ONE
    requires forall day, knownAt :: Load(xs, scope, day, knownAt) <= ONE
    ensures forall day, knownAt :: Load(xs + [f], scope, day, knownAt) <= ONE
  {
    forall day, knownAt ensures Load(xs + [f], scope, day, knownAt) <= ONE {
      if AtDay(scope, day, knownAt)(f) {
        LoadKnownLater(xs + [f], scope, day, f.recorded.start, knownAt);
      } else {
        FilterAppendMiss(xs, [f], AtDay(scope, day, knownAt));
        assert Load(xs, scope, day, knownAt) <= ONE;
      }
    }
  }

  /** A list that restricts the table to conflicting rows gives the same load in any narrower scope. */
  lemma RestrictedLoad(
    rows: seq<AssignmentFact>, table: seq<AssignmentFact>, wider: Scope, scope: Scope, f: AssignmentFact,
    day: int, knownAt: int)
    requires ResultOf(rows, Filter(table, wider))
    requires forall g :: g in table && scope(g) ==> wider(g)
    ensures Load(rows + [f], scope, day, knownAt) == Load(table + [f], scope, day, knownAt)
  {
    var p := AtDay(scope, day, knownAt);
    assert multiset(rows + [f]) == multiset(Filter(table, wider) + [f]);
    LoadPermutation(rows + [f], Filter(table, wider) + [f], scope, day, knownAt);
    FilterAppend(Filter(table, wider), [f], p);
    FilterAppend(table, [f], p);
    FilterTwice(table, wider, p, p);
  }

  /** The same for rows read by one statement and checked in memory. */
  lemma CheckedScopeKept(
    table: seq<AssignmentFact>, rows: seq<AssignmentFact>, f: AssignmentFact, wider: Scope, scope: Scope)
    requires f.recorded.end.None?
    requires ResultOf(rows, Filter(table, wider))
    requires forall g :: g in table && scope(g) ==> wider(g) && g.recorded.start <= f.recorded.start
    requires NonNegative(table + [f], scope)
    requires forall day :: f.effective.Contains(day) ==> Load(rows + [f], scope, day, f.recorded.start) <= ONE
    requires forall day, knownAt :: Load(table, scope, day, knownAt) <= ONE
    ensures forall day, knownAt :: Load(table + [f], scope, day, knownAt) <= ONE
  {
    forall day | f.effective.Contains(day) ensures Load(table + [f], scope, day, f.recorded.start) <= ONE {
      RestrictedLoad(rows, table, wider, scope, f, day, f.recorded.start);
    }
    CapacityKept(table, f, scope);
  }

  /** The conflicting rows in hand at commit are all those committed, all known by the transaction's instant. */
  lemma ConflictsAtCommit(db: Db, clock: int, u: Txn)
    requires CanCommit(db, clock, u) && u.command.CreateAssignment?
    ensures ResultOf(u.assignments, Filter(db.assignments, Conflicting(u.command)))
    ensures forall g :: g in u.assignments ==> g in db.assignments
    ensures forall g :: g in db.assignments && Conflicting(u.command)(g) ==> g.recorded.start <= u.recordedAt
    ensures forall g :: g in db.assignments + [ProposedAssignment(u.command, u.recordedAt)] ==> g.ratio >= 0.0
  {
    InHand(u.assignments, db.assignments, Conflicting(u.command));
  }

  lemma SeatBalancedWithoutNegatives(f: AssignmentFact, facts: seq<AssignmentFact>, knownAt: int)
    requires forall g :: g in facts ==> g.ratio >= 0.0
    ensures SeatBalanced(f, facts, knownAt)
  {
    forall day ensures SeatBalancedOn(f, facts, day, knownAt) {
      NonNegativeIsBalanced(facts, OnPosition(f.tenant, f.position), day, knownAt);
    }
  }

  /** What acceptance says about the rows in hand: the rules, at the transaction's own instant. */
  lemma AcceptedRules(db: Db, clock: int, u: Txn)
    requires CanCommit(db, clock, u) && u.command.CreateAssignment?
    ensures var f := ProposedAssignment(u.command, u.recordedAt);
            WriteRulesHold(f, u.assignments + [f], u.employments, u.positions, u.recordedAt)
  {
    var f := ProposedAssignment(u.command, u.recordedAt);
    ConflictsAtCommit(db, clock, u);
    SeatBalancedWithoutNegatives(f, u.assignments + [f], u.recordedAt);
    WriteAcceptanceMeaning(f, u.assignments + [f], u.employments, u.positions, u.recordedAt);
  }

  /** In the committed tables every allocation of the employment belongs to its owner. */
  lemma AllocationsOfOwner(db: Db, clock: int, u: Txn)
    requires CanCommit(db, clock, u) && u.command.CreateAssignment?
    ensures forall g :: g in db.assignments && g.tenant == u.command.tenant && g.employment == u.command.employment
              ==> g.person == u.command.person
  {
    var c := u.command;
    forall g | g in db.assignments && g.tenant == c.tenant && g.employment == c.employment
      ensures g.person == c.person
    {
      var v :| v in db.employments && v.tenant == g.tenant && v.employment == g.employment && v.person == g.person;
      PromiseNamesOwner(db, clock, u, v);
    }
  }

  lemma SeatRules(f: AssignmentFact, rows: seq<AssignmentFact>, u: Txn)
    requires WriteRulesHold(f, rows, u.employments, u.positions, u.recordedAt)
    ensures forall day :: f.effective.Contains(day) ==>
              Load(rows, OnPosition(f.tenant, f.position), day, u.recordedAt) <= ONE
  {
  }

  /** When all rows of the employment are its owner's, the portfolio rule bounds the employment. */
  lemma EmploymentRules(f: AssignmentFact, rows: seq<AssignmentFact>, u: Txn)
    requires WriteRulesHold(f, rows, u.employments, u.positions, u.recordedAt)
    requires forall g :: g in rows && g.tenant == f.tenant && g.employment == f.employment ==> g.person == f.person
    ensures forall day :: f.effective.Contains(day) ==>
              Load(rows, OnEmployment(f.tenant, f.employment), day, u.recordedAt) <= ONE
  {
    forall day | f.effective.Contains(day)
      ensures Load(rows, OnEmployment(f.tenant, f.employment), day, u.recordedAt) <= ONE
    {
      FilterSame(rows, AtDay(OnEmployment(f.tenant, f.employment), day, u.recordedAt),
                 AtDay(InPortfolio(f.tenant, f.person, f.employment), day, u.recordedAt));
    }
  }

  lemma SeatKept(db: Db, clock: int, u: Txn)
    requires CanCommit(db, clock, u) && u.command.CreateAssignment?
    ensures forall day, knownAt ::
              Load(db.assignments + [ProposedAssignment(u.command, u.recordedAt)],
                   OnPosition(u.command.tenant, u.command.position), day, knownAt) <= ONE
  {
    var c := u.command;
    var f := ProposedAssignment(c, u.recordedAt);
    AcceptedRules(db, clock, u);
    ConflictsAtCommit(db, clock, u);
    SeatRules(f, u.assignments + [f], u);
    forall day, knownAt ensures Load(db.assignments, OnPosition(c.tenant, c.position), day, knownAt) <= ONE {}
    CheckedScopeKept(db.assignments, u.assignments, f, Conflicting(c), OnPosition(c.tenant, c.position));
  }

  lemma EmploymentKept(db: Db, clock: int, u: Txn)
    requires CanCommit(db, clock, u) && u.command.CreateAssignment?
    ensures forall day, knownAt ::
              Load(db.assignments + [ProposedAssignment(u.command, u.recordedAt)],
                   OnEmployment(u.command.tenant, u.command.employment), day, knownAt) <= ONE
  {
    var c := u.command;
    var f := ProposedAssignment(c, u.recordedAt);
    AcceptedRules(db, clock, u);
    ConflictsAtCommit(db, clock, u);
    AllocationsOfOwner(db, clock, u);
    EmploymentRules(f, u.assignments + [f], u);
    forall day, knownAt ensures Load(db.assignments, OnEmployment(c.tenant, c.employment), day, knownAt) <= ONE {}
    CheckedScopeKept(db.assignments, u.assignments, f, Conflicting(c), OnEmployment(c.tenant, c.employment));
  }

  /** Other seats and other employments do not see the new row. */
  lemma OtherScopesKept(xs: seq<AssignmentFact>, f: AssignmentFact)
    requires WithinCapacity(xs)
    requires forall day, knownAt :: Load(xs + [f], OnPosition(f.tenant, f.position), day, knownAt) <= ONE
    requires forall day, knownAt :: Load(xs + [f], OnEmployment(f.tenant, f.employment), day, knownAt) <= ONE
    ensures WithinCapacity(xs + [f])
  {
    forall tenant, position, day, knownAt ensures Load(xs + [f], OnPosition(tenant, position), day, knownAt) <= ONE {
      if tenant != f.tenant || position != f.position {
        FilterAppendMiss(xs, [f], AtDay(OnPosition(tenant, position), day, knownAt));
        assert Load(xs, OnPosition(tenant, position), day, knownAt) <= ONE;
      }
    }
    forall tenant, employment, day, knownAt
      ensures Load(xs + [f], OnEmployment(tenant, employment), day, knownAt) <= ONE
    {
      if tenant != f.tenant || employment != f.employment {
        FilterAppendMiss(xs, [f], AtDay(OnEmployment(tenant, employment), day, knownAt));
        assert Load(xs, OnEmployment(tenant, employment), day, knownAt) <= ONE;
      }
    }
  }

  lemma CapacityAfterCommit(db: Db, clock: int, u: Txn)
    requires CanCommit(db, clock, u)
    ensures WithinCapacity(After(db, u).assignments)
  {
    if u.command.CreateAssignment? {
      SeatKept(db, clock, u);
      EmploymentKept(db, clock, u);
      OtherScopesKept(db.assignments, ProposedAssignment(u.command, u.recordedAt));
    }
  }

  // ---------------------------------------------------------------- exclusivity at every cutoff

  /** A hire creates its person, so no employment of that person is stored. */
  lemma HiredPersonIsNew(db: Db, clock: int, u: Txn, w: EmploymentVersion)
    requires CanCommit(db, clock, u) && u.command.AcceptHire? && w in db.employments
    ensures w.person != u.command.person
  {
  }

  /** The person's rows in hand at commit are all those committed, all known by the transaction's instant. */
  lemma EmploymentsAtCommit(db: Db, clock: int, u: Txn)
    requires CanCommit(db, clock, u) && u.command.CreateEmployment?
    ensures forall w :: w in u.employments <==> w in db.employments && OfPerson(u.command.tenant, u.command.person)(w)
    ensures forall w :: w in u.employments ==> w.recorded.start <= u.recordedAt && w.employment != u.command.employment
    ensures EmploymentAccepted(u.command, u.employments, u.recordedAt)
  {
    InHand(u.employments, db.employments, OfPerson(u.command.tenant, u.command.person));
  }

  /** An employment accepted at its own instant shares no exclusive day with a known one, at any cutoff:
      whatever is visible at a cutoff from then on was visible at that instant. */
  lemma AcceptedEmploymentIsAlone(
    c: Command, rows: seq<EmploymentVersion>, recordedAt: int, w: EmploymentVersion, day: int, knownAt: int)
    requires c.CreateEmployment? && EmploymentAccepted(c, rows, recordedAt)
    requires w in rows && w.recorded.start <= recordedAt && w.employment != c.employment
    requires ExclusiveOn(ProposedEmployment(c, recordedAt), c.tenant, c.person, day, knownAt)
    ensures !ExclusiveOn(w, c.tenant, c.person, day, knownAt)
  {
    var v := ProposedEmployment(c, recordedAt);
    ExclusivityMeaning(rows + [v], c.tenant, c.person, recordedAt);
    assert ExclusiveOn(v, c.tenant, c.person, day, recordedAt);
    assert v in rows + [v] && w in rows + [v];
  }

  lemma CreatedEmploymentIsAlone(db: Db, clock: int, u: Txn, w: EmploymentVersion, day: int, knownAt: int)
    requires CanCommit(db, clock, u) && u.command.CreateEmployment? && w in db.employments
    requires ExclusiveOn(ProposedEmployment(u.command, u.recordedAt), u.command.tenant, u.command.person, day, knownAt)
    ensures !ExclusiveOn(w, u.command.tenant, u.command.person, day, knownAt)
  {
    EmploymentsAtCommit(db, clock, u);
    if w in u.employments {
      AcceptedEmploymentIsAlone(u.command, u.employments, u.recordedAt, w, day, knownAt);
    }
  }

  lemma NewIsAlone(db: Db, clock: int, u: Txn, w: EmploymentVersion, tenant: Uuid, person: Uuid, day: int, knownAt: int)
    requires CanCommit(db, clock, u) && (u.command.CreateEmployment? || u.command.AcceptHire?) && w in db.employments
    requires ExclusiveOn(ProposedEmployment(u.command, u.recordedAt), tenant, person, day, knownAt)
    ensures !ExclusiveOn(w, tenant, person, day, knownAt)
  {
    if u.command.AcceptHire? {
      HiredPersonIsNew(db, clock, u, w);
    } else {
      CreatedEmploymentIsAlone(db, clock, u, w, day, knownAt);
    }
  }

  lemma ExclusiveAfterCommit(db: Db, clock: int, u: Txn)
    requires CanCommit(db, clock, u)
    ensures Exclusive(After(db, u).employments)
  {
    var c := u.command;
    if c.CreateEmployment? || c.AcceptHire? {
      var n := ProposedEmployment(c, u.recordedAt);
      forall tenant, person, knownAt ensures OneExclusiveEmployment(db.employments + [n], tenant, person, knownAt) {
        assert OneExclusiveEmployment(db.employments, tenant, person, knownAt);
        forall w, day | w in db.employments && ExclusiveOn(n, tenant, person, day, knownAt)
          ensures !ExclusiveOn(w, tenant, person, day, knownAt)
        {
          NewIsAlone(db, clock, u, w, tenant, person, day, knownAt);
        }
      }
    }
  }

  // ---------------------------------------------------------------- keys and owners

  lemma ConversionsAfterCommit(db: Db, u: Txn, tenant: Uuid, person: Uuid)
    requires Keyed(db) && IdentitiesFree(u.command, db)
    ensures |Filter(After(db, u).conversions, OpenConversionOf(tenant, person))| <= 1
  {
    var c := u.command;
    var p := OpenConversionOf(tenant, person);
    assert |Filter(db.conversions, p)| <= 1;
    if c.AcceptHire? {
      var row := Conversion(c.tenant, c.conversion, c.candidate, c.person, c.employment, From(u.recordedAt));
      FilterAppend(db.conversions, [row], p);
      if person == c.person {
        FilterNone(db.conversions, p);
      } else {
        FilterNone([row], p);
      }
    }
  }

  lemma KeyedAfterCommit(db: Db, u: Txn)
    requires Keyed(db) && IdentitiesFree(u.command, db)
    requires u.command.CreateEmployment? ==>
               u.command.person in db.persons && db.persons[u.command.person] == u.command.tenant
    ensures Keyed(After(db, u))
  {
    forall tenant, person ensures |Filter(After(db, u).conversions, OpenConversionOf(tenant, person))| <= 1 {
      ConversionsAfterCommit(db, u, tenant, person);
    }
  }

  /** The person of a converted employment command exists in its tenant. */
  lemma ConvertedOwner(db: Db, clock: int, u: Txn)
    requires CanCommit(db, clock, u) && u.command.CreateEmployment?
    ensures u.command.person in db.persons && db.persons[u.command.person] == u.command.tenant
  {
  }

  lemma OwnedAfterCommit(db: Db, clock: int, u: Txn)
    requires CanCommit(db, clock, u)
    ensures AssignmentsOwned(After(db, u))
  {
    var c := u.command;
    var db' := After(db, u);
    CommitGrows(db, u);
    PrefixMembers(db.employments, db'.employments);
    forall f | f in db.assignments ensures Owned(db', f) {
      var v :| v in db.employments && v.tenant == f.tenant && v.employment == f.employment && v.person == f.person;
      assert v in db'.employments;
    }
    if c.CreateAssignment? {
      ProposedIsOwned(db, clock, u);
    }
  }

  lemma ProposedIsOwned(db: Db, clock: int, u: Txn)
    requires CanCommit(db, clock, u) && u.command.CreateAssignment?
    ensures Owned(db, ProposedAssignment(u.command, u.recordedAt))
  {
    InHand(u.employments, db.employments, OfEmployment(u.command.tenant, u.command.employment));
    assert u.employments[0] in u.employments;
  }

  lemma RecordedAfterCommit(db: Db, clock: int, u: Txn)
    requires RecordedBy(db, clock) && u.recordedAt <= clock
    ensures RecordedBy(After(db, u), clock)
  {
  }

  /** A commit keeps every rule of the committed tables. */
  lemma CommitKeepsDb(db: Db, clock: int, u: Txn)
    requires CanCommit(db, clock, u)
    ensures DbInv(After(db, u), clock)
  {
    if u.command.CreateEmployment? {
      ConvertedOwner(db, clock, u);
    }
    RecordedAfterCommit(db, clock, u);
    KeyedAfterCommit(db, u);
    OwnedAfterCommit(db, clock, u);
    CapacityAfterCommit(db, clock, u);
    ExclusiveAfterCommit(db, clock, u);
  }

  // ---------------------------------------------------------------- refinement of the atomic system

  /** The rows read under locks, statement by statement, are the committed rows: the whole validation
      succeeds against the tables as they are at the commit, in any row order. */
  lemma AssignmentValidAtCommit(db: Db, clock: int, u: Txn)
    requires CanCommit(db, clock, u) && u.command.CreateAssignment?
    ensures ValidAgainst(u.command, u.authority, db, u.recordedAt)
  {
    var c := u.command;
    var f := ProposedAssignment(c, u.recordedAt);
    var rows := Filter(db.assignments, Conflicting(c));
    AcceptedRules(db, clock, u);
    ConflictsAtCommit(db, clock, u);
    AssignmentReads(db, clock, u);
    assert multiset(u.assignments + [f]) == multiset(rows + [f]);
    WriteRulesPermuted(f, u.assignments + [f], rows + [f],
                       u.employments, Filter(db.employments, OfEmployment(c.tenant, c.employment)),
                       u.positions, Filter(db.positions, OfPosition(c.tenant, c.position)), u.recordedAt);
    WriteAcceptanceMeaning(f, rows + [f], Filter(db.employments, OfEmployment(c.tenant, c.employment)),
                           Filter(db.positions, OfPosition(c.tenant, c.position)), u.recordedAt);
  }

  lemma AssignmentReads(db: Db, clock: int, u: Txn)
    requires CanCommit(db, clock, u) && u.command.CreateAssignment?
    ensures ResultOf(u.employments, Filter(db.employments, OfEmployment(u.command.tenant, u.command.employment)))
    ensures ResultOf(u.positions, Filter(db.positions, OfPosition(u.command.tenant, u.command.position)))
    ensures |Filter(db.conversions, OpenConversionOf(u.command.tenant, u.command.person))| == 1
  {
    OneOpenConversion(db, clock, u);
  }

  lemma OneOpenConversion(db: Db, clock: int, u: Txn)
    requires Keyed(db) && TxnInv(db, clock, u) && HoldsConversion(u)
    ensures |Filter(db.conversions, OpenConversionOf(u.command.tenant, u.command.person))| == 1
  {
    var rows := Filter(db.conversions, OpenConversionOf(u.command.tenant, u.command.person));
    assert u.conversions[0] in rows;
    assert |rows| <= 1;
  }

  lemma EmploymentValidAtCommit(db: Db, clock: int, u: Txn)
    requires CanCommit(db, clock, u) && u.command.CreateEmployment?
    ensures ValidAgainst(u.command, u.authority, db, u.recordedAt)
  {
    var c := u.command;
    var v := ProposedEmployment(c, u.recordedAt);
    var rows := Filter(db.employments, OfPerson(c.tenant, c.person));
    OneOpenConversion(db, clock, u);
    EmploymentsAtCommit(db, clock, u);
    forall w ensures w in u.employments + [v] <==> w in rows + [v] {
      assert w in u.employments <==> w in rows;
    }
    SameRowsSameVerdict(u.employments + [v], rows + [v], c.tenant, c.person, u.recordedAt);
  }

  lemma SameRowsSameVerdict(
    a: seq<EmploymentVersion>, b: seq<EmploymentVersion>, tenant: Uuid, person: Uuid, knownAt: int)
    requires forall v :: v in a <==> v in b
    requires ValidatePersonEmploymentExclusivity(a, tenant, person, knownAt).Pass?
    ensures ValidatePersonEmploymentExclusivity(b, tenant, person, knownAt).Pass?
  {
    ExclusivityMeaning(a, tenant, person, knownAt);
    ExclusivityMeaning(b, tenant, person, knownAt);
  }

  /** Every commit of the interleaved system is an atomic create of the same command at its own instant. */
  lemma CommitIsAtomicCreate(db: Db, clock: int, u: Txn)
    requires CanCommit(db, clock, u)
    ensures AtomicCreate(u.command, u.authority, u.recordedAt, db, After(db, u))
  {
    if u.command.CreateEmployment? {
      EmploymentValidAtCommit(db, clock, u);
    } else if u.command.CreateAssignment? {
      AssignmentValidAtCommit(db, clock, u);
    }
  }
}
