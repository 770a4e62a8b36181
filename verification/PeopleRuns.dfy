/** What every state of every run of the interleaved transactions holds, said on the rows alone. */
module PeopleRuns {
  import opened Facts
  import opened Employment
  import opened KernelMeaning
  import opened People
  import opened PeopleMeaning
  import opened PeopleSteps
  import opened PeopleInvariant
  import opened PeopleSystem

  /** A step commits nothing, or it is one atomic create. */
  lemma StepCreates(states: seq<State>, actions: seq<Action>, n: nat) returns (t: Txn)
    requires Run(states, actions) && n < |actions|
    ensures (states[n + 1].db == states[n].db ||
             AtomicCreate(t.command, t.authority, t.recordedAt, states[n].db, states[n + 1].db))
  {
    RunRefinesAtomic(states, actions, n);
    if states[n + 1].db != states[n].db {
      t := states[n].txns[actions[n].id];
    } else {
      t :| true;
    }
  }

  // ---------------------------------------------------------------- answers name stored rows

  lemma {:induction false} KeysStayBacked(states: seq<State>, actions: seq<Action>, n: nat)
    requires Run(states, actions) && n < |states| && KeysBacked(states[0].db)
    ensures KeysBacked(states[n].db)
    decreases n
  {
    if n > 0 {
      KeysStayBacked(states, actions, n - 1);
      var t := StepCreates(states, actions, n - 1);
      if states[n].db != states[n - 1].db {
        CreateKeepsBacked(states[n - 1].db, t.command, t.authority, t.recordedAt);
      }
    }
  }

  /** Every successful transaction, committed or replayed, answers with stored rows that carry its own fields. */
  lemma AnswersNameStoredRows(states: seq<State>, actions: seq<Action>, n: nat, i: TxnId)
    requires Run(states, actions) && n < |states| && KeysBacked(states[0].db)
    requires i in states[n].txns && Answered(states[n].txns[i])
    ensures AnswerBacked(states[n].db, states[n].txns[i].command, states[n].txns[i].counter.ending.answer)
  {
    KeysStayBacked(states, actions, n);
    RunKeepsInv(states, actions, n);
    var t := states[n].txns[i];
    AnswerIsFromRow(states[n], i);
    ReplayIsBacked(states[n].db, t.command, t.authority);
  }

  lemma AnswerIsFromRow(s: State, i: TxnId)
    requires Inv(s) && i in s.txns && Answered(s.txns[i])
    ensures var t := s.txns[i];
            && KeyOf(t.command) in s.db.keys
            && s.db.keys[KeyOf(t.command)].digest == Digest(t.command, t.authority)
            && t.counter.ending.answer == AnswerWith(t.command, s.db.keys[KeyOf(t.command)].record)
  {
    assert TxnInv(s.db, s.clock, s.txns[i]);
    assert AnsweredFromRow(s.db, s.txns[i]);
  }

  // ---------------------------------------------------------------- one key, one request

  /** Two successes with one key asked for the same thing in every field they chose, and were told the same. */
  lemma SameKeySameRequest(states: seq<State>, actions: seq<Action>, n: nat, i: TxnId, j: TxnId)
    requires Run(states, actions) && n < |states|
    requires i in states[n].txns && j in states[n].txns
    requires Answered(states[n].txns[i]) && Answered(states[n].txns[j])
    requires var a, b := states[n].txns[i].command, states[n].txns[j].command;
             a.tenant == b.tenant && SameKind(a, b) && a.key == b.key
    ensures var a, b := states[n].txns[i], states[n].txns[j];
            && SameRequestedFields(a.command, b.command)
            && a.authority.actor == b.authority.actor && a.authority.purpose == b.authority.purpose
            && a.counter.ending.answer == b.counter.ending.answer
  {
    var a, b := states[n].txns[i], states[n].txns[j];
    KeyInFull(a.command, b.command);
    SameKeySameAnswer(states, actions, n, i, j);
    DigestInFull(a.command, a.authority, b.command, b.authority);
  }

  // ---------------------------------------------------------------- identifiers

  lemma {:induction false} IdentifiersStayUnique(states: seq<State>, actions: seq<Action>, n: nat)
    requires Run(states, actions) && n < |states| && UniqueRows(states[0].db)
    ensures UniqueRows(states[n].db)
    decreases n
  {
    if n > 0 {
      IdentifiersStayUnique(states, actions, n - 1);
      var t := StepCreates(states, actions, n - 1);
      if states[n].db != states[n - 1].db {
        RefusedInFull(t.command, t.authority, t.recordedAt, states[n - 1].db);
      }
    }
  }

  // ---------------------------------------------------------------- the rules

  /** In every state of every run, on every day and at every cutoff: each seat and each employment carries at most one
      in total, nobody is in two exclusive employments, and every assignment's employment belongs to its person. */
  lemma RulesInFull(states: seq<State>, actions: seq<Action>, n: nat)
    requires Run(states, actions) && n < |states|
    ensures forall tenant, position, day, knownAt ::
              SeatLoad(states[n].db.assignments, tenant, position, day, knownAt) <= 1.0
    ensures forall tenant, employment, day, knownAt ::
              EmploymentLoad(states[n].db.assignments, tenant, employment, day, knownAt) <= 1.0
    ensures forall tenant, person, knownAt :: !HasTwoExclusives(states[n].db.employments, tenant, person, knownAt)
    ensures forall f :: f in states[n].db.assignments ==>
              && 0.0 < f.ratio <= 1.0
              && exists v :: v in states[n].db.employments && v.tenant == f.tenant && v.employment == f.employment
                             && v.person == f.person
  {
    RulesHoldInEveryState(states, actions, n);
    var db := states[n].db;
    forall tenant, position, day, knownAt ensures SeatLoad(db.assignments, tenant, position, day, knownAt) <= 1.0 {
      SeatLoadIs(db.assignments, tenant, position, day, knownAt);
    }
    forall tenant, employment, day, knownAt
      ensures EmploymentLoad(db.assignments, tenant, employment, day, knownAt) <= 1.0
    {
      EmploymentLoadIs(db.assignments, tenant, employment, day, knownAt);
    }
    forall tenant, person, knownAt ensures !HasTwoExclusives(db.employments, tenant, person, knownAt) {
      NoTwoExclusives(db.employments, tenant, person, knownAt);
    }
    forall f | f in db.assignments
      ensures exists v :: v in db.employments && v.tenant == f.tenant && v.employment == f.employment
                          && v.person == f.person
    {
      assert Owned(db, f);
    }
  }

  lemma NoTwoExclusives(employments: seq<EmploymentVersion>, tenant: Uuid, person: Uuid, knownAt: int)
    requires OneExclusiveEmployment(employments, tenant, person, knownAt)
    ensures !HasTwoExclusives(employments, tenant, person, knownAt)
  {
    if v, w, day :| v in employments && w in employments && v.employment != w.employment
                    && v.tenant == w.tenant == tenant && v.person == w.person == person
                    && v.concurrency == w.concurrency == "exclusive"
                    && v.effective.Contains(day) && w.effective.Contains(day)
                    && v.recorded.Contains(knownAt) && w.recorded.Contains(knownAt)
    {
      assert ExclusiveOn(v, tenant, person, day, knownAt) && ExclusiveOn(w, tenant, person, day, knownAt);
    }
  }

  // ---------------------------------------------------------------- hires

  /** A step that commits a hire finds exactly one row of its decision, which is a confirmed hire by the acting
      authority, taken no later than the start of the transaction and no later than the first day of the employment;
      and the hire is recorded at the start of the transaction. */
  lemma HiresAreDecided(states: seq<State>, actions: seq<Action>, n: nat)
    requires Run(states, actions) && n < |actions| && states[n + 1].db != states[n].db
    requires actions[n].Step? && actions[n].id in states[n].txns && states[n].txns[actions[n].id].command.AcceptHire?
    ensures var t := states[n].txns[actions[n].id];
            && IsDecided(t.command, t.authority, states[n].db.decisions, t.startedAt)
            && t.recordedAt == t.startedAt
  {
    var t := states[n].txns[actions[n].id];
    RunKeepsInv(states, actions, n);
    assert Next(states[n], actions[n], states[n + 1]);
    ReadyHireIsDecided(states[n], actions[n].id);
    DecisionInFull(t.command, t.authority, states[n].db, t.startedAt);
  }

  lemma ReadyHireIsDecided(s: State, id: TxnId)
    requires Inv(s) && id in s.txns && s.txns[id].counter.Ready? && s.txns[id].command.AcceptHire?
    ensures var t := s.txns[id];
            DecisionConfirmsHire(t.command, t.authority, s.db, t.startedAt) && t.recordedAt == t.startedAt
  {
    assert TxnInv(s.db, s.clock, s.txns[id]);
    assert Checked(s.db, s.txns[id]);
  }
}
