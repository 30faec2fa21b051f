/** What holds after every run: any number of interleaved transactions, corrections and edits. */
module Runs {
  import opened Pricing
  import opened Club
  import opened ClubLaws
  import opened Interleaving

  lemma AdvancesTransitive(a: Db, b: Db, c: Db)
    requires Advances(a, b) && Advances(b, c)
    ensures Advances(a, c)
  {
    assert a.ledger <= c.ledger;
  }

  /**
   Every run keeps every law: one ACTIVE session per computer, correct charges, debt entries matching
   unpaid charges, conservation of money and no overdraft; and closed sessions and ledger entries
   never change again.
   */
  lemma {:induction false} RunKeepsLaws(sys: Sys, events: seq<Event>)
    requires Inv(sys)
    ensures Inv(Run(sys, events)) && Advances(sys.db, Run(sys, events).db)
    decreases |events|
  {
    if events != [] {
      StepKeeps(sys, events[0]);
      var next := Step(sys, events[0]);
      RunKeepsLaws(next, events[1..]);
      AdvancesTransitive(sys.db, next.db, Run(next, events[1..]).db);
    }
  }

  /** Tables without sessions and debts, and no open transaction. */
  ghost predicate Initial(sys: Sys) {
    && sys.db.sessions == map[] && sys.db.ledger == [] && sys.txns == map[] && !sys.indexFired
    && forall c :: c in sys.db.computers ==> sys.db.computers[c].status != InUse
  }

  lemma InitialInv(sys: Sys)
    requires Initial(sys)
    ensures Inv(sys) && StatusMatches(sys.db)
  {
    EmptyKeepsLaws(sys.db);
  }

  /** With managers free to overwrite computers, at most one session is ACTIVE on a computer after any run. */
  lemma OneActivePerComputer(sys: Sys, events: seq<Event>, a: Id, b: Id)
    requires Initial(sys)
    requires a in Run(sys, events).db.sessions && b in Run(sys, events).db.sessions
    requires OnSameComputer(Run(sys, events).db.sessions[a], Run(sys, events).db.sessions[b])
    ensures a == b
  {
    InitialInv(sys);
    RunKeepsLaws(sys, events);
  }

  /** Payments never overdraw: after any run without negative corrections every balance is non-negative. */
  lemma PaymentsNeverOverdraw(sys: Sys, events: seq<Event>, u: Id)
    requires Initial(sys)
    requires forall i :: 0 <= i < |events| && events[i].Correction? ==> events[i].amount >= 0
    ensures Balance(Run(sys, events).db.ledger, u) >= 0
  {
    InitialInv(sys);
    RunKeepsLaws(sys, events);
    CorrectionsFromEvents(sys, events);
    BalancesNonNegative(Run(sys, events).db, u);
  }

  ghost predicate NoNegativeOnRecord(ledger: seq<Entry>) {
    forall i :: 0 <= i < |ledger| && ledger[i].kind.DebtCorrection? ==> ledger[i].signedAmount >= 0
  }

  lemma {:induction false} CorrectionsFromEvents(sys: Sys, events: seq<Event>)
    requires Inv(sys) && NoNegativeOnRecord(sys.db.ledger)
    requires forall i :: 0 <= i < |events| && events[i].Correction? ==> events[i].amount >= 0
    ensures NoNegativeOnRecord(Run(sys, events).db.ledger)
    decreases |events|
  {
    if events != [] {
      StepKeeps(sys, events[0]);
      StepKeepsRecord(sys, events[0]);
      CorrectionsFromEvents(Step(sys, events[0]), events[1..]);
    }
  }

  lemma StepKeepsRecord(sys: Sys, ev: Event)
    requires Inv(sys) && NoNegativeOnRecord(sys.db.ledger) && (ev.Correction? ==> ev.amount >= 0)
    ensures NoNegativeOnRecord(Step(sys, ev).db.ledger)
  {
    if ev.Commit? && ev.t in sys.txns && Finished(sys.txns[ev.t].job) {
      var x := sys.txns[ev.t];
      assert TxnOk(sys.db, x);
      if x.job.Changing? {
        ChangedIs(x.job.op, x.job.sid, sys.db.sessions[x.job.sid]);
      }
    } else if ev.Advance? && ev.t in sys.txns {
      AdvanceKeeps(sys, ev.t, ev.newSid);
    }
  }

  // ----- Computer status -----

  lemma AdmittedIsIdle(db: Db, x: Txn)
    requires StatusMatches(db) && x.job.Starting? && StartingOk(db, x) && x.job.admitted.Some?
    ensures !ActiveOn(Merge(db, x.st), x.job.admitted.value.computerId)
  {
    var c := x.job.admitted.value.computerId;
    assert c in db.computers && db.computers[c].status == Available;
    ActiveMerged(db, x.st, c);
  }

  /** Only an insert on a computer with an ACTIVE session makes the index reject anything. */
  lemma IdleInsertIsSilent(sys: Sys, t: Id, x: Txn, newSid: Id)
    requires x.job.Starting? && x.job.admitted.Some?
    requires !ActiveOn(Merge(sys.db, x.st), x.job.admitted.value.computerId)
    ensures InsertAdmitted(sys, t, x, newSid).indexFired == sys.indexFired
  {}

  lemma AdmitIsSilent(sys: Sys, t: Id, x: Txn)
    requires x.job.Starting?
    ensures AdmitNext(sys, t, x).indexFired == sys.indexFired
  {}

  lemma OthersAreSilent(sys: Sys, t: Id, x: Txn, newSid: Id)
    requires !x.job.Starting?
    ensures AdvanceTxn(sys, t, x, newSid).indexFired == sys.indexFired
  {}

  /** The index is silent as long as status and sessions are in step. */
  lemma AdvanceWithoutIndex(sys: Sys, t: Id, newSid: Id)
    requires TxnsOk(sys) && StatusMatches(sys.db) && t in sys.txns
    ensures AdvanceTxn(sys, t, sys.txns[t], newSid).indexFired == sys.indexFired
  {
    var x := sys.txns[t];
    if !x.job.Starting? {
      OthersAreSilent(sys, t, x, newSid);
    } else if x.job.admitted.None? {
      AdmitIsSilent(sys, t, x);
    } else {
      assert TxnOk(sys.db, x);
      AdmittedIsIdle(sys.db, x);
      IdleInsertIsSilent(sys, t, x, newSid);
    }
  }

  /** The row says of the computer what its sessions say: IN_USE exactly with an ACTIVE one, and then not deleted. */
  ghost predicate InStep(db: Db, c: Id, computer: Computer) {
    (computer.status == InUse <==> ActiveOn(db, c)) && (ActiveOn(db, c) ==> !computer.deleted)
  }

  lemma SameActive(db: Db, after: Db)
    requires after.sessions == db.sessions
    ensures forall c :: ActiveOn(db, c) <==> ActiveOn(after, c)
  {}

  lemma SameStatus(db: Db, after: Db)
    requires StatusMatches(db) && after.sessions == db.sessions && after.computers == db.computers
    ensures StatusMatches(after)
  {
    SameActive(db, after);
  }

  /** Writing one computer keeps status and sessions in step exactly when the row written is in step. */
  lemma WriteKeepsStatusIff(db: Db, c: Id, computer: Computer)
    requires StatusMatches(db)
    ensures StatusMatches(db.(computers := db.computers[c := computer])) <==> InStep(db, c, computer)
  {
    var after := db.(computers := db.computers[c := computer]);
    SameActive(db, after);
    if StatusMatches(after) {
      assert c in after.computers;
      if ActiveOn(db, c) {
        var sid :| sid in db.sessions && db.sessions[sid].status.Active? && db.sessions[sid].computerId == c;
        assert sid in after.sessions;
      }
    }
  }

  /** A row that leaves status and deletion as they are is in step, wherever it moves the computer. */
  lemma SameUseInStep(db: Db, c: Id, computer: Computer)
    requires StatusMatches(db) && c in db.computers
    requires computer.status == db.computers[c].status && computer.deleted == db.computers[c].deleted
    ensures InStep(db, c, computer)
  {
    if ActiveOn(db, c) {
      var sid :| sid in db.sessions && db.sessions[sid].status.Active? && db.sessions[sid].computerId == c;
    }
  }

  /** A manager's write at this step, if it takes effect, leaves a row in step. */
  ghost predicate EditInStep(sys: Sys, ev: Event) {
    ev.EditComputer? && ev.c in sys.db.computers && !Taken(sys, ComputerRow(ev.c)) ==> InStep(sys.db, ev.c, ev.computer)
  }

  lemma NewComputerInStep(db: Db, c: Id, computer: Computer)
    requires StatusMatches(db) && c !in db.computers && computer.status == Available
    ensures InStep(db, c, computer)
  {}

  lemma CommitStepKeepsStatus(sys: Sys, t: Id)
    requires Inv(sys) && StatusMatches(sys.db)
    ensures StatusMatches(Step(sys, Commit(t)).db) && Step(sys, Commit(t)).indexFired == sys.indexFired
  {
    if t in sys.txns && Finished(sys.txns[t].job) {
      CommitKeepsStatus(sys.db, sys.txns[t]);
    }
  }

  lemma EditStatusIff(sys: Sys, ev: Event)
    requires StatusMatches(sys.db) && IsEdit(ev)
    ensures Step(sys, ev).indexFired == sys.indexFired
    ensures StatusMatches(Step(sys, ev).db) <==> EditInStep(sys, ev)
  {
    match ev
    case EditComputer(c, computer) => WriteKeepsStatusIff(sys.db, c, computer);
    case AddComputer(c, roomId) =>
      if c !in sys.db.computers {
        NewComputerInStep(sys.db, c, Computer(roomId, Available, true, false));
        WriteKeepsStatusIff(sys.db, c, Computer(roomId, Available, true, false));
      }
    case EditRoom(_, _) => SameStatus(sys.db, Step(sys, ev).db);
    case EditCustomer(_, _) => SameStatus(sys.db, Step(sys, ev).db);
  }

  /** One step keeps status and sessions in step unless a manager writes a row out of step. */
  lemma StepStatusIff(sys: Sys, ev: Event)
    requires Inv(sys) && StatusMatches(sys.db)
    ensures Step(sys, ev).indexFired == sys.indexFired
    ensures StatusMatches(Step(sys, ev).db) <==> EditInStep(sys, ev)
  {
    if IsEdit(ev) {
      EditStatusIff(sys, ev);
    } else if ev.Commit? {
      CommitStepKeepsStatus(sys, ev.t);
    } else if ev.Advance? {
      if ev.t in sys.txns {
        AdvanceKeeps(sys, ev.t, ev.newSid);
        AdvanceWithoutIndex(sys, ev.t, ev.newSid);
      }
    } else if IsBegin(ev) {
      BeginKeeps(sys, ev);
    } else {
      SameStatus(sys.db, Step(sys, ev).db);
    }
  }

  /** Status and sessions are in step now and after every event. */
  ghost predicate AlwaysMatches(sys: Sys, events: seq<Event>)
    decreases |events|
  {
    StatusMatches(sys.db) && (events == [] || AlwaysMatches(Step(sys, events[0]), events[1..]))
  }

  ghost predicate EditsInStep(sys: Sys, events: seq<Event>)
    decreases |events|
  {
    events == [] || (EditInStep(sys, events[0]) && EditsInStep(Step(sys, events[0]), events[1..]))
  }

  /**
   Throughout a run a computer is IN_USE exactly when it has an ACTIVE session if and only if every row a
   manager writes over a computer is in step when it is written; and then the unique index never rejects
   anything.
   */
  lemma {:induction false} StatusFollowsSessions(sys: Sys, events: seq<Event>)
    requires Inv(sys) && StatusMatches(sys.db)
    ensures AlwaysMatches(sys, events) <==> EditsInStep(sys, events)
    ensures EditsInStep(sys, events) ==>
              StatusMatches(Run(sys, events).db) && Run(sys, events).indexFired == sys.indexFired
    decreases |events|
  {
    if events != [] {
      StepKeeps(sys, events[0]);
      StepStatusIff(sys, events[0]);
      if EditInStep(sys, events[0]) {
        StatusFollowsSessions(Step(sys, events[0]), events[1..]);
      }
    }
  }

  /** Every write that takes effect leaves status and deletion as the row has them at that moment. */
  ghost predicate EditsLeaveUse(sys: Sys, events: seq<Event>)
    decreases |events|
  {
    events == [] || (LeavesUse(sys.db, events[0]) && EditsLeaveUse(Step(sys, events[0]), events[1..]))
  }

  ghost predicate LeavesUse(db: Db, ev: Event) {
    ev.EditComputer? && ev.c in db.computers ==>
      ev.computer.status == db.computers[ev.c].status && ev.computer.deleted == db.computers[ev.c].deleted
  }

  /** Without status writes and deletes by managers, status follows sessions and the index stays silent. */
  lemma {:induction false} StatusWithoutStatusEdits(sys: Sys, events: seq<Event>)
    requires Inv(sys) && StatusMatches(sys.db) && EditsLeaveUse(sys, events)
    ensures AlwaysMatches(sys, events) && EditsInStep(sys, events)
    ensures StatusMatches(Run(sys, events).db) && Run(sys, events).indexFired == sys.indexFired
    decreases |events|
  {
    if events != [] {
      var ev := events[0];
      if ev.EditComputer? && ev.c in sys.db.computers {
        SameUseInStep(sys.db, ev.c, ev.computer);
      }
      StepKeeps(sys, ev);
      StepStatusIff(sys, ev);
      StatusWithoutStatusEdits(Step(sys, ev), events[1..]);
    }
  }

  // ----- What a commit does -----

  /**
   Committing a group start gives every requested computer, all different and idle until then, its one
   ACTIVE session and marks it IN_USE, and touches no other computer and no existing session.
   */
  lemma StartCommits(sys: Sys, t: Id)
    requires Inv(sys) && t in sys.txns && sys.txns[t].job.Starting? && Finished(sys.txns[t].job)
    ensures var before, after, ids := sys.db, Step(sys, Commit(t)).db, sys.txns[t].job.req.computerIds;
            && Distinct(ids) && after.ledger == before.ledger
            && (forall c :: c in ids ==> !ActiveOn(before, c))
            && (forall c :: ActiveOn(after, c) <==> c in ids || ActiveOn(before, c))
            && after.computers.Keys == before.computers.Keys
            && (forall c :: c in before.computers ==>
                  after.computers[c] == if c in ids then before.computers[c].(status := InUse) else before.computers[c])
            && (forall sid :: sid in before.sessions ==>
                  sid in after.sessions && after.sessions[sid] == before.sessions[sid])
            && (forall sid :: sid in after.sessions && sid !in before.sessions ==>
                  after.sessions[sid].status.Active? && after.sessions[sid].computerId in ids
                  && MadeFor(sys.txns[t].job, after.sessions[sid]))
  {
    var x := sys.txns[t];
    var ids := x.job.req.computerIds;
    assert TxnOk(sys.db, x);
    assert ids[..|ids|] == ids;
    StagedFresh(sys.db, x.st);
    forall c | c in ids ensures !ActiveOn(sys.db, c) {
      StagedNotActive(sys.db, x.st, c);
    }
    forall c: Id ensures ActiveOn(Merge(sys.db, x.st), c) <==> c in ids || ActiveOn(sys.db, c) {
      ActiveMerged(sys.db, x.st, c);
    }
    forall c | c in x.st.computers
      ensures c in sys.db.computers && x.st.computers[c] == sys.db.computers[c].(status := InUse)
    {
      assert StagedComputer(sys.db, x.st, c);
    }
  }

  /** A transaction that does not commit leaves the tables as they are, and a rollback gives up its locks. */
  lemma OnlyCommitsWrite(sys: Sys, ev: Event)
    requires Inv(sys) && !ev.Commit? && !ev.Correction? && !IsEdit(ev)
    ensures Step(sys, ev).db == sys.db
    ensures ev.Rollback? ==> Step(sys, ev).txns == sys.txns - {ev.t}
  {
    if ev.Advance? && ev.t in sys.txns {
      AdvanceKeeps(sys, ev.t, ev.newSid);
    }
  }

  // ----- Runs put together -----

  lemma FourSteps(sys: Sys, e1: Event, e2: Event, e3: Event, e4: Event)
    ensures Run(sys, [e1, e2, e3, e4]) == Step(Step(Step(Step(sys, e1), e2), e3), e4)
  {
    assert [e1, e2, e3, e4][1..] == [e2, e3, e4];
    assert [e2, e3, e4][1..] == [e3, e4];
    assert [e3, e4][1..] == [e4];
    assert [e4][1..] == [];
    var last := Step(Step(Step(sys, e1), e2), e3);
    assert Run(Step(last, e4), []) == Step(last, e4);
    assert Run(last, [e4]) == Step(last, e4);
    assert Run(Step(Step(sys, e1), e2), [e3, e4]) == Step(last, e4);
    assert Run(Step(sys, e1), [e2, e3, e4]) == Step(last, e4);
  }

  lemma OneStep(sys: Sys, ev: Event, rest: seq<Event>)
    ensures Run(sys, [ev] + rest) == Run(Step(sys, ev), rest)
  {
    assert ([ev] + rest)[1..] == rest;
  }

  lemma {:induction false} RunSplit(sys: Sys, a: seq<Event>, b: seq<Event>)
    ensures Run(sys, a + b) == Run(Run(sys, a), b)
    decreases |a|
  {
    if a == [] {
      assert a + b == b;
    } else {
      assert (a + b)[1..] == a[1..] + b;
      RunSplit(Step(sys, a[0]), a[1..], b);
    }
  }
}
