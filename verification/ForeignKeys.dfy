/**
 The foreign key from the ledger to its customer: inserting a row takes a key-share lock on the customer,
 which waits for a payment holding the row, and which the payment's own lock waits for. The runs of module
 Interleaving leave these waits out; in the runs that honour them payments are never overtaken.
 */
module ForeignKeys {
  import opened Wrappers
  import opened Pricing
  import opened Club
  import opened ClubLaws
  import opened Interleaving
  import opened Runs
  import opened Serializability
  import opened SerialRuns

  /** The transaction has inserted a debt of customer u and so holds a key-share lock on the row. */
  ghost predicate Debits(x: Txn, u: Id) {
    x.job.Changing? && exists i :: 0 <= i < |x.st.entries| && x.st.entries[i].customerId == u
  }

  /** Whoever has locked a customer's row is alone in writing that customer's debts. */
  ghost predicate KeysApart(sys: Sys) {
    forall t, v, u :: t in sys.txns && v in sys.txns && t != v && CustomerRow(u) in sys.txns[t].holds ==>
      !Debits(sys.txns[v], u)
  }

  /** The operation, if its statement goes through now, inserts a debt of customer u. */
  ghost predicate WouldDebit(db: Db, x: Txn, u: Id) {
    && x.job.Changing? && x.job.stage.Waiting? && x.job.sid in db.sessions
    && Changed(x.job.op, x.job.sid, db.sessions[x.job.sid]).Ok?
    && Changed(x.job.op, x.job.sid, db.sessions[x.job.sid]).value.entries != []
    && db.sessions[x.job.sid].customerId == Some(u)
  }

  /** No insert into the ledger passes a lock on its customer, and no such lock passes an insert. */
  ghost predicate Honours(sys: Sys, ev: Event) {
    match ev
    case Correction(u, _) => !Taken(sys, CustomerRow(u))
    case Advance(t, _) =>
      t in sys.txns ==>
        && (sys.txns[t].job.Paying? && sys.txns[t].job.progress.Waiting? ==>
              forall v :: v in sys.txns && v != t ==> !Debits(sys.txns[v], sys.txns[t].job.u))
        && (forall u :: WouldDebit(sys.db, sys.txns[t], u) ==> !TakenByOther(sys, t, CustomerRow(u)))
    case _ => true
  }

  // ----- One step -----

  /** The only statement that locks a customer is a payment's first. */
  lemma AdvanceLocks(sys: Sys, t: Id, newSid: Id, u: Id)
    requires t in sys.txns && t in AdvanceTxn(sys, t, sys.txns[t], newSid).txns
    ensures var x, y := sys.txns[t], AdvanceTxn(sys, t, sys.txns[t], newSid).txns[t];
            CustomerRow(u) in y.holds ==>
              CustomerRow(u) in x.holds || (x.job.Paying? && x.job.progress.Waiting? && x.job.u == u)
  {}

  lemma ChangeRowDebits(sys: Sys, t: Id, x: Txn, u: Id)
    requires TxnOk(sys.db, x) && AllPriced(sys.db) && x.job.Changing? && x.job.stage.Waiting?
    requires t in sys.txns && sys.txns[t] == x
    requires t in ChangeRow(sys, t, x).txns
    ensures Debits(ChangeRow(sys, t, x).txns[t], u) ==> WouldDebit(sys.db, x, u)
  {
    var sid := x.job.sid;
    if sid in sys.db.sessions && sys.db.sessions[sid].status.Active? && Changed(x.job.op, sid, sys.db.sessions[sid]).Ok? {
      ChangedIs(x.job.op, sid, sys.db.sessions[sid]);
    }
  }

  /** The only statement that inserts a debt is an operation's first. */
  lemma AdvanceDebits(sys: Sys, t: Id, newSid: Id, u: Id)
    requires Inv(sys) && t in sys.txns && t in AdvanceTxn(sys, t, sys.txns[t], newSid).txns
    requires sys.txns[t].job.Changing?
    ensures var x, y := sys.txns[t], AdvanceTxn(sys, t, sys.txns[t], newSid).txns[t];
            Debits(y, u) ==> Debits(x, u) || WouldDebit(sys.db, x, u)
  {
    var x := sys.txns[t];
    assert TxnOk(sys.db, x);
    if x.job.stage.Waiting? {
      ChangeRowDebits(sys, t, x, u);
    }
  }

  lemma NoDebits(sys: Sys, t: Id, newSid: Id, u: Id)
    requires t in sys.txns && t in AdvanceTxn(sys, t, sys.txns[t], newSid).txns && !sys.txns[t].job.Changing?
    ensures !Debits(AdvanceTxn(sys, t, sys.txns[t], newSid).txns[t], u)
  {}

  lemma AdvanceKeepsApart(sys: Sys, t: Id, newSid: Id)
    requires Inv(sys) && KeysApart(sys) && Honours(sys, Advance(t, newSid)) && t in sys.txns
    ensures KeysApart(AdvanceTxn(sys, t, sys.txns[t], newSid))
  {
    var after := AdvanceTxn(sys, t, sys.txns[t], newSid);
    AdvanceOwn(sys, t, newSid);
    forall a, b, u | a in after.txns && b in after.txns && a != b && CustomerRow(u) in after.txns[a].holds
      ensures !Debits(after.txns[b], u)
    {
      if t in after.txns && (a == t || b == t) {
        AdvanceLocks(sys, t, newSid, u);
        if sys.txns[t].job.Changing? {
          AdvanceDebits(sys, t, newSid, u);
        } else {
          NoDebits(sys, t, newSid, u);
        }
      }
    }
  }

  lemma StepKeepsApart(sys: Sys, ev: Event)
    requires Inv(sys) && KeysApart(sys) && Honours(sys, ev)
    ensures KeysApart(Step(sys, ev))
  {
    if ev.Advance? {
      if ev.t in sys.txns {
        AdvanceKeepsApart(sys, ev.t, ev.newSid);
      }
    } else if IsBegin(ev) {
      BeginKeepsApart(sys, ev);
    } else {
      assert forall t :: t in Step(sys, ev).txns ==> t in sys.txns && Step(sys, ev).txns[t] == sys.txns[t];
    }
  }

  lemma BeginKeepsApart(sys: Sys, ev: Event)
    requires KeysApart(sys) && IsBegin(ev)
    ensures KeysApart(Step(sys, ev))
  {}

  /** A commit that writes no debt of u, by a transaction without u's row, leaves the balance of u. */
  lemma BalanceUntouched(db: Db, x: Txn, u: Id)
    requires TxnOk(db, x) && AllPriced(db) && Finished(x.job) && CustomerRow(u) !in x.holds && !Debits(x, u)
    ensures Balance(Merge(db, x.st).ledger, u) == Balance(db.ledger, u)
  {
    if x.st.entries == [] {
      assert Merge(db, x.st).ledger == db.ledger;
    } else {
      if x.job.Changing? {
        ChangedIs(x.job.op, x.job.sid, db.sessions[x.job.sid]);
        assert x.st.entries[0].customerId != u;
      }
      AppendSum(db.ledger, x.st.entries[0], Of(u));
    }
  }

  /** A payment past its check still fits a balance that can be read. */
  ghost predicate PayCurrent(db: Db, x: Txn) {
    x.job.Paying? && x.job.progress.Done? ==> Covered(db, x.job.u, x.job.amount)
  }

  ghost predicate PaysCurrent(sys: Sys) {
    forall t :: t in sys.txns ==> PayCurrent(sys.db, sys.txns[t])
  }

  /** A commit leaves the balance of every other open payment as it was. */
  lemma CommitSparesPayment(sys: Sys, t: Id, other: Id)
    requires Inv(sys) && KeysApart(sys) && t in sys.txns && other in sys.txns && t != other && Finished(sys.txns[t].job)
    requires sys.txns[other].job.Paying? && sys.txns[other].job.progress.Done?
    ensures Balance(Merge(sys.db, sys.txns[t].st).ledger, sys.txns[other].job.u) ==
            Balance(sys.db.ledger, sys.txns[other].job.u)
  {
    var x, y := sys.txns[t], sys.txns[other];
    assert Apart(x, y) && TxnOk(sys.db, x) && TxnOk(sys.db, y);
    assert CustomerRow(y.job.u) in y.holds;
    BalanceUntouched(sys.db, x, y.job.u);
  }

  lemma CommitKeepsPays(sys: Sys, t: Id)
    requires Inv(sys) && KeysApart(sys) && PaysCurrent(sys)
    ensures PaysCurrent(Step(sys, Commit(t)))
  {
    if t in sys.txns && Finished(sys.txns[t].job) {
      var after := Step(sys, Commit(t));
      CommitMerges(sys, t);
      forall other | other in after.txns ensures PayCurrent(after.db, after.txns[other]) {
        assert after.txns[other] == sys.txns[other] && PayCurrent(sys.db, sys.txns[other]);
        if sys.txns[other].job.Paying? && sys.txns[other].job.progress.Done? {
          CommitSparesPayment(sys, t, other);
        }
      }
    }
  }

  lemma PastCheckLocks(sys: Sys, t: Id, u: Id)
    requires TxnsOk(sys) && t in sys.txns && PastCheck(sys.txns[t], u)
    ensures Taken(sys, CustomerRow(u))
  {
    assert TxnOk(sys.db, sys.txns[t]);
  }

  /** The correction waits for open payments of its customer and leaves the balances of others. */
  lemma CorrectionKeepsPays(sys: Sys, u: Id, amount: int)
    requires Inv(sys) && PaysCurrent(sys) && !Taken(sys, CustomerRow(u))
    ensures PaysCurrent(Step(sys, Correction(u, amount)))
  {
    if Correct(sys.db, u, amount).Ok? {
      forall t | t in sys.txns ensures PayCurrent(Step(sys, Correction(u, amount)).db, sys.txns[t]) {
        assert PayCurrent(sys.db, sys.txns[t]);
        if sys.txns[t].job.Paying? && sys.txns[t].job.progress.Done? {
          if sys.txns[t].job.u == u {
            PastCheckLocks(sys, t, u);
          }
          AppendSum(sys.db.ledger, Entry(u, DebtCorrection, amount, None), Of(sys.txns[t].job.u));
        }
      }
    }
  }

  lemma AdvanceKeepsPays(sys: Sys, t: Id, newSid: Id)
    requires TxnsOk(sys) && PaysCurrent(sys) && t in sys.txns
    ensures PaysCurrent(AdvanceTxn(sys, t, sys.txns[t], newSid))
  {
    var after := AdvanceTxn(sys, t, sys.txns[t], newSid);
    AdvanceOwn(sys, t, newSid);
    forall v | v in after.txns ensures PayCurrent(after.db, after.txns[v]) {
      if v == t {
        AdvancePay(sys, t, newSid);
      }
    }
  }

  lemma AdvancePay(sys: Sys, t: Id, newSid: Id)
    requires t in sys.txns && t in AdvanceTxn(sys, t, sys.txns[t], newSid).txns && PayCurrent(sys.db, sys.txns[t])
    ensures PayCurrent(sys.db, AdvanceTxn(sys, t, sys.txns[t], newSid).txns[t])
  {
    var x := sys.txns[t];
    if x.job.Paying? && x.job.progress.Ready? {
      var r := PaymentEntry(sys.db.ledger, x.job.u, x.job.amount);
      assert r.Ok? ==> Covered(sys.db, x.job.u, x.job.amount);
    }
  }

  lemma SameLedgerKeepsPays(sys: Sys, ev: Event)
    requires PaysCurrent(sys) && (IsBegin(ev) || IsEdit(ev) || ev.Rollback?)
    ensures PaysCurrent(Step(sys, ev))
  {
    assert Step(sys, ev).db.ledger == sys.db.ledger;
  }

  /** Whatever is edited, a payment past its check stays covered as long as the key is honoured. */
  lemma StepKeepsPays(sys: Sys, ev: Event)
    requires Inv(sys) && KeysApart(sys) && Honours(sys, ev) && PaysCurrent(sys)
    ensures PaysCurrent(Step(sys, ev))
  {
    if ev.Advance? {
      if ev.t in sys.txns {
        AdvanceKeepsPays(sys, ev.t, ev.newSid);
      }
    } else if ev.Commit? {
      CommitKeepsPays(sys, ev.t);
    } else if ev.Correction? {
      CorrectionKeepsPays(sys, ev.u, ev.amount);
    } else {
      SameLedgerKeepsPays(sys, ev);
    }
  }

  /** With the key honoured nothing but an edit of a room or a customer puts a read out of date. */
  lemma OnlyEditsDisturb(sys: Sys, ev: Event)
    requires Inv(sys) && AllCurrent(sys) && KeysApart(sys) && Honours(sys, ev) && !ev.EditRoom? && !ev.EditCustomer?
    ensures !Disturbs(sys, ev)
  {
    match ev
    case Correction(u, _) =>
      forall t | t in sys.txns ensures !PastCheck(sys.txns[t], u) {
        if PastCheck(sys.txns[t], u) {
          PastCheckLocks(sys, t, u);
        }
      }
    case Commit(t) =>
      if t in sys.txns && Finished(sys.txns[t].job) {
        forall other | other in sys.txns && other != t ensures !Overfills(Merge(sys.db, sys.txns[t].st), sys.txns[other]) {
          assert Current(sys.db, sys.txns[other]);
          if sys.txns[other].job.Paying? && sys.txns[other].job.progress.Done? {
            CommitSparesPayment(sys, t, other);
          }
        }
      }
    case _ =>
  }

  // ----- Whole runs -----

  ghost predicate AlwaysHonours(sys: Sys, events: seq<Event>)
    decreases |events|
  {
    events == [] || (Honours(sys, events[0]) && AlwaysHonours(Step(sys, events[0]), events[1..]))
  }

  lemma {:induction false} HonouredKeeps(sys: Sys, events: seq<Event>)
    requires Inv(sys) && KeysApart(sys) && PaysCurrent(sys) && AlwaysHonours(sys, events)
    ensures Inv(Run(sys, events)) && KeysApart(Run(sys, events)) && PaysCurrent(Run(sys, events))
    decreases |events|
  {
    if events != [] {
      StepKeeps(sys, events[0]);
      StepKeepsApart(sys, events[0]);
      StepKeepsPays(sys, events[0]);
      HonouredKeeps(Step(sys, events[0]), events[1..]);
    }
  }

  /**
   No payment is overtaken: after any run that honours the key, whatever managers edit and whatever is
   corrected in it, a payment past its check is still covered by a balance that can be read. If it commits
   now, it does what the payment alone would do now, and the balance stays non-negative.
   */
  lemma PaymentsAreNotOvertaken(sys: Sys, events: seq<Event>, t: Id)
    requires Initial(sys) && AlwaysHonours(sys, events) && t in Run(sys, events).txns
    requires Run(sys, events).txns[t].job.Paying? && Finished(Run(sys, events).txns[t].job)
    ensures var now := Run(sys, events);
            var x := now.txns[t];
            && Covered(now.db, x.job.u, x.job.amount)
            && Pay(now.db, x.job.u, x.job.amount) == Ok(Step(now, Commit(t)).db)
            && Balance(Step(now, Commit(t)).db.ledger, x.job.u) == Balance(now.db.ledger, x.job.u) - x.job.amount >= 0
  {
    InitialInv(sys);
    HonouredKeeps(sys, events);
    RunPlanned(sys, events);
    var now := Run(sys, events);
    assert PayCurrent(now.db, now.txns[t]);
    PaymentsAreSerializable(now, t);
    PayKeepsLaws(now.db, now.txns[t].job.u, now.txns[t].job.amount);
  }

  lemma {:induction false} RunPlanned(sys: Sys, events: seq<Event>)
    requires Inv(sys) && AllPlanned(sys)
    ensures AllPlanned(Run(sys, events))
    decreases |events|
  {
    if events != [] {
      StepKeeps(sys, events[0]);
      StepPlanned(sys, events[0]);
      RunPlanned(Step(sys, events[0]), events[1..]);
    }
  }

  /** Every start the run commits does so with current reads; of other commits nothing is asked. */
  ghost predicate StartsCurrent(sys: Sys, events: seq<Event>)
    decreases |events|
  {
    events == [] || (StartCommitsCurrent(sys, events[0]) && StartsCurrent(Step(sys, events[0]), events[1..]))
  }

  ghost predicate StartCommitsCurrent(sys: Sys, ev: Event) {
    ev.Commit? && ev.t in sys.txns && sys.txns[ev.t].job.Starting? ==> CommitsCurrent(sys, ev)
  }

  lemma {:induction false} OnlyStartsMatter(sys: Sys, events: seq<Event>)
    requires Inv(sys) && KeysApart(sys) && PaysCurrent(sys) && AlwaysHonours(sys, events)
    ensures AllCommitCurrent(sys, events) <==> StartsCurrent(sys, events)
    decreases |events|
  {
    if events != [] {
      var ev := events[0];
      assert CommitsCurrent(sys, ev) <==> StartCommitsCurrent(sys, ev);
      StepKeeps(sys, ev);
      StepKeepsApart(sys, ev);
      StepKeepsPays(sys, ev);
      OnlyStartsMatter(Step(sys, ev), events[1..]);
    }
  }

  /**
   With the foreign key honoured a run is its calls one after another, in commit order, if and only if every
   start it commits finds its customer and rooms as it read them. Payments, corrections of either sign, debts
   of any size and edits under starts that roll back are of no consequence.
   */
  lemma HonouredSerialIff(sys: Sys, events: seq<Event>)
    requires Initial(sys) && AlwaysHonours(sys, events)
    ensures DoesAll(sys.db, History(sys, events), Run(sys, events).db) <==> StartsCurrent(sys, events)
  {
    InitialInv(sys);
    OnlyStartsMatter(sys, events);
    EveryRunIsSerialIff(sys, events);
  }

  /** No room is closed or repriced while an open start has read it, and no customer of one is blocked or removed. */
  ghost predicate EditsWait(sys: Sys, events: seq<Event>)
    decreases |events|
  {
    events == [] ||
    (&& (events[0].EditRoom? || events[0].EditCustomer? ==> !Disturbs(sys, events[0]))
     && EditsWait(Step(sys, events[0]), events[1..]))
  }

  lemma {:induction false} NoEditsWait(sys: Sys, events: seq<Event>)
    requires forall i :: 0 <= i < |events| ==> !events[i].EditRoom? && !events[i].EditCustomer?
    ensures EditsWait(sys, events)
    decreases |events|
  {
    if events != [] {
      NoEditsWait(Step(sys, events[0]), events[1..]);
    }
  }

  lemma {:induction false} HonouredUndisturbed(sys: Sys, events: seq<Event>)
    requires Inv(sys) && AllCurrent(sys) && KeysApart(sys) && AlwaysHonours(sys, events) && EditsWait(sys, events)
    ensures Undisturbed(sys, events)
    decreases |events|
  {
    if events != [] {
      var ev := events[0];
      if !ev.EditRoom? && !ev.EditCustomer? {
        OnlyEditsDisturb(sys, ev);
      }
      StepKeeps(sys, ev);
      StepCurrentIff(sys, ev);
      StepKeepsApart(sys, ev);
      HonouredUndisturbed(Step(sys, ev), events[1..]);
    }
  }

  /** In particular a run whose room and customer edits spare the open starts they concern is serial. */
  lemma HonouredRunIsSerial(sys: Sys, events: seq<Event>)
    requires Initial(sys) && AlwaysHonours(sys, events) && EditsWait(sys, events)
    ensures DoesAll(sys.db, History(sys, events), Run(sys, events).db)
  {
    InitialInv(sys);
    HonouredUndisturbed(sys, events);
    EveryRunIsSerial(sys, events);
  }
}
