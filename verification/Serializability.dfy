/**
 Serializability: a transaction that commits leaves what its call, run alone at the moment of the commit,
 would have left, exactly when what it read without a lock is still current then. Which events make such a
 read out of date is characterised too.
 */
module Serializability {
  import opened Wrappers
  import opened Money
  import opened Pricing
  import opened Club
  import opened ClubLaws
  import opened GroupStart
  import opened Interleaving

  // ----- What was read under a lock -----

  /** The session is what the start makes of its computer, whose row is locked, at the rate the session carries. */
  ghost predicate AsPlanned(db: Db, job: Job, s: Session)
    requires job.Starting?
  {
    && s.computerId in db.computers
    && var computer := db.computers[s.computerId];
       var plan := PlanFor(job.req.kind, s.ratePerHour, job.startedAt, job.req.minutes, job.req.end);
       && !computer.deleted && computer.isActive && computer.status == Available && plan.Ok?
       && s == NewSession(job.req, job.groupId, job.startedAt, s.computerId, computer.roomId, s.ratePerHour, plan.value)
  }

  ghost predicate Planned(db: Db, x: Txn) {
    && (x.job.Starting? ==>
          && (x.job.groupId.Some? <==> |x.job.req.computerIds| > 1)
          && (forall sid :: sid in x.st.sessions ==> AsPlanned(db, x.job, x.st.sessions[sid]))
          && (x.job.admitted.Some? ==> AsPlanned(db, x.job, x.job.admitted.value)))
    && (x.job.Paying? && !x.job.progress.Waiting? ==> CustomerKnown(db, x.job.u))
  }

  ghost predicate CustomerKnown(db: Db, u: Id) {
    u in db.customers && !db.customers[u].deleted
  }

  ghost predicate AllPlanned(sys: Sys) {
    forall t :: t in sys.txns ==> Planned(sys.db, sys.txns[t])
  }

  // ----- What was read without one -----

  /** The session's room is open and charges what the session carries. */
  ghost predicate RoomGives(db: Db, s: Session) {
    RoomOpen(db, s.roomId) && db.rooms[s.roomId].pricePerHour == s.ratePerHour
  }

  /** A payment past its check still fits a balance that can be read. */
  ghost predicate Covered(db: Db, u: Id, amount: int) {
    amount <= Balance(db.ledger, u) && Safe(Balance(db.ledger, u))
  }

  /** What a transaction has read of rows it does not lock is still so. */
  ghost predicate Current(db: Db, x: Txn) {
    match x.job
    case Starting(req, _, _, _, admitted) =>
      && CustomerPasses(db, req.customerId)
      && (forall sid :: sid in x.st.sessions ==> RoomGives(db, x.st.sessions[sid]))
      && (admitted.Some? ==> RoomGives(db, admitted.value))
    case Changing(_, _, _) => true
    case Paying(u, amount, progress) => progress.Done? ==> Covered(db, u, amount)
  }

  ghost predicate AllCurrent(sys: Sys) {
    forall t :: t in sys.txns ==> Current(sys.db, sys.txns[t])
  }

  /** A start is admitted with a session exactly when its locked and its unlocked reads say so. */
  lemma AdmitIff(db: Db, job: Job, s: Session)
    requires job.Starting?
    ensures Admit(db, job.req, job.groupId, job.startedAt, s.computerId) == Ok(s) <==>
            AsPlanned(db, job, s) && RoomGives(db, s)
  {}

  // ----- Locked reads stay as they are -----

  /** The customers whose rows x has locked are as they were. */
  ghost predicate SameLockedCustomers(db: Db, after: Db, x: Txn) {
    forall u :: CustomerRow(u) in x.holds ==> SameAt(db.customers, after.customers, u)
  }

  lemma StagedComputerLocked(db: Db, x: Txn, sid: Id)
    requires x.job.Starting? && TxnOk(db, x) && sid in x.st.sessions
    ensures ComputerRow(x.st.sessions[sid].computerId) in x.holds
  {
    StagedFresh(db, x.st);
  }

  lemma AsPlannedFrame(db: Db, after: Db, job: Job, s: Session)
    requires job.Starting? && AsPlanned(db, job, s) && SameAt(db.computers, after.computers, s.computerId)
    ensures AsPlanned(after, job, s)
  {}

  lemma PlannedFrame(db: Db, after: Db, x: Txn)
    requires TxnOk(db, x) && Planned(db, x) && Respects(db, after, x) && SameLockedCustomers(db, after, x)
    ensures Planned(after, x)
  {
    if x.job.Starting? {
      forall sid | sid in x.st.sessions ensures AsPlanned(after, x.job, x.st.sessions[sid]) {
        StagedComputerLocked(db, x, sid);
        AsPlannedFrame(db, after, x.job, x.st.sessions[sid]);
      }
      if x.job.admitted.Some? {
        AsPlannedFrame(db, after, x.job, x.job.admitted.value);
      }
    }
  }

  lemma PlannedTables(sys: Sys, after: Sys)
    requires TxnsOk(sys) && AllPlanned(sys)
    requires forall t :: t in after.txns ==> t in sys.txns && after.txns[t] == sys.txns[t]
    requires forall t :: t in after.txns ==>
               Respects(sys.db, after.db, sys.txns[t]) && SameLockedCustomers(sys.db, after.db, sys.txns[t])
    ensures AllPlanned(after)
  {
    forall t | t in after.txns ensures Planned(after.db, after.txns[t]) {
      PlannedFrame(sys.db, after.db, sys.txns[t]);
    }
  }

  /** Admitting the next computer reads its row under the lock and its room without one. */
  lemma AdmitReads(sys: Sys, t: Id, x: Txn)
    requires TxnsOk(sys) && t in sys.txns && x == sys.txns[t] && x.job.Starting? && x.job.admitted.None?
    ensures var after := AdmitNext(sys, t, x);
            t in after.txns ==>
              var y := after.txns[t];
              && after.txns == sys.txns[t := y] && y.st == x.st
              && (y == x || (y.job == x.job.(admitted := y.job.admitted) && y.job.admitted.Some?
                             && AsPlanned(sys.db, x.job, y.job.admitted.value) && RoomGives(sys.db, y.job.admitted.value)))
  {
    var job := x.job;
    if job.next < |job.req.computerIds| && !TakenByOther(sys, t, ComputerRow(job.req.computerIds[job.next])) {
      var c := job.req.computerIds[job.next];
      assert TxnOk(sys.db, x);
      if c in x.st.computers {
        OwnWriteRefused(sys.db, job.req, job.groupId, job.startedAt, x.st, c);
      } else {
        OthersUnaffected(sys.db, job.req, job.groupId, job.startedAt, x.st, c);
      }
      var r := Admit(Merge(sys.db, x.st), job.req, job.groupId, job.startedAt, c);
      if r.Ok? {
        AdmittedSession(sys.db, job.req, job.groupId, job.startedAt, c);
        AdmitIff(sys.db, job, r.value);
      }
    } else {
      assert AdmitNext(sys, t, x) == sys && sys.txns == sys.txns[t := x];
    }
  }

  /** What the insert does to the transaction, if it goes through. */
  lemma InsertMoves(sys: Sys, t: Id, x: Txn, newSid: Id)
    requires t in sys.txns && x == sys.txns[t] && x.job.Starting? && x.job.admitted.Some?
    ensures var after := InsertAdmitted(sys, t, x, newSid);
            t in after.txns ==>
              var y := after.txns[t];
              && after.txns == sys.txns[t := y]
              && (y == x || (y.job == x.job.(next := x.job.next + 1, admitted := None)
                             && y.st.sessions == x.st.sessions[newSid := x.job.admitted.value]))
  {
    assert sys.txns == sys.txns[t := x];
  }

  /** What the other statements do to their transaction. */
  lemma OtherReads(sys: Sys, t: Id, x: Txn, newSid: Id)
    requires t in sys.txns && x == sys.txns[t] && !x.job.Starting?
    ensures var after := AdvanceTxn(sys, t, x, newSid);
            t in after.txns ==>
              var y := after.txns[t];
              && after.txns == sys.txns[t := y] && (Planned(sys.db, x) ==> Planned(sys.db, y))
              && (Current(sys.db, x) ==> Current(sys.db, y))
  {
    assert sys.txns == sys.txns[t := x];
    if x.job.Paying? && x.job.progress.Ready? {
      var r := PaymentEntry(sys.db.ledger, x.job.u, x.job.amount);
      assert r.Ok? ==> Covered(sys.db, x.job.u, x.job.amount);
    }
  }

  /** A statement changes its own transaction only, or drops it. */
  lemma AdvanceOwn(sys: Sys, t: Id, newSid: Id)
    requires t in sys.txns
    ensures var after := AdvanceTxn(sys, t, sys.txns[t], newSid);
            after.db == sys.db && forall u :: u in after.txns && u != t ==> u in sys.txns && after.txns[u] == sys.txns[u]
  {}

  /** The statement's own transaction, if it is still there, has read what is so. */
  lemma AdvanceReads(sys: Sys, t: Id, newSid: Id)
    requires TxnsOk(sys) && t in sys.txns
    ensures var after := AdvanceTxn(sys, t, sys.txns[t], newSid);
            t in after.txns ==>
              && (Planned(sys.db, sys.txns[t]) ==> Planned(sys.db, after.txns[t]))
              && (Current(sys.db, sys.txns[t]) ==> Current(sys.db, after.txns[t]))
  {
    var x := sys.txns[t];
    if !x.job.Starting? {
      OtherReads(sys, t, x, newSid);
    } else if x.job.admitted.None? {
      AdmitReads(sys, t, x);
    } else {
      InsertMoves(sys, t, x, newSid);
    }
  }

  lemma AdvancePlanned(sys: Sys, t: Id, newSid: Id)
    requires TxnsOk(sys) && AllPlanned(sys) && t in sys.txns
    ensures AllPlanned(AdvanceTxn(sys, t, sys.txns[t], newSid))
  {
    AdvanceOwn(sys, t, newSid);
    AdvanceReads(sys, t, newSid);
  }

  lemma CommitPlanned(sys: Sys, t: Id)
    requires Inv(sys) && AllPlanned(sys) && t in sys.txns && Finished(sys.txns[t].job)
    ensures AllPlanned(Step(sys, Commit(t)))
  {
    var after := Step(sys, Commit(t));
    forall u | u in after.txns ensures Respects(sys.db, after.db, sys.txns[u]) {
      CommitRespects(sys.db, sys.txns[t], sys.txns[u]);
    }
    PlannedTables(sys, after);
  }

  lemma ComputerWritePlanned(sys: Sys, c: Id, computer: Computer)
    requires TxnsOk(sys) && AllPlanned(sys) && !Taken(sys, ComputerRow(c))
    ensures AllPlanned(sys.(db := sys.db.(computers := sys.db.computers[c := computer])))
  {
    var after := sys.(db := sys.db.(computers := sys.db.computers[c := computer]));
    forall t | t in sys.txns ensures Respects(sys.db, after.db, sys.txns[t]) {
      assert ComputerRow(c) !in sys.txns[t].holds;
    }
    PlannedTables(sys, after);
  }

  lemma CustomerWritePlanned(sys: Sys, u: Id, customer: Customer)
    requires AllPlanned(sys) && TxnsOk(sys) && !Taken(sys, CustomerRow(u))
    ensures AllPlanned(sys.(db := sys.db.(customers := sys.db.customers[u := customer])))
  {
    var after := sys.db.(customers := sys.db.customers[u := customer]);
    forall t | t in sys.txns ensures Planned(after, sys.txns[t]) {
      assert TxnOk(sys.db, sys.txns[t]) && CustomerRow(u) !in sys.txns[t].holds;
      SamePlanned(sys.db, after, sys.txns[t]);
    }
  }

  /** The locked reads of a start look at computers, those of a payment at its customer. */
  lemma SamePlanned(db: Db, after: Db, x: Txn)
    requires Planned(db, x) && after.computers == db.computers
    requires x.job.Paying? && !x.job.progress.Waiting? ==> SameAt(db.customers, after.customers, x.job.u)
    ensures Planned(after, x)
  {
    if x.job.Starting? {
      forall s: Session ensures AsPlanned(db, x.job, s) ==> AsPlanned(after, x.job, s) {}
    }
  }

  lemma EditPlanned(sys: Sys, ev: Event)
    requires TxnsOk(sys) && AllPlanned(sys) && IsEdit(ev)
    ensures AllPlanned(Step(sys, ev))
  {
    match ev
    case EditComputer(c, computer) =>
      if !Taken(sys, ComputerRow(c)) {
        ComputerWritePlanned(sys, c, computer);
      }
    case AddComputer(c, roomId) =>
      if !Taken(sys, ComputerRow(c)) {
        ComputerWritePlanned(sys, c, Computer(roomId, Available, true, false));
      }
    case EditCustomer(u, customer) =>
      if !Taken(sys, CustomerRow(u)) {
        CustomerWritePlanned(sys, u, customer);
      }
    case EditRoom(_, _) => SameLockedTables(sys, Step(sys, ev).db);
  }

  lemma SameLockedTables(sys: Sys, after: Db)
    requires AllPlanned(sys) && after.computers == sys.db.computers && after.customers == sys.db.customers
    ensures AllPlanned(sys.(db := after))
  {
    forall t | t in sys.txns ensures Planned(after, sys.txns[t]) {
      SamePlanned(sys.db, after, sys.txns[t]);
    }
  }

  lemma BeginPlanned(sys: Sys, ev: Event)
    requires AllPlanned(sys) && IsBegin(ev)
    ensures AllPlanned(Step(sys, ev))
  {}

  /** What a transaction reads under its locks holds until it ends, whatever happens. */
  lemma StepPlanned(sys: Sys, ev: Event)
    requires Inv(sys) && AllPlanned(sys)
    ensures AllPlanned(Step(sys, ev))
  {
    if IsEdit(ev) {
      EditPlanned(sys, ev);
    } else if IsBegin(ev) {
      BeginPlanned(sys, ev);
    } else if ev.Advance? {
      if ev.t in sys.txns {
        AdvancePlanned(sys, ev.t, ev.newSid);
      }
    } else if ev.Commit? {
      if ev.t in sys.txns && Finished(sys.txns[ev.t].job) {
        CommitPlanned(sys, ev.t);
      }
    } else if ev.Correction? {
      if Correct(sys.db, ev.u, ev.amount).Ok? {
        SameLockedTables(sys, Step(sys, ev).db);
      }
    }
  }

  // ----- Which events put an unlocked read out of date -----

  /** An open start has a session, staged or admitted, in room r. */
  ghost predicate HasReadRoom(x: Txn, r: Id) {
    && x.job.Starting?
    && ((exists sid :: sid in x.st.sessions && x.st.sessions[sid].roomId == r)
        || (x.job.admitted.Some? && x.job.admitted.value.roomId == r))
  }

  ghost predicate NamesCustomer(x: Txn, u: Id) {
    x.job.Starting? && x.job.req.customerId == Some(u)
  }

  ghost predicate PastCheck(x: Txn, u: Id) {
    x.job.Paying? && x.job.progress.Done? && x.job.u == u
  }

  /** The room is not open, or has another price than before. */
  ghost predicate RoomDiffers(db: Db, r: Id, room: Room) {
    room.deleted || !room.isActive || (r in db.rooms && room.pricePerHour != db.rooms[r].pricePerHour)
  }

  /**
   The conflicts: closing a room, or changing its price, while an open start has read it; blocking or removing
   a customer an open start is for; and, for a customer with a payment past its balance check, a correction
   that takes the balance below the payment, or any ledger entry that makes the balance unreadable.
   */
  ghost predicate Disturbs(sys: Sys, ev: Event) {
    match ev
    case EditRoom(r, room) => RoomDiffers(sys.db, r, room) && exists t :: t in sys.txns && HasReadRoom(sys.txns[t], r)
    case EditCustomer(u, customer) =>
      && !Taken(sys, CustomerRow(u)) && (customer.isBlocked || customer.deleted)
      && exists t :: t in sys.txns && NamesCustomer(sys.txns[t], u)
    case Correction(u, amount) =>
      && Correct(sys.db, u, amount).Ok?
      && exists t :: t in sys.txns && PastCheck(sys.txns[t], u)
                     && (Balance(sys.db.ledger, u) + amount < sys.txns[t].job.amount
                         || !Safe(Balance(sys.db.ledger, u) + amount))
    case Commit(t) =>
      && t in sys.txns && Finished(sys.txns[t].job)
      && exists other :: other in sys.txns && other != t
                         && Overfills(Merge(sys.db, sys.txns[t].st), sys.txns[other])
    case _ => false
  }

  /** The tables leave the balance of a payment past its check unreadable. */
  ghost predicate Overfills(after: Db, y: Txn) {
    y.job.Paying? && y.job.progress.Done? && !Safe(Balance(after.ledger, y.job.u))
  }

  lemma StartCurrentFrame(db: Db, after: Db, x: Txn)
    requires x.job.Starting? && after.rooms == db.rooms && after.customers == db.customers
    ensures Current(after, x) <==> Current(db, x)
  {
    forall s: Session ensures RoomGives(db, s) <==> RoomGives(after, s) {}
  }

  lemma BeginCurrent(sys: Sys, ev: Event)
    requires AllCurrent(sys) && IsBegin(ev)
    ensures AllCurrent(Step(sys, ev))
  {}

  lemma AdvanceCurrent(sys: Sys, t: Id, newSid: Id)
    requires TxnsOk(sys) && AllCurrent(sys) && t in sys.txns
    ensures AllCurrent(AdvanceTxn(sys, t, sys.txns[t], newSid))
  {
    AdvanceOwn(sys, t, newSid);
    AdvanceReads(sys, t, newSid);
  }

  lemma CommittedBalance(db: Db, x: Txn, u: Id)
    requires TxnOk(db, x) && AllPriced(db) && CustomerRow(u) !in x.holds
    ensures Balance(Merge(db, x.st).ledger, u) >= Balance(db.ledger, u)
  {
    if x.st.entries == [] {
      assert Merge(db, x.st).ledger == db.ledger;
    } else {
      if x.job.Changing? {
        ChangedIs(x.job.op, x.job.sid, db.sessions[x.job.sid]);
      }
      AppendSum(db.ledger, x.st.entries[0], Of(u));
    }
  }

  lemma CommitCurrentIff(sys: Sys, t: Id, other: Id)
    requires Inv(sys) && t in sys.txns && other in sys.txns && t != other && Current(sys.db, sys.txns[other])
    ensures var after, y := Merge(sys.db, sys.txns[t].st), sys.txns[other];
            Current(after, y) <==> !Overfills(after, y)
  {
    var x, y := sys.txns[t], sys.txns[other];
    assert Apart(x, y) && TxnOk(sys.db, x) && TxnOk(sys.db, y);
    match y.job
    case Starting(_, _, _, _, _) => StartCurrentFrame(sys.db, Merge(sys.db, x.st), y);
    case Changing(_, _, _) =>
    case Paying(u, _, progress) =>
      if progress.Done? {
        CommittedBalance(sys.db, x, u);
      }
  }

  lemma CommitStepCurrentIff(sys: Sys, t: Id)
    requires Inv(sys) && AllCurrent(sys)
    ensures AllCurrent(Step(sys, Commit(t))) <==> !Disturbs(sys, Commit(t))
  {
    if t in sys.txns && Finished(sys.txns[t].job) {
      var after := Step(sys, Commit(t));
      assert after.db == Merge(sys.db, sys.txns[t].st);
      forall other | other in sys.txns && other != t
        ensures other in after.txns && after.txns[other] == sys.txns[other]
        ensures Current(after.db, sys.txns[other]) <==> !Overfills(after.db, sys.txns[other])
      {
        CommitCurrentIff(sys, t, other);
      }
    }
  }

  lemma CorrectionCurrentIff(sys: Sys, u: Id, amount: int)
    requires AllCurrent(sys)
    ensures AllCurrent(Step(sys, Correction(u, amount))) <==> !Disturbs(sys, Correction(u, amount))
  {
    if Correct(sys.db, u, amount).Ok? {
      var after := Correct(sys.db, u, amount).value;
      forall t | t in sys.txns
        ensures Current(after, sys.txns[t]) <==>
                !(PastCheck(sys.txns[t], u) && (Balance(sys.db.ledger, u) + amount < sys.txns[t].job.amount
                                                || !Safe(Balance(sys.db.ledger, u) + amount)))
      {
        CorrectedCurrent(sys.db, u, amount, sys.txns[t]);
      }
    }
  }

  lemma CorrectedCurrent(db: Db, u: Id, amount: int, x: Txn)
    requires Current(db, x) && Correct(db, u, amount).Ok?
    ensures Current(Correct(db, u, amount).value, x) <==>
            !(PastCheck(x, u) && (Balance(db.ledger, u) + amount < x.job.amount || !Safe(Balance(db.ledger, u) + amount)))
  {
    if x.job.Starting? {
      StartCurrentFrame(db, Correct(db, u, amount).value, x);
    } else if x.job.Paying? {
      CorrectedBalance(db, u, amount, x.job.u);
    }
  }

  lemma CorrectedBalance(db: Db, u: Id, amount: int, v: Id)
    requires Correct(db, u, amount).Ok?
    ensures Balance(Correct(db, u, amount).value.ledger, v) == Balance(db.ledger, v) + if v == u then amount else 0
  {
    AppendSum(db.ledger, Entry(u, DebtCorrection, amount, None), Of(v));
  }

  lemma RoomCurrentIff(db: Db, r: Id, room: Room, x: Txn)
    requires Current(db, x)
    ensures Current(db.(rooms := db.rooms[r := room]), x) <==> !(HasReadRoom(x, r) && RoomDiffers(db, r, room))
  {
    var after := db.(rooms := db.rooms[r := room]);
    if x.job.Starting? {
      forall s: Session ensures RoomGives(db, s) ==>
                                  (RoomGives(after, s) <==> !(s.roomId == r && RoomDiffers(db, r, room))) {}
    }
  }

  lemma CustomerCurrentIff(db: Db, u: Id, customer: Customer, x: Txn)
    requires Current(db, x)
    ensures Current(db.(customers := db.customers[u := customer]), x) <==>
            !(NamesCustomer(x, u) && (customer.isBlocked || customer.deleted))
  {
    var after := db.(customers := db.customers[u := customer]);
    if x.job.Starting? {
      forall s: Session ensures RoomGives(db, s) <==> RoomGives(after, s) {}
    }
  }

  lemma RoomStepCurrentIff(sys: Sys, r: Id, room: Room)
    requires AllCurrent(sys)
    ensures AllCurrent(Step(sys, EditRoom(r, room))) <==> !Disturbs(sys, EditRoom(r, room))
  {
    forall t | t in sys.txns
      ensures Current(Step(sys, EditRoom(r, room)).db, sys.txns[t]) <==>
              !(HasReadRoom(sys.txns[t], r) && RoomDiffers(sys.db, r, room))
    {
      RoomCurrentIff(sys.db, r, room, sys.txns[t]);
    }
  }

  lemma CustomerStepCurrentIff(sys: Sys, u: Id, customer: Customer)
    requires AllCurrent(sys)
    ensures AllCurrent(Step(sys, EditCustomer(u, customer))) <==> !Disturbs(sys, EditCustomer(u, customer))
  {
    if !Taken(sys, CustomerRow(u)) {
      forall t | t in sys.txns
        ensures Current(Step(sys, EditCustomer(u, customer)).db, sys.txns[t]) <==>
                !(NamesCustomer(sys.txns[t], u) && (customer.isBlocked || customer.deleted))
      {
        CustomerCurrentIff(sys.db, u, customer, sys.txns[t]);
      }
    }
  }

  lemma ComputerStepCurrent(sys: Sys, ev: Event)
    requires AllCurrent(sys) && (ev.EditComputer? || ev.AddComputer?)
    ensures AllCurrent(Step(sys, ev))
  {
    var after := Step(sys, ev).db;
    forall t | t in sys.txns ensures Current(after, sys.txns[t]) {
      if sys.txns[t].job.Starting? {
        StartCurrentFrame(sys.db, after, sys.txns[t]);
      }
    }
  }

  /** Unlocked reads stay current over a step exactly when the step is not one of the conflicts. */
  lemma StepCurrentIff(sys: Sys, ev: Event)
    requires Inv(sys) && AllCurrent(sys)
    ensures AllCurrent(Step(sys, ev)) <==> !Disturbs(sys, ev)
  {
    match ev
    case Advance(t, newSid) =>
      if t in sys.txns {
        AdvanceCurrent(sys, t, newSid);
      }
    case Commit(t) => CommitStepCurrentIff(sys, t);
    case Rollback(_) =>
    case Correction(u, amount) => CorrectionCurrentIff(sys, u, amount);
    case EditRoom(r, room) => RoomStepCurrentIff(sys, r, room);
    case EditCustomer(u, customer) => CustomerStepCurrentIff(sys, u, customer);
    case EditComputer(_, _) => ComputerStepCurrent(sys, ev);
    case AddComputer(_, _) => ComputerStepCurrent(sys, ev);
    case _ => BeginCurrent(sys, ev);
  }

  /** Unlocked reads are current now and after every event. */
  ghost predicate AlwaysCurrent(sys: Sys, events: seq<Event>)
    decreases |events|
  {
    AllCurrent(sys) && (events == [] || AlwaysCurrent(Step(sys, events[0]), events[1..]))
  }

  ghost predicate Undisturbed(sys: Sys, events: seq<Event>)
    decreases |events|
  {
    events == [] || (!Disturbs(sys, events[0]) && Undisturbed(Step(sys, events[0]), events[1..]))
  }

  /** Over every run, what open transactions have read stays current exactly when the run has no conflict. */
  lemma {:induction false} RunCurrentIff(sys: Sys, events: seq<Event>)
    requires Inv(sys) && AllCurrent(sys)
    ensures AlwaysCurrent(sys, events) <==> Undisturbed(sys, events)
    decreases |events|
  {
    if events != [] {
      StepKeeps(sys, events[0]);
      StepCurrentIff(sys, events[0]);
      if !Disturbs(sys, events[0]) {
        RunCurrentIff(Step(sys, events[0]), events[1..]);
      }
    }
  }

  // ----- The commit of a start -----

  /** The id a finished start drew for each of its computers. */
  ghost function DrawnIds(st: Staging): map<Id, Id>
    requires forall c :: c in st.computers ==> HasSession(st, c)
  {
    map c | c in st.computers :: SessionIdOn(st, c)
  }

  ghost predicate HasSession(st: Staging, c: Id) {
    exists sid :: sid in st.sessions && st.sessions[sid].computerId == c
  }

  ghost function SessionIdOn(st: Staging, c: Id): (sid: Id)
    requires HasSession(st, c)
    ensures sid in st.sessions && st.sessions[sid].computerId == c
  {
    var sid :| sid in st.sessions && st.sessions[sid].computerId == c;
    sid
  }

  lemma StagedHasSession(db: Db, st: Staging)
    requires Staged(db, st)
    ensures forall c :: c in st.computers ==> HasSession(st, c)
  {
    forall c | c in st.computers ensures HasSession(st, c) {
      assert StagedComputer(db, st, c);
    }
  }

  lemma DrawnFresh(db: Db, st: Staging)
    requires Staged(db, st)
    ensures forall c :: c in st.computers ==> HasSession(st, c)
    ensures FreshIds(db, DrawnIds(st))
    ensures forall sid :: sid in st.sessions ==>
              st.sessions[sid].computerId in st.computers && DrawnIds(st)[st.sessions[sid].computerId] == sid
  {
    StagedHasSession(db, st);
    StagedFresh(db, st);
  }

  /** The committing start in the terms of the call run alone. */
  function FinishedStart(job: Job, newId: map<Id, Id>): Start
    requires job.Starting?
  {
    Start(job.req, job.groupId, job.startedAt, newId)
  }

  /** At the end a start has staged exactly the requested computers, with one session each. */
  lemma FinishedShape(db: Db, x: Txn)
    requires TxnOk(db, x) && x.job.Starting? && Finished(x.job)
    ensures Staged(db, x.st) && Distinct(x.job.req.computerIds)
    ensures x.st.computers.Keys == Elements(x.job.req.computerIds)
    ensures forall c :: c in x.st.computers <==> c in x.job.req.computerIds
  {
    var ids := x.job.req.computerIds;
    assert ids[..|ids|] == ids;
  }

  lemma DrawnImage(db: Db, st: Staging, ids: seq<Id>)
    requires Staged(db, st) && st.computers.Keys == Elements(ids)
    ensures forall c :: c in st.computers ==> HasSession(st, c)
    ensures forall c :: c in ids <==> c in DrawnIds(st)
    ensures st.sessions.Keys == set c | c in ids :: DrawnIds(st)[c]
  {
    DrawnFresh(db, st);
    assert forall c :: c in ids <==> c in st.computers;
  }

  lemma FinishedJudged(db: Db, x: Txn, newId: map<Id, Id>, c: Id)
    requires Staged(db, x.st) && x.job.Starting? && Planned(db, x) && Current(db, x) && c in x.st.computers
    requires c in newId && newId[c] in x.st.sessions && x.st.sessions[newId[c]].computerId == c
    ensures Judged(db, FinishedStart(x.job, newId), c) == Ok(x.st.sessions[newId[c]]) && !ActiveOn(db, c)
  {
    AdmitIff(db, x.job, x.st.sessions[newId[c]]);
    StagedNotActive(db, x.st, c);
  }

  lemma FinishedTakes(db: Db, x: Txn, newId: map<Id, Id>)
    requires x.job.Starting? && Staged(db, x.st) && x.st.computers.Keys == Elements(x.job.req.computerIds)
    ensures ComputersTaken(db, FinishedStart(x.job, newId), Merge(db, x.st))
  {
    StagedFlips(db, x.st);
    OverlayTakes(db.computers, x.st.computers, x.job.req.computerIds);
  }

  lemma FinishedStartStarted(db: Db, x: Txn, newId: map<Id, Id>)
    requires Staged(db, x.st) && Planned(db, x) && Current(db, x) && x.job.Starting?
    requires x.st.computers.Keys == Elements(x.job.req.computerIds)
    requires forall c :: c in x.st.computers ==> HasSession(x.st, c)
    requires newId == DrawnIds(x.st)
    ensures forall c :: c in x.job.req.computerIds ==> c in newId
    ensures Started(db, FinishedStart(x.job, newId), Merge(db, x.st))
    ensures forall c :: c in x.job.req.computerIds ==> Startable(db, FinishedStart(x.job, newId), c)
  {
    var ids, st := x.job.req.computerIds, x.st;
    DrawnImage(db, st, ids);
    StagedFresh(db, st);
    FinishedTakes(db, x, newId);
    forall c | c in ids
      ensures Judged(db, FinishedStart(x.job, newId), c) == Ok(st.sessions[newId[c]]) && !ActiveOn(db, c)
    {
      FinishedJudged(db, x, newId, c);
    }
    assert Merge(db, st).ledger == db.ledger;
  }

  lemma StartCommitIsStartAll(db: Db, x: Txn, groupId: Id, newId: map<Id, Id>)
    requires TxnOk(db, x) && Planned(db, x) && Current(db, x) && x.job.Starting? && Finished(x.job)
    requires GroupId(x.job.req, groupId) == x.job.groupId
    requires forall c :: c in x.st.computers ==> HasSession(x.st, c)
    requires newId == DrawnIds(x.st)
    ensures FreshIds(db, newId) && forall c :: c in x.job.req.computerIds ==> c in newId
    ensures StartAll(db, x.job.req, groupId, x.job.startedAt, newId) == Ok(Merge(db, x.st))
  {
    FinishedShape(db, x);
    DrawnFresh(db, x.st);
    FinishedStartStarted(db, x, newId);
    StartedIsStartAll(db, x.job.req, groupId, x.job.startedAt, newId, Merge(db, x.st));
  }

  /** The call run alone, with some new ids, takes db to after. */
  ghost predicate StartedAlone(db: Db, job: Job, groupId: Id, newId: map<Id, Id>, after: Db)
    requires job.Starting?
  {
    && FreshIds(db, newId) && (forall c :: c in job.req.computerIds ==> c in newId)
    && StartAll(db, job.req, groupId, job.startedAt, newId) == Ok(after)
  }

  ghost predicate IsSerial(db: Db, job: Job, after: Db)
    requires job.Starting?
  {
    exists groupId: Id, newId: map<Id, Id> :: StartedAlone(db, job, groupId, newId, after)
  }

  lemma CurrentIsSerial(db: Db, x: Txn)
    requires TxnOk(db, x) && Planned(db, x) && Current(db, x) && x.job.Starting? && Finished(x.job)
    ensures IsSerial(db, x.job, Merge(db, x.st))
  {
    StagedHasSession(db, x.st);
    var groupId := if x.job.groupId.Some? then x.job.groupId.value else 0;
    StartCommitIsStartAll(db, x, groupId, DrawnIds(x.st));
    assert StartedAlone(db, x.job, groupId, DrawnIds(x.st), Merge(db, x.st));
  }

  /** A session that a start run alone would have made is one its room gives. */
  lemma AloneGives(db: Db, x: Txn, groupId: Id, newId: map<Id, Id>, after: Db, sid: Id)
    requires x.job.Starting? && StartedAlone(db, x.job, groupId, newId, after)
    requires sid in after.sessions && sid !in db.sessions
    ensures CustomerPasses(db, x.job.req.customerId) && RoomGives(db, after.sessions[sid])
  {
    StartSucceedsIff(db, x.job.req, groupId, x.job.startedAt, newId);
    StartLeaves(db, x.job.req, groupId, x.job.startedAt, newId);
    var y := Start(x.job.req, GroupId(x.job.req, groupId), x.job.startedAt, newId);
    assert SessionsStarted(db, y, after);
    var c :| c in x.job.req.computerIds && newId[c] == sid;
    GroupShares(db, y, after, c);
  }

  lemma SerialIsCurrent(db: Db, x: Txn)
    requires TxnOk(db, x) && x.job.Starting? && Finished(x.job) && IsSerial(db, x.job, Merge(db, x.st))
    ensures Current(db, x)
  {
    var after := Merge(db, x.st);
    var groupId: Id, newId: map<Id, Id> :| StartedAlone(db, x.job, groupId, newId, after);
    StartSucceedsIff(db, x.job.req, groupId, x.job.startedAt, newId);
    StagedFresh(db, x.st);
    forall sid | sid in x.st.sessions ensures RoomGives(db, x.st.sessions[sid]) {
      AloneGives(db, x, groupId, newId, after, sid);
    }
  }

  lemma CommitMerges(sys: Sys, t: Id)
    requires t in sys.txns && Finished(sys.txns[t].job)
    ensures Step(sys, Commit(t)).db == Merge(sys.db, sys.txns[t].st)
  {}

  /** A start that commits leaves what the call run alone at that moment leaves exactly when its reads are current. */
  lemma StartsAreSerializable(sys: Sys, t: Id)
    requires TxnsOk(sys) && AllPlanned(sys) && t in sys.txns
    requires sys.txns[t].job.Starting? && Finished(sys.txns[t].job)
    ensures IsSerial(sys.db, sys.txns[t].job, Step(sys, Commit(t)).db) <==> Current(sys.db, sys.txns[t])
  {
    CommitMerges(sys, t);
    var x := sys.txns[t];
    assert TxnOk(sys.db, x) && Planned(sys.db, x);
    if Current(sys.db, x) {
      CurrentIsSerial(sys.db, x);
    }
    if IsSerial(sys.db, x.job, Merge(sys.db, x.st)) {
      SerialIsCurrent(sys.db, x);
    }
  }

  /** A commit of extend, end or cancel equals that call run alone at that moment. */
  lemma ChangesAreSerializable(sys: Sys, t: Id)
    requires Inv(sys) && t in sys.txns && sys.txns[t].job.Changing? && Finished(sys.txns[t].job)
    ensures ApplyOp(sys.db, sys.txns[t].job.sid, sys.txns[t].job.op) == Ok(Step(sys, Commit(t)).db)
  {
    CommitIsAtomic(sys.db, sys.txns[t]);
  }

  /** A commit of a payment equals that call run alone exactly when the balance still covers it and can be read. */
  lemma PaymentsAreSerializable(sys: Sys, t: Id)
    requires Inv(sys) && AllPlanned(sys) && t in sys.txns && sys.txns[t].job.Paying? && Finished(sys.txns[t].job)
    ensures Pay(sys.db, sys.txns[t].job.u, sys.txns[t].job.amount) == Ok(Step(sys, Commit(t)).db) <==>
            Current(sys.db, sys.txns[t])
  {
    CommitMerges(sys, t);
    var x := sys.txns[t];
    assert TxnOk(sys.db, x) && Planned(sys.db, x);
    PayCommits(sys.db, x);
    PaySucceedsIff(sys.db, x.job.u, x.job.amount);
  }
}
