/**
 What each call leaves behind and when it fails, row by row: charges, payments, debts, freed computers and
 errors.
 */
module Outcomes {
  import opened Wrappers
  import opened Money
  import opened Pricing
  import opened Club
  import opened ClubLaws
  import opened GroupStart

  // ----- Extend, end and cancel -----

  /** An unknown session is not found, and a closed one is not active, whatever is asked. */
  lemma OpFails(db: Db, sid: Id, op: Op)
    ensures ApplyOp(db, sid, op) == Err(NotFound) <==> sid !in db.sessions
    ensures ApplyOp(db, sid, op) == Err(SessionNotActive) <==> sid in db.sessions && !db.sessions[sid].status.Active?
  {}

  /** Nothing but the one session, its computer and the end of the ledger is touched. */
  ghost predicate OnlyTouches(db: Db, after: Db, sid: Id) {
    && after.rooms == db.rooms && after.customers == db.customers && db.ledger <= after.ledger
    && sid in db.sessions && after.sessions.Keys == db.sessions.Keys && after.computers.Keys == db.computers.Keys
    && (forall k :: k in db.sessions && k != sid ==> after.sessions[k] == db.sessions[k])
    && (forall c :: c in db.computers && c != db.sessions[sid].computerId ==> after.computers[c] == db.computers[c])
  }

  lemma OpTouches(db: Db, sid: Id, op: Op)
    requires ApplyOp(db, sid, op).Ok?
    ensures OnlyTouches(db, ApplyOp(db, sid, op).value, sid)
  {
    var s := db.sessions[sid];
    var change := Changed(op, sid, s).value;
    ReleaseFrame(db.computers, s.computerId);
    assert ApplyOp(db, sid, op).value.ledger == db.ledger + change.entries;
  }

  /** Releasing makes an undeleted IN_USE computer AVAILABLE and is nothing to any other. */
  lemma ReleaseFrame(computers: map<Id, Computer>, c: Id)
    ensures var after := computers + Release(computers, c);
            && after.Keys == computers.Keys
            && forall d :: d in computers ==>
                 after[d] == if d == c && !computers[d].deleted && computers[d].status == InUse
                             then computers[d].(status := Available) else computers[d]
  {}

  /** A session kept open keeps its computer. */
  lemma ExtendLeaves(db: Db, sid: Id, x: Extension)
    requires AllPriced(db) && ApplyOp(db, sid, Extend(x)).Ok?
    ensures var after := ApplyOp(db, sid, Extend(x)).value;
            var s, t := db.sessions[sid], after.sessions[sid];
            && t == s.(plannedEndAt := Target(s, x), amountDue := t.amountDue)
            && Target(s, x).Some? && Charges(s.ratePerHour, DiffSeconds(s.startedAt, Target(s, x).value), t.amountDue)
            && after.computers == db.computers && after.ledger == db.ledger
  {
    ExtensionIs(db.sessions[sid], x);
    assert db.computers + map[] == db.computers;
    assert db.ledger + [] == db.ledger;
  }

  /** Ending or cancelling makes the session's computer AVAILABLE if it was IN_USE, whatever else is on its row. */
  lemma CloseFrees(db: Db, sid: Id, op: Op)
    requires !op.Extend? && ApplyOp(db, sid, op).Ok?
    ensures var after, c := ApplyOp(db, sid, op).value, db.sessions[sid].computerId;
            c in db.computers ==>
              c in after.computers
              && after.computers[c] == if !db.computers[c].deleted && db.computers[c].status == InUse
                                       then db.computers[c].(status := Available) else db.computers[c]
  {
    ReleaseFrame(db.computers, db.sessions[sid].computerId);
  }

  /** A cancelled session is charged nothing, paid nothing and owes nothing, prepaid or not; cancelling always works. */
  lemma CancelLeaves(db: Db, sid: Id, at: int)
    ensures ApplyOp(db, sid, Cancel(at)).Ok? <==> sid in db.sessions && db.sessions[sid].status.Active?
    ensures ApplyOp(db, sid, Cancel(at)).Ok? ==>
              var after := ApplyOp(db, sid, Cancel(at)).value;
              && after.sessions[sid] ==
                 db.sessions[sid].(status := Cancelled, endedAt := Some(at), amountDue := 0, amountPaid := 0)
              && after.ledger == db.ledger
  {
    assert db.ledger + [] == db.ledger;
  }

  /**
   An ended session: what its type and the clock charge, what was collected, in full unless the request says
   otherwise, and one debt of exactly the rest on its customer.
   */
  lemma EndLeaves(db: Db, sid: Id, at: int, amountPaid: Option<int>)
    requires AllPriced(db) && ValidOp(End(at, amountPaid)) && ApplyOp(db, sid, End(at, amountPaid)).Ok?
    ensures var after := ApplyOp(db, sid, End(at, amountPaid)).value;
            var s, t := db.sessions[sid], after.sessions[sid];
            && t == s.(status := Ended, endedAt := Some(at), amountDue := t.amountDue, amountPaid := t.amountPaid)
            && EndCharge(s, at, t.amountDue)
            && t.amountPaid == (if amountPaid.Some? then amountPaid.value else t.amountDue)
            && 0 <= t.amountPaid <= t.amountDue
            && (t.amountPaid == t.amountDue ==> after.ledger == db.ledger)
            && (t.amountPaid < t.amountDue ==>
                  s.customerId.Some?
                  && after.ledger ==
                     db.ledger + [Entry(s.customerId.value, DebtAdd, t.amountDue - t.amountPaid, Some(sid))])
  {
    var s := db.sessions[sid];
    EndSettles(s, sid, at, amountPaid);
    FinalizeSafe(s, at);
    assert db.ledger + [] == db.ledger;
  }

  /** Why ending an open or prepaid session is refused: too much collected, or too little and nobody to owe the rest. */
  lemma EndFails(db: Db, sid: Id, at: int, amountPaid: Option<int>)
    requires AllPriced(db) && sid in db.sessions && db.sessions[sid].status.Active? && Finalize(db.sessions[sid], at).Ok?
    requires amountPaid.Some? && 0 <= amountPaid.value <= MAX_SAFE_INTEGER
    ensures var r, due := ApplyOp(db, sid, End(at, amountPaid)), Finalize(db.sessions[sid], at).value;
            && (r == Err(Overpayment) <==> amountPaid.value > due)
            && (r == Err(DebtRequiresCustomer) <==> amountPaid.value < due && db.sessions[sid].customerId.None?)
            && (r.Ok? <==> amountPaid.value <= due && (amountPaid.value < due ==> db.sessions[sid].customerId.Some?))
  {
    FinalizeSafe(db.sessions[sid], at);
  }

  /** What is quoted at an instant is what ending at that instant charges. */
  lemma QuoteIsEndCharge(db: Db, sid: Id, at: int, amountPaid: Option<int>)
    requires ApplyOp(db, sid, End(at, amountPaid)).Ok?
    ensures QuoteOf(db, sid, at) == Ok(ApplyOp(db, sid, End(at, amountPaid)).value.sessions[sid].amountDue)
  {
    QuoteIsCharge(db.sessions[sid], at);
  }

  /** A quote is refused for an unknown session only, or when its charge cannot be made. */
  lemma QuoteFails(db: Db, sid: Id, at: int)
    ensures QuoteOf(db, sid, at) == Err(NotFound) <==> sid !in db.sessions
    ensures sid in db.sessions && !db.sessions[sid].status.Active? ==> QuoteOf(db, sid, at) == Ok(db.sessions[sid].amountDue)
    ensures sid in db.sessions && db.sessions[sid].status.Active? ==>
              (QuoteOf(db, sid, at).Ok? <==> Finalize(db.sessions[sid], at).Ok?)
  {
    if sid in db.sessions {
      QuoteIsCharge(db.sessions[sid], at);
    }
  }

  // ----- A freed computer can be started again -----

  lemma ActiveIsInUse(db: Db, sid: Id)
    requires StatusMatches(db) && sid in db.sessions && db.sessions[sid].status.Active?
    ensures var c := db.sessions[sid].computerId;
            c in db.computers && !db.computers[c].deleted && db.computers[c].status == InUse
  {
    assert ActiveOn(db, db.sessions[sid].computerId);
  }

  /**
   After an end or a cancel an active computer in an open room passes for every request whose plan can be made
   at the room's price.
   */
  lemma FreedCanStart(db: Db, sid: Id, op: Op, req: StartRequest, startedAt: int)
    requires StatusMatches(db) && ActiveUnique(db) && !op.Extend? && ApplyOp(db, sid, op).Ok?
    requires var c := db.sessions[sid].computerId;
             c in db.computers && db.computers[c].isActive && RoomOpen(db, db.computers[c].roomId)
             && PlanFor(req.kind, db.rooms[db.computers[c].roomId].pricePerHour, startedAt, req.minutes, req.end).Ok?
    ensures Passes(ApplyOp(db, sid, op).value, req, startedAt, db.sessions[sid].computerId)
  {
    var after, c := ApplyOp(db, sid, op).value, db.sessions[sid].computerId;
    ActiveIsInUse(db, sid);
    CloseFrees(db, sid, op);
    OpTouches(db, sid, op);
    ClosedRow(db, sid, op);
    forall k | k in after.sessions && after.sessions[k].computerId == c ensures !after.sessions[k].status.Active? {
      if k != sid {
        assert !OnSameComputer(db.sessions[k], db.sessions[sid]);
      }
    }
  }

  lemma ClosedRow(db: Db, sid: Id, op: Op)
    requires !op.Extend? && ApplyOp(db, sid, op).Ok?
    ensures !ApplyOp(db, sid, op).value.sessions[sid].status.Active?
  {}

  /** So the next customer can be started on it. */
  lemma RestartSucceeds(db: Db, sid: Id, op: Op, req: StartRequest, groupId: Id, startedAt: int, newId: map<Id, Id>)
    requires StatusMatches(db) && ActiveUnique(db) && !op.Extend? && ApplyOp(db, sid, op).Ok?
    requires var c := db.sessions[sid].computerId;
             && c in db.computers && db.computers[c].isActive && RoomOpen(db, db.computers[c].roomId)
             && PlanFor(req.kind, db.rooms[db.computers[c].roomId].pricePerHour, startedAt, req.minutes, req.end).Ok?
             && req.computerIds == [c] && c in newId
    requires FreshIds(ApplyOp(db, sid, op).value, newId) && CustomerPasses(db, req.customerId)
    ensures StartAll(ApplyOp(db, sid, op).value, req, groupId, startedAt, newId).Ok?
  {
    FreedCanStart(db, sid, op, req, startedAt);
    OpTouches(db, sid, op);
    StartSucceedsIff(ApplyOp(db, sid, op).value, req, groupId, startedAt, newId);
  }

  // ----- Starts -----

  /** Why a computer is refused, in the order of the checks. */
  lemma AdmitFails(db: Db, req: StartRequest, groupId: Option<Id>, startedAt: int, c: Id)
    ensures var r := Admit(db, req, groupId, startedAt, c);
            var there := c in db.computers && !db.computers[c].deleted;
            var free := there && db.computers[c].isActive && db.computers[c].status == Available;
            && (r == Err(NotFound) <==> !there)
            && (r == Err(ComputerNotAvailable) <==> there && !free)
            && (r == Err(RoomInactive) <==> free && !RoomOpen(db, db.computers[c].roomId))
            && (r.Err? && r.error.Price? <==> free && RoomOpen(db, db.computers[c].roomId) && !Fits(db, req, startedAt, c))
            && (r.Ok? <==> Fits(db, req, startedAt, c))
  {}

  /** Why a customer is refused. */
  lemma CustomerFails(db: Db, u: Id)
    ensures ResolveCustomer(db, Some(u)) == Err(NotFound) <==> !(u in db.customers && !db.customers[u].deleted)
    ensures ResolveCustomer(db, Some(u)) == Err(CustomerBlocked) <==>
            u in db.customers && !db.customers[u].deleted && db.customers[u].isBlocked
  {}

  /** Several computers share the new group id, and a single one has none. */
  lemma GroupIdentity(db: Db, req: StartRequest, groupId: Id, startedAt: int, newId: map<Id, Id>, c: Id)
    requires FreshIds(db, newId) && (forall d :: d in req.computerIds ==> d in newId) && c in req.computerIds
    requires StartAll(db, req, groupId, startedAt, newId).Ok?
    ensures var after := StartAll(db, req, groupId, startedAt, newId).value;
            newId[c] in after.sessions
            && after.sessions[newId[c]].groupId == if |req.computerIds| == 1 then None else Some(groupId)
  {
    var x := Start(req, GroupId(req, groupId), startedAt, newId);
    StartLeaves(db, req, groupId, startedAt, newId);
    assert SessionsStarted(db, x, StartAll(db, req, groupId, startedAt, newId).value);
    GroupShares(db, x, StartAll(db, req, groupId, startedAt, newId).value, c);
  }

  // ----- Payments and corrections -----

  /** One ledger entry of this kind and amount on the customer, and nothing else. */
  ghost predicate Books(db: Db, after: Db, u: Id, kind: EntryKind, amount: int) {
    && after == db.(ledger := after.ledger) && |after.ledger| == |db.ledger| + 1 && db.ledger <= after.ledger
    && (forall v: Id :: Balance(after.ledger, v) == Balance(db.ledger, v) + if v == u then amount else 0)
    && (forall k: EntryKind, v: Id ::
          LedgerSum(after.ledger, KindOf(Some(v), k)) ==
          LedgerSum(db.ledger, KindOf(Some(v), k)) + if v == u && k == kind then amount else 0)
  }

  lemma AppendBooks(db: Db, e: Entry)
    ensures Books(db, db.(ledger := db.ledger + [e]), e.customerId, e.kind, e.signedAmount)
  {
    var ledger := db.ledger + [e];
    forall v: Id ensures Balance(ledger, v) == Balance(db.ledger, v) + if v == e.customerId then e.signedAmount else 0 {
      AppendSum(db.ledger, e, Of(v));
    }
    forall k: EntryKind, v: Id
      ensures LedgerSum(ledger, KindOf(Some(v), k)) ==
              LedgerSum(db.ledger, KindOf(Some(v), k)) + if v == e.customerId && k == e.kind then e.signedAmount else 0
    {
      AppendSum(db.ledger, e, KindOf(Some(v), k));
    }
  }

  /** A payment books its amount as a payment, lowering that customer's balance and no other. */
  lemma PayLeaves(db: Db, u: Id, amount: int)
    requires Pay(db, u, amount).Ok?
    ensures Books(db, Pay(db, u, amount).value, u, DebtPayment, -amount)
  {
    AppendBooks(db, Entry(u, DebtPayment, -amount, None));
  }

  /** Why a payment is refused. */
  lemma PayFails(db: Db, u: Id, amount: int)
    requires Safe(amount)
    ensures var r, known := Pay(db, u, amount), u in db.customers && !db.customers[u].deleted;
            && (r == Err(InvalidAmount) <==> amount <= 0)
            && (r == Err(CustomerNotFound) <==> amount > 0 && !known)
            && (r == Err(Overpayment) <==>
                  amount > 0 && known && Safe(Balance(db.ledger, u)) && amount > Balance(db.ledger, u))
  {}

  /** A correction is taken for every customer on record, any safe amount but zero, and books it with its sign. */
  lemma CorrectLeaves(db: Db, u: Id, amount: int)
    ensures Correct(db, u, amount).Ok? <==> u in db.customers && amount != 0 && Safe(amount)
    ensures Correct(db, u, amount).Ok? ==> Books(db, Correct(db, u, amount).value, u, DebtCorrection, amount)
  {
    AppendBooks(db, Entry(u, DebtCorrection, amount, None));
  }
}
