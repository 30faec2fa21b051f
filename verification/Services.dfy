/**
 The session, debt and computer services as they run: methods that change the tables in place, roll
 back when they fail, and publish events after they commit. Each is proved to do what the table
 functions of module Club say.
 */
module Services {
  import opened Wrappers
  import opened Money
  import opened Pricing
  import opened Club
  import opened ClubLaws
  import opened GroupStart
  import opened Outcomes

  datatype DomainEvent =
    | SessionStarted(sid: Id)
    | SessionExtended(sid: Id)
    | SessionEnded(sid: Id)
    | DebtCreated(u: Id, balance: int)
    | DebtUpdated(u: Id, balance: int)
    | ComputerUpdated(c: Id)

  /** One event per started session, in request order. */
  function StartEvents(ids: seq<Id>, newId: map<Id, Id>): (es: seq<DomainEvent>)
    requires forall c :: c in ids ==> c in newId
    ensures |es| == |ids|
  {
    seq(|ids|, i requires 0 <= i < |ids| => SessionStarted(newId[ids[i]]))
  }

  lemma EventsOfStarted(db: Db, x: GroupStart.Start, after: Db)
    requires (forall c :: c in x.req.computerIds ==> c in x.newId) && FreshIds(db, x.newId) && Started(db, x, after)
    ensures var es := StartEvents(x.req.computerIds, x.newId);
            && (forall sid :: SessionStarted(sid) in es <==> sid in after.sessions && sid !in db.sessions)
            && (forall i :: 0 <= i < |es| ==>
                  && es[i].SessionStarted? && es[i].sid in after.sessions
                  && after.sessions[es[i].sid].computerId == x.req.computerIds[i])
  {
    var ids, es := x.req.computerIds, StartEvents(x.req.computerIds, x.newId);
    assert SessionsStarted(db, x, after);
    forall i | 0 <= i < |es| ensures es[i].sid in after.sessions && after.sessions[es[i].sid].computerId == ids[i] {
      GroupShares(db, x, after, ids[i]);
    }
    forall sid | sid in after.sessions && sid !in db.sessions ensures SessionStarted(sid) in es {
      var c :| c in ids && x.newId[c] == sid;
      var i :| 0 <= i < |ids| && ids[i] == c;
      assert es[i] == SessionStarted(sid);
    }
  }

  /** Each new session of a start is announced once, in request order, and nothing else is. */
  lemma StartEventsAre(db: Db, req: StartRequest, groupId: Id, startedAt: int, newId: map<Id, Id>)
    requires FreshIds(db, newId) && forall c :: c in req.computerIds ==> c in newId
    requires StartAll(db, req, groupId, startedAt, newId).Ok?
    ensures var after, es := StartAll(db, req, groupId, startedAt, newId).value, StartEvents(req.computerIds, newId);
            && |es| == |req.computerIds|
            && (forall i, j :: 0 <= i < j < |es| ==> es[i] != es[j])
            && (forall sid :: SessionStarted(sid) in es <==> sid in after.sessions && sid !in db.sessions)
            && (forall i :: 0 <= i < |es| ==>
                  && es[i].SessionStarted? && es[i].sid in after.sessions
                  && after.sessions[es[i].sid].computerId == req.computerIds[i])
  {
    StartSucceedsIff(db, req, groupId, startedAt, newId);
    StartLeaves(db, req, groupId, startedAt, newId);
    EventsOfStarted(db, GroupStart.Start(req, GroupId(req, groupId), startedAt, newId),
                    StartAll(db, req, groupId, startedAt, newId).value);
  }

  /** emitAfterChange: the event carries the balance read back; if that sum is unsafe, nothing is published. */
  function Announced(ledger: seq<Entry>, u: Id, created: bool): seq<DomainEvent> {
    var balance := Balance(ledger, u);
    if !Safe(balance) then [] else if created then [DebtCreated(u, balance)] else [DebtUpdated(u, balance)]
  }

  /** The debt entry an operation added at the end of the ledger, if any. */
  function NewDebt(before: Db, after: Db): seq<Entry> {
    if |before.ledger| <= |after.ledger| then after.ledger[|before.ledger|..] else []
  }

  /**
   What an end announces: the end itself, and for the part left unpaid a debt with the customer's new balance,
   unless that balance cannot be read.
   */
  lemma EndEventsAre(db: Db, sid: Id, at: int, amountPaid: Option<int>)
    requires AllPriced(db) && ValidOp(End(at, amountPaid)) && ApplyOp(db, sid, End(at, amountPaid)).Ok?
    ensures var after := ApplyOp(db, sid, End(at, amountPaid)).value;
            var t := after.sessions[sid];
            OpEvents(db, after, sid, End(at, amountPaid)) ==
            [SessionEnded(sid)]
            + if t.amountPaid < t.amountDue && Safe(Balance(db.ledger, t.customerId.value) + t.amountDue - t.amountPaid)
              then [DebtCreated(t.customerId.value, Balance(db.ledger, t.customerId.value) + t.amountDue - t.amountPaid)]
              else []
  {
    EndLeaves(db, sid, at, amountPaid);
    var after := ApplyOp(db, sid, End(at, amountPaid)).value;
    var t := after.sessions[sid];
    if t.amountPaid < t.amountDue {
      var e := Entry(t.customerId.value, DebtAdd, t.amountDue - t.amountPaid, Some(sid));
      AppendSum(db.ledger, e, Of(e.customerId));
      assert NewDebt(db, after) == [e];
    }
  }

  /** A correction announces the customer's new balance, if it can be read. */
  lemma CorrectionEventsAre(db: Db, u: Id, amount: int)
    requires Correct(db, u, amount).Ok?
    ensures Announced(Correct(db, u, amount).value.ledger, u, false) ==
            if Safe(Balance(db.ledger, u) + amount) then [DebtUpdated(u, Balance(db.ledger, u) + amount)] else []
  {
    AppendSum(db.ledger, Entry(u, DebtCorrection, amount, None), Of(u));
  }

  /** The balance of the customer who owes a new debt, if there is one, can be read. */
  predicate DebtReadable(before: Db, after: Db) {
    var debt := NewDebt(before, after);
    debt == [] || Safe(Balance(after.ledger, debt[0].customerId))
  }

  /** What a successful extend, end or cancel publishes; the debt of an ended session is announced after its end. */
  function OpEvents(before: Db, after: Db, sid: Id, op: Op): seq<DomainEvent> {
    match op
    case Extend(_) => [SessionExtended(sid)]
    case Cancel(_) => [SessionEnded(sid)]
    case End(_, _) =>
      var debt := NewDebt(before, after);
      [SessionEnded(sid)] + (if debt == [] then [] else Announced(after.ledger, debt[0].customerId, true))
  }

  /** Writing a staged session over the merged tables is merging the longer staging. */
  lemma MergeStaged(before: Db, st: Staging, sid: Id, s: Session)
    requires s.computerId in Merge(before, st).computers
    ensures var now := Merge(before, st);
            Merge(before, StageSession(before, st, sid, s)) ==
            now.(sessions := now.sessions[sid := s],
                 computers := now.computers[s.computerId := now.computers[s.computerId].(status := InUse)])
  {
    var next := StageSession(before, st, sid, s);
    assert before.sessions + next.sessions == (before.sessions + st.sessions)[sid := s];
  }

  class ClubStore {
    var computers: map<Id, Computer>
    var rooms: map<Id, Room>
    var customers: map<Id, Customer>
    var sessions: map<Id, Session>
    var ledger: seq<Entry>
    var published: seq<DomainEvent>

    constructor (computers: map<Id, Computer>, rooms: map<Id, Room>, customers: map<Id, Customer>)
      requires forall c :: c in computers ==> computers[c].status != InUse
      ensures Valid() && Tables() == Db(computers, rooms, customers, map[], []) && published == []
    {
      this.computers, this.rooms, this.customers := computers, rooms, customers;
      sessions, ledger, published := map[], [], [];
      EmptyKeepsLaws(Db(computers, rooms, customers, map[], []));
    }

    function Tables(): Db
      reads this
    {
      Db(computers, rooms, customers, sessions, ledger)
    }

    /** The laws of the tables: every call relies on them and keeps them. */
    ghost predicate Valid()
      reads this
    {
      Laws(Tables())
    }

    /**
     Sessions are started one computer at a time; the first failure undoes the ones before it. A success
     returns the new rows in request order.
     */
    method Start(req: StartRequest, groupId: Id, startedAt: int, newId: map<Id, Id>)
      returns (r: Result<seq<Session>, ServiceError>)
      requires Valid() && FreshIds(Tables(), newId) && forall c :: c in req.computerIds ==> c in newId
      modifies this
      ensures Valid() && Advances(old(Tables()), Tables())
      ensures match StartAll(old(Tables()), req, groupId, startedAt, newId)
              case Ok(after) =>
                && Tables() == after && r.Ok? && |r.value| == |req.computerIds|
                && (forall i :: 0 <= i < |r.value| ==>
                      newId[req.computerIds[i]] in sessions && r.value[i] == sessions[newId[req.computerIds[i]]])
                && published == old(published) + StartEvents(req.computerIds, newId)
              case Err(e) => r == Err(e) && Tables() == old(Tables()) && published == old(published)
    {
      var customer := FindCustomer(req.customerId);
      if customer.Err? {
        return Err(customer.error);
      }
      ghost var before := Tables();
      ghost var x := GroupStart.Start(req, GroupId(req, groupId), startedAt, newId);
      var savedComputers, savedSessions := computers, sessions;
      r := StartEach(req, GroupId(req, groupId), startedAt, newId);
      if r.Err? {
        computers, sessions := savedComputers, savedSessions;
        return;
      }
      StartLeaves(before, req, groupId, startedAt, newId);
      ReturnedRows(before, x, r.value, Tables());
      published := published + StartEvents(req.computerIds, newId);
    }

    /** The loop of the transaction; what it leaves when it fails is for the caller to roll back. */
    method StartEach(req: StartRequest, groupId: Option<Id>, startedAt: int, newId: map<Id, Id>)
      returns (r: Result<seq<Session>, ServiceError>)
      requires FreshIds(Tables(), newId) && forall c :: c in req.computerIds ==> c in newId
      modifies this`computers, this`sessions
      ensures match StageAll(old(Tables()), req, groupId, startedAt, NOTHING, req.computerIds, newId)
              case Ok(st) =>
                && r.Ok? && Tables() == Merge(old(Tables()), st)
                && Returned(old(Tables()), GroupStart.Start(req, groupId, startedAt, newId), r.value, |req.computerIds|)
              case Err(e) => r == Err(e)
    {
      ghost var before, st := Tables(), NOTHING;
      ghost var x := GroupStart.Start(req, groupId, startedAt, newId);
      ghost var whole := StagedFrom(before, x, NOTHING, req.computerIds);
      var results: seq<Session> := [];
      NothingStaged(before);
      for i := 0 to |req.computerIds|
        invariant Tables() == Merge(before, st) && Underway(before, x, st) && Returned(before, x, results, i)
        invariant StagedFrom(before, x, st, req.computerIds[i..]) == whole
      {
        var c := req.computerIds[i];
        PassOf(before, x, st, i);
        var started := StartOne(req, groupId, startedAt, c, newId[c], before, st, newId);
        if started.Err? {
          return Err(started.error);
        }
        results := results + [started.value];
        st := StageOne(before, req, groupId, startedAt, st, c, newId).value;
      }
      return Ok(results);
    }

    /** resolveCustomer: the customer exists and is not blocked, or every start for them fails with this error. */
    method FindCustomer(customerId: Option<Id>) returns (r: Result<Option<Id>, ServiceError>)
      ensures r == ResolveCustomer(Tables(), customerId)
      ensures r.Ok? <==> CustomerPasses(Tables(), customerId)
      ensures r.Ok? ==> r.value == customerId
      ensures r.Err? ==> forall req: StartRequest, groupId: Id, startedAt: int, newId: map<Id, Id> ::
                           req.customerId == customerId && (forall c :: c in req.computerIds ==> c in newId)
                           ==> StartAll(Tables(), req, groupId, startedAt, newId) == Err(r.error)
    {
      if customerId.None? {
        return Ok(None);
      }
      var u := customerId.value;
      if u !in customers || customers[u].deleted {
        return Err(NotFound);
      }
      if customers[u].isBlocked {
        return Err(CustomerBlocked);
      }
      return Ok(Some(u));
    }

    /** The body of the loop, on top of what `st` records as written so far. */
    method StartOne(req: StartRequest, groupId: Option<Id>, startedAt: int, c: Id, sid: Id,
                    ghost before: Db, ghost st: Staging, ghost newId: map<Id, Id>)
      returns (r: Result<Session, ServiceError>)
      requires Tables() == Merge(before, st) && c in newId && newId[c] == sid
      modifies this`computers, this`sessions
      ensures match StageOne(before, req, groupId, startedAt, st, c, newId)
              case Ok(next) => Tables() == Merge(before, next) && r == Admit(old(Tables()), req, groupId, startedAt, c)
              case Err(e) => r == Err(e)
    {
      var admitted := PrepareSession(req, groupId, startedAt, c);
      if admitted.Err? {
        return admitted;
      }
      if ActiveOn(Tables(), c) {
        return Err(ActiveIndexViolation);
      }
      MergeStaged(before, st, sid, admitted.value);
      sessions := sessions[sid := admitted.value];
      computers := computers[c := computers[c].(status := InUse)];
      return admitted;
    }

    /**
     The checks of the loop body in their order, and the session created when they pass: correctly priced at
     what the computer's room charges.
     */
    method PrepareSession(req: StartRequest, groupId: Option<Id>, startedAt: int, c: Id)
      returns (r: Result<Session, ServiceError>)
      ensures r == Admit(Tables(), req, groupId, startedAt, c)
      ensures r.Ok? <==> Fits(Tables(), req, startedAt, c)
      ensures r.Ok? ==>
                && Priced(r.value) && r.value.status.Active? && r.value.computerId == c
                && r.value.roomId == computers[c].roomId && r.value.ratePerHour == rooms[r.value.roomId].pricePerHour
                && r.value.customerId == req.customerId && r.value.groupId == groupId && r.value.startedAt == startedAt
    {
      if c !in computers || computers[c].deleted {
        return Err(NotFound);
      }
      var computer := computers[c];
      if !computer.isActive || computer.status != Available {
        return Err(ComputerNotAvailable);
      }
      if computer.roomId !in rooms || rooms[computer.roomId].deleted || !rooms[computer.roomId].isActive {
        return Err(RoomInactive);
      }
      var room := rooms[computer.roomId];
      var plan := PlanFor(req.kind, room.pricePerHour, startedAt, req.minutes, req.end);
      if plan.Err? {
        return Err(Price(plan.error));
      }
      var session := Session(groupId, c, computer.roomId, req.customerId, req.kind, Active, room.pricePerHour, startedAt,
                             plan.value.plannedEndAt, None, plan.value.plannedAmount, 0);
      PlanPriced(session, req.minutes, req.end);
      return Ok(session);
    }

    /** lockActive: an open, correctly priced session, or the error every operation on this id fails with. */
    method LockActive(sid: Id) returns (r: Result<Session, ServiceError>)
      requires Valid()
      ensures r.Ok? ==> sid in sessions && r.value == sessions[sid] && r.value.status.Active? && Priced(r.value)
      ensures r.Err? ==> forall op :: ApplyOp(Tables(), sid, op) == Err(r.error)
      ensures sid in sessions && sessions[sid].status.Active? ==> r.Ok?
    {
      if sid !in sessions {
        return Err(NotFound);
      }
      if !sessions[sid].status.Active? {
        return Err(SessionNotActive);
      }
      return Ok(sessions[sid]);
    }

    /** releaseComputer. */
    method ReleaseComputer(c: Id)
      modifies this`computers
      ensures computers == old(computers) + Release(old(computers), c)
      ensures computers.Keys == old(computers).Keys
      ensures forall d :: d in computers ==>
                computers[d] == if d == c && !old(computers)[d].deleted && old(computers)[d].status == InUse
                                then old(computers)[d].(status := Available) else old(computers)[d]
    {
      if c in computers && !computers[c].deleted && computers[c].status == InUse {
        computers := computers[c := computers[c].(status := Available)];
      }
    }

    /** Saving the session an operation closes, its debt entry if any, and releasing its computer. */
    method Close(sid: Id, session: Session, debts: seq<Entry>, ghost op: Op)
      requires Valid() && ValidOp(op) && sid in sessions && sessions[sid].status.Active?
      requires Changed(op, sid, sessions[sid]) == Ok(Change(session, debts, true))
      modifies this`sessions, this`ledger, this`computers
      ensures Valid() && Advances(old(Tables()), Tables()) && ApplyOp(old(Tables()), sid, op) == Ok(Tables())
      ensures sessions == old(sessions)[sid := session] && NewDebt(old(Tables()), Tables()) == debts
    {
      ghost var after := ClosedTables(Tables(), sid, session, debts, op);
      sessions := sessions[sid := session];
      ledger := ledger + debts;
      ReleaseComputer(session.computerId);
      assert Tables() == after;
    }

    method ExtendSession(sid: Id, extension: Extension) returns (r: Result<Session, ServiceError>)
      requires Valid()
      modifies this
      ensures Valid() && Advances(old(Tables()), Tables())
      ensures match ApplyOp(old(Tables()), sid, Extend(extension))
              case Ok(after) => Tables() == after && r == Ok(sessions[sid])
                                && published == old(published) + [SessionExtended(sid)]
              case Err(e) => r == Err(e) && Tables() == old(Tables()) && published == old(published)
    {
      var locked := LockActive(sid);
      if locked.Err? {
        return locked;
      }
      var session := locked.value;
      var plan := ExtendPlan(session, extension);
      if plan.Err? {
        return Err(Price(plan.error));
      }
      ghost var before := Tables();
      session := session.(plannedEndAt := plan.value.plannedEndAt);
      session := session.(amountDue := plan.value.plannedAmount);
      sessions := sessions[sid := session];
      published := published + [SessionExtended(sid)];
      ExtendedTables(before, sid, extension);
      ApplyOpKeepsLaws(before, sid, Extend(extension));
      return Ok(session);
    }

    /** The unpaid part of the charge goes to the ledger in the same transaction; events follow the commit. */
    method EndSession(sid: Id, at: int, amountPaid: Option<int>) returns (r: Result<Session, ServiceError>)
      requires Valid() && ValidOp(End(at, amountPaid))
      modifies this
      ensures Valid() && Advances(old(Tables()), Tables())
      ensures match ApplyOp(old(Tables()), sid, End(at, amountPaid))
              case Ok(after) =>
                && Tables() == after
                && published == old(published) + OpEvents(old(Tables()), after, sid, End(at, amountPaid))
                && r == if DebtReadable(old(Tables()), after) then Ok(sessions[sid]) else Err(Amount(UnsafeInteger))
              case Err(e) => r == Err(e) && Tables() == old(Tables()) && published == old(published)
    {
      var ended := EndTransaction(sid, at, amountPaid);
      if ended.Err? {
        return Err(ended.error);
      }
      ghost var after := Tables();
      var announced := AnnounceEnd(sid, ended.value.entries, old(Tables()), End(at, amountPaid));
      assert Tables() == after;
      return if announced then Ok(ended.value.session) else Err(Amount(UnsafeInteger));
    }

    /** The transaction of end: what it returns is the row it has written and the debt it has added. */
    method EndTransaction(sid: Id, at: int, amountPaid: Option<int>) returns (r: Result<Change, ServiceError>)
      requires Valid() && ValidOp(End(at, amountPaid))
      modifies this`sessions, this`ledger, this`computers
      ensures Valid() && Advances(old(Tables()), Tables())
      ensures match ApplyOp(old(Tables()), sid, End(at, amountPaid))
              case Ok(after) =>
                && Tables() == after && r.Ok? && sid in sessions
                && r.value.session == sessions[sid] && r.value.entries == NewDebt(old(Tables()), after)
              case Err(e) => r == Err(e) && Tables() == old(Tables())
    {
      var locked := LockActive(sid);
      if locked.Err? {
        return Err(locked.error);
      }
      r := Settle(locked.value, sid, at, amountPaid);
      if r.Ok? {
        Close(sid, r.value.session, r.value.entries, End(at, amountPaid));
      }
    }

    /** The events of an end: the end itself, then announceDebtChange when a debt was added, which may fail. */
    method AnnounceEnd(sid: Id, debts: seq<Entry>, ghost before: Db, ghost op: Op) returns (ok: bool)
      requires op.End? && debts == NewDebt(before, Tables())
      modifies this`published
      ensures published == old(published) + OpEvents(before, Tables(), sid, op)
      ensures ok <==> DebtReadable(before, Tables())
    {
      published := published + [SessionEnded(sid)];
      if debts == [] {
        return true;
      }
      published := published + Announced(ledger, debts[0].customerId, true);
      return Safe(Balance(ledger, debts[0].customerId));
    }

    /** The charge, the payment and the shortfall of ending a session, with the checks between them. */
    method Settle(s: Session, sid: Id, at: int, amountPaid: Option<int>) returns (r: Result<Change, ServiceError>)
      ensures r == Changed(End(at, amountPaid), sid, s)
      ensures r.Ok? ==> r.value.frees
      ensures r.Ok? && s.status.Active? && Priced(s) ==> EndCharge(s, at, r.value.session.amountDue)
    {
      var due := Finalize(s, at);
      if s.status.Active? && Priced(s) && due.Ok? {
        FinalizeCharges(s, at);
      }
      if due.Err? {
        return Err(Price(due.error));
      }
      var paid := due.value;
      if amountPaid.Some? {
        var collected := Minor(amountPaid.value);
        if collected.Err? {
          return Err(Amount(collected.error));
        }
        paid := collected.value;
      }
      if paid > due.value {
        return Err(Overpayment);
      }
      var shortfall := Minor(due.value - paid);
      if shortfall.Err? {
        return Err(Amount(shortfall.error));
      }
      if shortfall.value > 0 && s.customerId.None? {
        return Err(DebtRequiresCustomer);
      }
      var session := s.(status := Ended, endedAt := Some(at));
      session := session.(amountDue := due.value, amountPaid := paid);
      var debts: seq<Entry> := [];
      if shortfall.value > 0 {
        debts := [Entry(s.customerId.value, DebtAdd, shortfall.value, Some(sid))];
      }
      return Ok(Change(session, debts, true));
    }

    method CancelSession(sid: Id, at: int) returns (r: Result<Session, ServiceError>)
      requires Valid()
      modifies this
      ensures Valid() && Advances(old(Tables()), Tables())
      ensures match ApplyOp(old(Tables()), sid, Cancel(at))
              case Ok(after) => Tables() == after && r == Ok(sessions[sid])
                                && published == old(published) + [SessionEnded(sid)]
              case Err(e) => r == Err(e) && Tables() == old(Tables()) && published == old(published)
    {
      var locked := LockActive(sid);
      if locked.Err? {
        return locked;
      }
      var session := locked.value;
      session := session.(status := Cancelled, endedAt := Some(at));
      session := session.(amountDue := 0, amountPaid := 0);
      Close(sid, session, [], Cancel(at));
      published := published + [SessionEnded(sid)];
      return Ok(session);
    }

    /**
     The running cost of an open session, which ending it now or later never undercuts, or the final charge of
     a closed one.
     */
    method QuoteSession(sid: Id, now: int) returns (r: Result<int, ServiceError>)
      requires Valid()
      ensures r == QuoteOf(Tables(), sid, now)
      ensures forall at: int, paid: Option<int> :: now <= at && ApplyOp(Tables(), sid, End(at, paid)).Ok? ==>
                r.Ok? && sid in sessions && r.value <= Finalize(sessions[sid], at).value
      ensures sid in sessions && !sessions[sid].status.Active? ==> r == Ok(sessions[sid].amountDue)
      ensures sid in sessions && sessions[sid].status.Active? && r.Ok? ==> EndCharge(sessions[sid], now, r.value)
      ensures forall paid: Option<int> :: ApplyOp(Tables(), sid, End(now, paid)).Ok? ==>
                sid in sessions && r == Ok(ApplyOp(Tables(), sid, End(now, paid)).value.sessions[sid].amountDue)
    {
      if sid !in sessions {
        return Err(NotFound);
      }
      if !sessions[sid].status.Active? {
        return Ok(sessions[sid].amountDue);
      }
      var amount := Quote(sessions[sid], now);
      QuoteIsCharge(sessions[sid], now);
      if amount.Ok? {
        FinalizeCharges(sessions[sid], now);
      }
      forall at: int, paid: Option<int> | now <= at && ApplyOp(Tables(), sid, End(at, paid)).Ok?
        ensures amount.Ok? && amount.value <= Finalize(sessions[sid], at).value
      {
        QuoteNeverExceeds(sessions[sid], now, [], at);
      }
      if amount.Err? {
        return Err(Price(amount.error));
      }
      return Ok(amount.value);
    }

    method RecordPayment(u: Id, amount: int) returns (r: Result<Entry, ServiceError>)
      requires Valid()
      modifies this
      ensures Valid() && Advances(old(Tables()), Tables())
      ensures r.Ok? ==> Balance(ledger, u) == Balance(old(ledger), u) - amount >= 0
      ensures match Pay(old(Tables()), u, amount)
              case Ok(after) => Tables() == after && r == Ok(ledger[|ledger| - 1])
                                && published == old(published) + [DebtUpdated(u, Balance(ledger, u))]
              case Err(e) => r == Err(e) && Tables() == old(Tables()) && published == old(published)
    {
      var magnitude := Minor(amount);
      if magnitude.Err? {
        return Err(Amount(magnitude.error));
      }
      if magnitude.value <= 0 {
        return Err(InvalidAmount);
      }
      if u !in customers || customers[u].deleted {
        return Err(CustomerNotFound);
      }
      var balance := Minor(Balance(ledger, u));
      if balance.Err? {
        return Err(Amount(balance.error));
      }
      if magnitude.value > balance.value {
        return Err(Overpayment);
      }
      PayKeepsLaws(Tables(), u, amount);
      var entry := Entry(u, DebtPayment, -magnitude.value, None);
      ledger := ledger + [entry];
      published := published + Announced(ledger, u, false);
      return Ok(entry);
    }

    /** A correction is stored before the balance is read back, so an unsafe balance fails the call but not the row. */
    method CorrectDebt(u: Id, amount: int) returns (r: Result<Entry, ServiceError>)
      requires Valid()
      modifies this
      ensures Valid() && Advances(old(Tables()), Tables())
      ensures match Correct(old(Tables()), u, amount)
              case Ok(after) => && Tables() == after && published == old(published) + Announced(ledger, u, false)
                                && r == if Safe(Balance(ledger, u)) then Ok(ledger[|ledger| - 1])
                                        else Err(Amount(UnsafeInteger))
              case Err(e) => r == Err(e) && Tables() == old(Tables()) && published == old(published)
    {
      var value := Minor(amount);
      if value.Err? {
        return Err(Amount(value.error));
      }
      if value.value == 0 {
        return Err(InvalidAmount);
      }
      if u !in customers {
        return Err(CustomerNotFound);
      }
      CorrectKeepsLaws(Tables(), u, amount);
      var entry := Entry(u, DebtCorrection, value.value, None);
      ledger := ledger + [entry];
      published := published + Announced(ledger, u, false);
      if !Safe(Balance(ledger, u)) {
        return Err(Amount(UnsafeInteger));
      }
      return Ok(entry);
    }

    /** ComputersService.update: the given fields are assigned over the loaded row, whatever its sessions. */
    method UpdateComputer(c: Id, roomId: Option<Id>, status: Option<ComputerStatus>, isActive: Option<bool>)
      returns (r: Result<Computer, ServiceError>)
      requires Valid()
      modifies this`computers, this`published
      ensures Valid() && Advances(old(Tables()), Tables())
      ensures r.Err? ==> computers == old(computers) && published == old(published)
      ensures r.Ok? ==> c in old(computers) && !old(computers)[c].deleted && computers == old(computers)[c := r.value]
                        && published == old(published) + [ComputerUpdated(c)]
      ensures r.Ok? ==> !r.value.deleted
                        && r.value.roomId == (if roomId.Some? then roomId.value else old(computers)[c].roomId)
                        && r.value.status == (if status.Some? then status.value else old(computers)[c].status)
                        && r.value.isActive == (if isActive.Some? then isActive.value else old(computers)[c].isActive)
      ensures r.Ok? <==> c in old(computers) && !old(computers)[c].deleted
                         && (roomId.Some? && roomId.value != old(computers)[c].roomId ==>
                               roomId.value in rooms && !rooms[roomId.value].deleted)
    {
      if c !in computers || computers[c].deleted {
        return Err(NotFound);
      }
      var computer := computers[c];
      if roomId.Some? && roomId.value != computer.roomId && (roomId.value !in rooms || rooms[roomId.value].deleted) {
        return Err(NotFound);
      }
      if roomId.Some? {
        computer := computer.(roomId := roomId.value);
      }
      if status.Some? {
        computer := computer.(status := status.value);
      }
      if isActive.Some? {
        computer := computer.(isActive := isActive.value);
      }
      EditKeepsLaws(Tables(), computers[c := computer], rooms, customers);
      computers := computers[c := computer];
      published := published + [ComputerUpdated(c)];
      return Ok(computer);
    }

    /** ComputersService.remove: a soft delete, whatever its sessions. */
    method RemoveComputer(c: Id) returns (r: Result<(), ServiceError>)
      requires Valid()
      modifies this`computers
      ensures Valid() && Advances(old(Tables()), Tables())
      ensures r.Ok? <==> c in old(computers) && !old(computers)[c].deleted
      ensures computers == if r.Ok? then old(computers)[c := old(computers)[c].(deleted := true)] else old(computers)
    {
      if c !in computers || computers[c].deleted {
        return Err(NotFound);
      }
      EditKeepsLaws(Tables(), computers[c := computers[c].(deleted := true)], rooms, customers);
      computers := computers[c := computers[c].(deleted := true)];
      return Ok(());
    }
  }

  // ----- Steps of the proofs -----

  /** The rows returned so far are those the first i computers get by themselves. */
  ghost predicate Returned(before: Db, x: GroupStart.Start, results: seq<Session>, i: nat) {
    && i <= |x.req.computerIds| && |results| == i
    && forall j :: 0 <= j < i ==> Judged(before, x, x.req.computerIds[j]) == Ok(results[j])
  }

  lemma ReturnedRows(before: Db, x: GroupStart.Start, results: seq<Session>, after: Db)
    requires Returned(before, x, results, |x.req.computerIds|) && forall c :: c in x.req.computerIds ==> c in x.newId
    requires Started(before, x, after)
    ensures forall i :: 0 <= i < |results| ==>
              x.newId[x.req.computerIds[i]] in after.sessions
              && results[i] == after.sessions[x.newId[x.req.computerIds[i]]]
  {
    forall i | 0 <= i < |results|
      ensures x.newId[x.req.computerIds[i]] in after.sessions
      ensures results[i] == after.sessions[x.newId[x.req.computerIds[i]]]
    {
      assert SessionsStarted(before, x, after) && Judged(before, x, x.req.computerIds[i]) == Ok(results[i]);
    }
  }

  /** One pass of the loop decides as the computer's own check does, and the rest of the loop goes on from there. */
  lemma PassOf(before: Db, x: GroupStart.Start, st: Staging, i: nat)
    requires Underway(before, x, st) && i < |x.req.computerIds| && forall c :: c in x.req.computerIds ==> c in x.newId
    ensures var c := x.req.computerIds[i];
            match StageOne(before, x.req, x.groupId, x.startedAt, st, c, x.newId)
            case Err(e) => StagedFrom(before, x, st, x.req.computerIds[i..]) == Err(e)
            case Ok(next) =>
              && StagedFrom(before, x, st, x.req.computerIds[i..]) == StagedFrom(before, x, next, x.req.computerIds[i + 1..])
              && Underway(before, x, next) && Judged(Merge(before, st), x, c) == Judged(before, x, c)
              && Judged(before, x, c).Ok?
  {
    var c := x.req.computerIds[i];
    assert x.req.computerIds[i..][0] == c && x.req.computerIds[i..][1..] == x.req.computerIds[i + 1..];
    StageOneIff(before, x, st, c);
    if c !in st.computers {
      OthersUnaffected(before, x.req, x.groupId, x.startedAt, st, c);
    }
  }

  /** What closing a session leaves is what the operation leaves, and it keeps the laws. */
  lemma ClosedTables(before: Db, sid: Id, session: Session, debts: seq<Entry>, op: Op) returns (after: Db)
    requires Laws(before) && ValidOp(op) && sid in before.sessions && before.sessions[sid].status.Active?
    requires Changed(op, sid, before.sessions[sid]) == Ok(Change(session, debts, true))
    ensures session.computerId == before.sessions[sid].computerId
    ensures after == before.(sessions := before.sessions[sid := session], ledger := before.ledger + debts,
                             computers := before.computers + Release(before.computers, session.computerId))
    ensures ApplyOp(before, sid, op) == Ok(after) && Laws(after) && Advances(before, after)
    ensures NewDebt(before, after) == debts
  {
    assert Priced(before.sessions[sid]);
    ChangedIs(op, sid, before.sessions[sid]);
    after := ClosedRow(before, sid, session, debts, op);
    ApplyOpKeepsLaws(before, sid, op);
  }

  lemma ClosedRow(before: Db, sid: Id, session: Session, debts: seq<Entry>, op: Op) returns (after: Db)
    requires sid in before.sessions && before.sessions[sid].status.Active?
    requires Changed(op, sid, before.sessions[sid]) == Ok(Change(session, debts, true))
    requires session.computerId == before.sessions[sid].computerId
    ensures after == before.(sessions := before.sessions[sid := session], ledger := before.ledger + debts,
                             computers := before.computers + Release(before.computers, session.computerId))
    ensures ApplyOp(before, sid, op) == Ok(after) && NewDebt(before, after) == debts
  {
    after := ApplyOp(before, sid, op).value;
    assert before.sessions + map[sid := session] == before.sessions[sid := session];
  }

  lemma ExtendedTables(before: Db, sid: Id, x: Extension)
    requires ApplyOp(before, sid, Extend(x)).Ok?
    ensures var s := before.sessions[sid];
            ApplyOp(before, sid, Extend(x)).value ==
            before.(sessions := before.sessions[sid := WithPlan(s, ExtendPlan(s, x).value)])
  {
    assert before.ledger + [] == before.ledger;
  }
}
