/** What the figures of a summary mean: how each call moves them, and how they add up. */
module Figures {
  import opened Wrappers
  import opened Binary64
  import opened Money
  import opened Pricing
  import opened Club
  import opened ClubLaws
  import opened GroupStart
  import opened Outcomes
  import opened Tables
  import opened Analytics

  /** The figures of the sessions that ended within the range. */
  function Figured(db: Db, r: Range): Analytics.Figures {
    FiguresOf(EndedIn(db.sessions, r), 0)
  }

  /** What was collected for them, before it becomes a double. */
  ghost function Takings(db: Db, r: Range): int {
    SumOver(Column(EndedIn(db.sessions, r), Paid))
  }

  /** A customer with a session that ended within the range. */
  ghost predicate Visited(db: Db, r: Range, u: Id) {
    exists sid :: sid in db.sessions && EndedWithin(db.sessions[sid], r) && db.sessions[sid].customerId == Some(u)
  }

  // ----- One row more -----

  lemma CustomerAdded(rows: map<Id, Session>, sid: Id, t: Session)
    requires sid !in rows
    ensures CustomersOf(rows[sid := t]) == CustomersOf(rows) + (if t.customerId.Some? then {t.customerId.value} else {})
  {
    var more := rows[sid := t];
    forall u | u in CustomersOf(rows) ensures u in CustomersOf(more) {
      var k :| k in rows && rows[k].customerId == Some(u);
      assert more[k] == rows[k];
    }
    if t.customerId.Some? {
      assert more[sid].customerId == t.customerId;
    }
  }

  lemma RangeGains(db: Db, after: Db, sid: Id, r: Range)
    requires sid in db.sessions && sid in after.sessions && !db.sessions[sid].status.Ended?
    requires after.sessions == db.sessions[sid := after.sessions[sid]]
    ensures EndedIn(after.sessions, r) ==
            if EndedWithin(after.sessions[sid], r) then EndedIn(db.sessions, r)[sid := after.sessions[sid]]
            else EndedIn(db.sessions, r)
    ensures sid !in EndedIn(db.sessions, r)
  {}

  lemma RevenueGains(rows: map<Id, Session>, sid: Id, t: Session)
    requires sid !in rows && Safe(SumOver(Column(rows, Paid))) && Safe(SumOver(Column(rows, Paid)) + t.amountPaid)
    ensures FiguresOf(rows[sid := t], 0).revenue == FiguresOf(rows, 0).revenue + t.amountPaid as real
  {
    ColumnGrows(rows, sid, t, Paid);
    IntegersExact(SumOver(Column(rows, Paid)));
    IntegersExact(SumOver(Column(rows, Paid)) + t.amountPaid);
  }

  lemma PlayGains(rows: map<Id, Session>, sid: Id, t: Session)
    requires sid !in rows && t.endedAt.Some?
    ensures Lasts(t.endedAt.value - t.startedAt, FiguresOf(rows[sid := t], 0).playSeconds - FiguresOf(rows, 0).playSeconds)
  {
    ColumnGrows(rows, sid, t, PlayMillis);
  }

  lemma CustomersGain(rows: map<Id, Session>, sid: Id, t: Session)
    requires sid !in rows
    ensures FiguresOf(rows[sid := t], 0).uniqueCustomers ==
            FiguresOf(rows, 0).uniqueCustomers
            + if t.customerId.Some? && t.customerId.value !in CustomersOf(rows) then 1 else 0
  {
    CustomerAdded(rows, sid, t);
    if t.customerId.Some? && t.customerId.value in CustomersOf(rows) {
      assert CustomersOf(rows[sid := t]) == CustomersOf(rows);
    }
  }

  /**
   The figures move by one session: so much collected, exactly if the totals are safe integers, a stay of so
   long, and one customer more if it is new.
   */
  ghost predicate Raises(was: Analytics.Figures, now: Analytics.Figures, collected: int, exact: bool, stay: int,
                         newcomer: bool) {
    && (exact ==> now.revenue == was.revenue + collected as real)
    && now.sessionsCount == was.sessionsCount + 1
    && Lasts(stay, now.playSeconds - was.playSeconds)
    && now.uniqueCustomers == was.uniqueCustomers + if newcomer then 1 else 0
  }

  /** How one more ended session moves the figures. */
  lemma FiguresGain(rows: map<Id, Session>, more: map<Id, Session>, sid: Id, t: Session, exact: bool, newcomer: bool)
    requires sid !in rows && more == rows[sid := t] && t.endedAt.Some?
    requires exact ==> Safe(SumOver(Column(rows, Paid))) && Safe(SumOver(Column(rows, Paid)) + t.amountPaid)
    requires newcomer <==> t.customerId.Some? && t.customerId.value !in CustomersOf(rows)
    ensures Raises(FiguresOf(rows, 0), FiguresOf(more, 0), t.amountPaid, exact, t.endedAt.value - t.startedAt, newcomer)
  {
    if exact {
      RevenueGains(rows, sid, t);
    }
    PlayGains(rows, sid, t);
    CustomersGain(rows, sid, t);
    CountGains(rows, sid, t);
  }

  lemma CountGains(rows: map<Id, Session>, sid: Id, t: Session)
    requires sid !in rows
    ensures FiguresOf(rows[sid := t], 0).sessionsCount == FiguresOf(rows, 0).sessionsCount + 1
  {
    assert rows[sid := t].Keys == rows.Keys + {sid};
    assert |rows[sid := t]| == |rows[sid := t].Keys| && |rows| == |rows.Keys|;
  }

  /** The seconds are the milliseconds to within one, and so exactly for whole seconds. */
  predicate Lasts(millis: int, seconds: int) {
    -1000 < millis - 1000 * seconds < 1000
  }

  lemma WholeSecondsLast(millis: int, seconds: int)
    requires Lasts(millis, seconds) && millis % 1000 == 0
    ensures millis == 1000 * seconds
  {}

  // ----- How calls move the figures -----

  /**
   An end within the range raises revenue by exactly what was collected, the count by one, play time by the
   stay, and the customers by its own if they had not been there.
   */
  lemma EndRaises(db: Db, sid: Id, at: int, amountPaid: Option<int>, r: Range)
    requires AllPriced(db) && ValidOp(End(at, amountPaid)) && ApplyOp(db, sid, End(at, amountPaid)).Ok?
    requires r.from <= at <= r.to
    ensures var after, s := ApplyOp(db, sid, End(at, amountPaid)).value, db.sessions[sid];
            var collected := if amountPaid.Some? then amountPaid.value else after.sessions[sid].amountDue;
            Raises(Figured(db, r), Figured(after, r), collected, Safe(Takings(db, r)) && Safe(Takings(db, r) + collected),
                   at - s.startedAt, s.customerId.Some? && !Visited(db, r, s.customerId.value))
  {
    var after, s := ApplyOp(db, sid, End(at, amountPaid)).value, db.sessions[sid];
    EndedWithinRange(db, sid, at, amountPaid, r);
    var t := after.sessions[sid];
    var collected := if amountPaid.Some? then amountPaid.value else t.amountDue;
    var exact := Safe(Takings(db, r)) && Safe(Takings(db, r) + collected);
    assert t.amountPaid == collected && t.endedAt.value - t.startedAt == at - s.startedAt;
    RangeRaises(db, after, sid, t, exact, s.customerId.Some? && !Visited(db, r, s.customerId.value), r);
  }

  lemma RangeRaises(db: Db, after: Db, sid: Id, t: Session, exact: bool, newcomer: bool, r: Range)
    requires sid !in EndedIn(db.sessions, r) && t.endedAt.Some?
    requires EndedIn(after.sessions, r) == EndedIn(db.sessions, r)[sid := t]
    requires exact ==> Safe(Takings(db, r)) && Safe(Takings(db, r) + t.amountPaid)
    requires newcomer <==> t.customerId.Some? && !Visited(db, r, t.customerId.value)
    ensures Raises(Figured(db, r), Figured(after, r), t.amountPaid, exact, t.endedAt.value - t.startedAt, newcomer)
  {
    var rows := EndedIn(db.sessions, r);
    assert newcomer <==> t.customerId.Some? && t.customerId.value !in CustomersOf(rows) by {
      if t.customerId.Some? {
        VisitedIs(db, r, t.customerId.value);
      }
    }
    FiguresGain(rows, EndedIn(after.sessions, r), sid, t, exact, newcomer);
  }

  lemma EndedWithinRange(db: Db, sid: Id, at: int, amountPaid: Option<int>, r: Range)
    requires AllPriced(db) && ValidOp(End(at, amountPaid)) && ApplyOp(db, sid, End(at, amountPaid)).Ok?
    requires r.from <= at <= r.to
    ensures var after, s := ApplyOp(db, sid, End(at, amountPaid)).value, db.sessions[sid];
            var t := after.sessions[sid];
            && sid !in EndedIn(db.sessions, r) && EndedIn(after.sessions, r) == EndedIn(db.sessions, r)[sid := t]
            && t.endedAt == Some(at) && t.startedAt == s.startedAt && t.customerId == s.customerId
            && t.amountPaid == if amountPaid.Some? then amountPaid.value else t.amountDue
  {
    EndLeaves(db, sid, at, amountPaid);
    OpTouches(db, sid, End(at, amountPaid));
    RangeGains(db, ApplyOp(db, sid, End(at, amountPaid)).value, sid, r);
  }

  lemma VisitedIs(db: Db, r: Range, u: Id)
    ensures Visited(db, r, u) <==> u in CustomersOf(EndedIn(db.sessions, r))
  {
    if sid :| sid in db.sessions && EndedWithin(db.sessions[sid], r) && db.sessions[sid].customerId == Some(u) {
      assert sid in EndedIn(db.sessions, r);
    }
  }

  /** An end outside the range and a cancel leave the figures of the range alone. */
  lemma CloseOutsideLeaves(db: Db, sid: Id, op: Op, r: Range)
    requires AllPriced(db) && ValidOp(op) && ApplyOp(db, sid, op).Ok? && !op.Extend?
    requires op.End? ==> !(r.from <= op.at <= r.to)
    ensures Figured(ApplyOp(db, sid, op).value, r) == Figured(db, r)
  {
    var after := ApplyOp(db, sid, op).value;
    OpTouches(db, sid, op);
    if op.End? {
      EndLeaves(db, sid, op.at, op.amountPaid);
    } else {
      CancelLeaves(db, sid, op.at);
    }
    RangeGains(db, after, sid, r);
  }

  /** So does every other call: starts, extensions, payments, corrections and edits. */
  lemma OthersLeave(db: Db, call: Call, r: Range)
    requires Drawable(db, call) && Perform(db, call).Ok? && (call.ChangeCall? ==> call.op.Extend?)
    ensures Figured(Perform(db, call).value, r) == Figured(db, r)
  {
    var after := Perform(db, call).value;
    match call
    case StartCall(req, groupId, startedAt, newId) =>
      StartKeepsFigures(db, req, groupId, startedAt, newId);
      SameEndedIn(db, after, r);
    case ChangeCall(sid, op) =>
      ExtendKeepsFigures(db, sid, op.extension);
      SameEndedIn(db, after, r);
    case _ => assert after.sessions == db.sessions;
  }

  // ----- What is owed -----

  /** Outstanding debt grows by what an end leaves unpaid. */
  lemma EndOwes(db: Db, sid: Id, at: int, amountPaid: Option<int>)
    requires AllPriced(db) && ValidOp(End(at, amountPaid)) && ApplyOp(db, sid, End(at, amountPaid)).Ok?
    ensures var after := ApplyOp(db, sid, End(at, amountPaid)).value;
            Outstanding(after.ledger) ==
            Outstanding(db.ledger) + after.sessions[sid].amountDue - after.sessions[sid].amountPaid
  {
    EndLeaves(db, sid, at, amountPaid);
    var after := ApplyOp(db, sid, End(at, amountPaid)).value;
    if after.ledger != db.ledger {
      AppendSum(db.ledger, after.ledger[|db.ledger|], EVERYTHING);
    }
  }

  /** It falls by a payment and moves with a correction. */
  lemma LedgerOwes(db: Db, u: Id, amount: int)
    ensures Pay(db, u, amount).Ok? ==> Outstanding(Pay(db, u, amount).value.ledger) == Outstanding(db.ledger) - amount
    ensures Correct(db, u, amount).Ok? ==>
              Outstanding(Correct(db, u, amount).value.ledger) == Outstanding(db.ledger) + amount
  {
    AppendSum(db.ledger, Entry(u, DebtPayment, -amount, None), EVERYTHING);
    AppendSum(db.ledger, Entry(u, DebtCorrection, amount, None), EVERYTHING);
  }

  // ----- Adding up -----

  /** Every session that has ended did so within the range. */
  ghost predicate Covers(db: Db, r: Range) {
    forall sid :: IsEnded(db, sid) ==> EndedWithin(db.sessions[sid], r)
  }

  /**
   Over a range that holds every ended session the summary balances: what was charged and corrected is what
   was taken at the desk and in payments and what is still owed.
   */
  lemma SummaryBalances(db: Db, r: Range)
    requires Conserved(db) && Covers(db, r) && Safe(Takings(db, r)) && Compute(db, r).Ok?
    ensures var f := Compute(db, r).value;
            (SumOver(Dues(db, None)) + LedgerSum(db.ledger, KindOf(None, DebtCorrection))) as real ==
            f.revenue - LedgerSum(db.ledger, KindOf(None, DebtPayment)) as real + f.outstandingDebt as real
  {
    assert ConservedFor(db, None);
    assert EndedIn(db.sessions, r) == Closed(db, None) by {
      forall sid: Id ensures sid in EndedIn(db.sessions, r) <==> sid in Closed(db, None) {
        assert IsEnded(db, sid) <==> sid in Closed(db, None);
      }
    }
    IntegersExact(Takings(db, r));
    assert AllOf(None) == EVERYTHING;
  }

  // ----- Sessions under way -----

  lemma ActiveLoses(before: map<Id, Session>, after: map<Id, Session>, sid: Id)
    requires sid in before && before[sid].status.Active? && after.Keys == before.Keys && !after[sid].status.Active?
    requires forall k :: k in before && k != sid ==> after[k] == before[k]
    ensures |ActiveIds(after)| == |ActiveIds(before)| - 1
  {
    assert ActiveIds(after) == ActiveIds(before) - {sid};
  }

  /** How many sessions a summary says are under way. */
  predicate SaysActive(db: Db, r: Range, n: int) {
    SummaryFor(db, r).Ok? ==> SummaryFor(db, r).value.activeSessions == n
  }

  /** Without sessions every figure is zero. */
  lemma NothingYet(db: Db, r: Range)
    requires db.sessions == map[]
    ensures Figured(db, r) == Analytics.Figures(0.0, 0, 0, 0, 0) && SaysActive(db, r, 0)
  {
    assert EndedIn(db.sessions, r) == map[] && CustomersOf(map[]) == {} && ActiveIds(db.sessions) == {};
    assert Column(map[], Paid) == map[] && Column(map[], PlayMillis) == map[];
  }

  /** A summary counts one session fewer under way after an end or a cancel. */
  lemma CloseLowersActive(db: Db, sid: Id, op: Op, r: Range)
    requires !op.Extend? && ApplyOp(db, sid, op).Ok?
    ensures SaysActive(db, r, |ActiveIds(db.sessions)|)
    ensures SaysActive(ApplyOp(db, sid, op).value, r, |ActiveIds(db.sessions)| - 1)
  {
    OpTouches(db, sid, op);
    ClosedRow(db, sid, op);
    ActiveLoses(db.sessions, ApplyOp(db, sid, op).value.sessions, sid);
  }

  lemma {:induction false} DrawnCount(ids: seq<Id>, newId: map<Id, Id>)
    requires Distinct(ids) && forall c :: c in ids ==> c in newId
    requires forall c, d :: c in newId && d in newId && newId[c] == newId[d] ==> c == d
    ensures |set c | c in ids :: newId[c]| == |ids|
    decreases |ids|
  {
    if ids != [] {
      var c, rest := ids[0], ids[1..];
      assert ids == [c] + rest;
      DistinctCons(c, rest);
      DrawnCount(rest, newId);
      ConsImage(newId, c, rest);
      assert newId[c] !in (set d | d in rest :: newId[d]);
    }
  }

  lemma ActiveGains(before: map<Id, Session>, after: map<Id, Session>, drawn: set<Id>)
    requires after.Keys == before.Keys + drawn && before.Keys !! drawn
    requires forall sid :: sid in before ==> after[sid] == before[sid]
    requires forall sid :: sid in drawn ==> after[sid].status.Active?
    ensures |ActiveIds(after)| == |ActiveIds(before)| + |drawn|
  {
    assert ActiveIds(after) == ActiveIds(before) + drawn;
  }

  lemma StartDraws(db: Db, x: Start, after: Db)
    requires FreshIds(db, x.newId) && (forall c :: c in x.req.computerIds ==> c in x.newId) && Started(db, x, after)
    ensures var drawn := set c | c in x.req.computerIds :: x.newId[c];
            && after.sessions.Keys == db.sessions.Keys + drawn && db.sessions.Keys !! drawn
            && (forall sid :: sid in db.sessions ==> after.sessions[sid] == db.sessions[sid])
            && forall sid :: sid in drawn ==> after.sessions[sid].status.Active?
  {
    assert SessionsStarted(db, x, after);
    var drawn := set c | c in x.req.computerIds :: x.newId[c];
    forall sid | sid in drawn ensures after.sessions[sid].status.Active? {
      var c :| c in x.req.computerIds && x.newId[c] == sid;
      GroupShares(db, x, after, c);
    }
  }

  lemma StartGains(db: Db, x: Start, after: Db)
    requires FreshIds(db, x.newId) && (forall c :: c in x.req.computerIds ==> c in x.newId)
    requires Distinct(x.req.computerIds) && Started(db, x, after)
    ensures |ActiveIds(after.sessions)| == |ActiveIds(db.sessions)| + |x.req.computerIds|
  {
    StartDraws(db, x, after);
    DrawnCount(x.req.computerIds, x.newId);
    ActiveGains(db.sessions, after.sessions, set c | c in x.req.computerIds :: x.newId[c]);
  }

  lemma SaysItsActive(db: Db, r: Range)
    ensures SaysActive(db, r, |ActiveIds(db.sessions)|)
  {}

  /** And one more for every computer of a start. */
  lemma StartRaisesActive(db: Db, req: StartRequest, groupId: Id, startedAt: int, newId: map<Id, Id>, r: Range)
    requires FreshIds(db, newId) && forall c :: c in req.computerIds ==> c in newId
    requires StartAll(db, req, groupId, startedAt, newId).Ok?
    ensures SaysActive(db, r, |ActiveIds(db.sessions)|)
    ensures SaysActive(StartAll(db, req, groupId, startedAt, newId).value, r, |ActiveIds(db.sessions)| + |req.computerIds|)
  {
    var after := StartAll(db, req, groupId, startedAt, newId).value;
    StartSucceedsIff(db, req, groupId, startedAt, newId);
    StartLeaves(db, req, groupId, startedAt, newId);
    StartGains(db, Start(req, GroupId(req, groupId), startedAt, newId), after);
    SaysItsActive(db, r);
    SaysItsActive(after, r);
  }
}
