/** What becomes of one session over a run: its terms never change and its charge never falls until it is closed. */
module Evolution {
  import opened Money
  import opened Pricing
  import opened Club
  import opened ClubLaws
  import opened Interleaving

  /** The group, computer, room, customer, type, hourly rate and start are those of the day the session was opened. */
  ghost predicate SameTerms(s: Session, t: Session) {
    && t.groupId == s.groupId && t.computerId == s.computerId && t.roomId == s.roomId && t.customerId == s.customerId
    && t.kind == s.kind && t.ratePerHour == s.ratePerHour && t.startedAt == s.startedAt
  }

  /** How a row may look later: same terms, unchanged once closed, and otherwise charged and planned no lower. */
  ghost predicate Matures(s: Session, t: Session) {
    && SameTerms(s, t)
    && (!s.status.Active? ==> t == s)
    && (s.status.Active? && !s.kind.OpenSession? && !t.status.Cancelled? ==>
          && s.amountDue <= t.amountDue
          && s.plannedEndAt.Some? && t.plannedEndAt.Some? && s.plannedEndAt.value <= t.plannedEndAt.value)
  }

  lemma MaturesTransitive(r: Session, s: Session, t: Session)
    requires Matures(r, s) && Matures(s, t)
    ensures Matures(r, t)
  {}

  lemma ChangedMatures(op: Op, sid: Id, s: Session)
    requires s.status.Active? && Priced(s) && Changed(op, sid, s).Ok?
    ensures Matures(s, Changed(op, sid, s).value.session)
  {
    if op.Extend? {
      ExtendedPriced(s, op.extension);
    }
  }

  lemma CommitMatures(db: Db, x: Txn, sid: Id)
    requires AllPriced(db) && TxnOk(db, x) && Finished(x.job) && sid in db.sessions
    ensures Matures(db.sessions[sid], Merge(db, x.st).sessions[sid])
  {
    match x.job
    case Starting(_, _, _, _, _) => StagedFresh(db, x.st);
    case Changing(changed, op, _) =>
      if changed == sid {
        ChangedMatures(op, sid, db.sessions[sid]);
      }
    case Paying(_, _, _) =>
  }

  lemma StepMatures(sys: Sys, ev: Event, sid: Id)
    requires Inv(sys) && sid in sys.db.sessions
    ensures sid in Step(sys, ev).db.sessions && Matures(sys.db.sessions[sid], Step(sys, ev).db.sessions[sid])
  {
    if ev.Commit? && ev.t in sys.txns && Finished(sys.txns[ev.t].job) {
      CommitMatures(sys.db, sys.txns[ev.t], sid);
    } else if ev.Advance? && ev.t in sys.txns {
      AdvanceKeeps(sys, ev.t, ev.newSid);
    }
  }

  /** Over any run, whatever managers do to rooms and prices in between. */
  lemma {:induction false} RunMatures(sys: Sys, events: seq<Event>, sid: Id)
    requires Inv(sys) && sid in sys.db.sessions
    ensures Inv(Run(sys, events)) && sid in Run(sys, events).db.sessions
    ensures Matures(sys.db.sessions[sid], Run(sys, events).db.sessions[sid])
    decreases |events|
  {
    if events != [] {
      var next := Step(sys, events[0]);
      StepKeeps(sys, events[0]);
      StepMatures(sys, events[0], sid);
      RunMatures(next, events[1..], sid);
      MaturesTransitive(sys.db.sessions[sid], next.db.sessions[sid], Run(next, events[1..]).db.sessions[sid]);
    }
  }

  /** What a customer is quoted is never more than what they are charged when the session ends, then or later. */
  lemma QuoteWithinCharge(sys: Sys, events: seq<Event>, sid: Id, now: int)
    requires Inv(sys) && sid in sys.db.sessions && sid in Run(sys, events).db.sessions
    requires var t := Run(sys, events).db.sessions[sid]; t.status.Ended? && t.endedAt.Some? && now <= t.endedAt.value
    ensures QuoteOf(sys.db, sid, now).Ok?
    ensures QuoteOf(sys.db, sid, now).value <= Run(sys, events).db.sessions[sid].amountDue
  {
    RunMatures(sys, events, sid);
    var s, t := sys.db.sessions[sid], Run(sys, events).db.sessions[sid];
    assert Priced(s) && Priced(t);
    if s.status.Active? && s.kind.OpenSession? {
      var a, b := DiffSeconds(s.startedAt, now), DiffSeconds(s.startedAt, t.endedAt.value);
      ChargeMonotone(s.ratePerHour, if a < 0 then 0 else a, if b < 0 then 0 else b);
    }
  }
}
