/**
 Analytics: summaries are computed from the tables, kept in the TTL cache under a key per range, and dropped
 when a financial event is published.
 */
module Analytics {
  import opened Wrappers
  import opened Binary64
  import opened Money
  import opened Pricing
  import opened Club
  import opened ClubLaws
  import opened Tables
  import opened Services
  import MoneyText
  import C = Cache

  const CACHE_TTL_SECONDS: int := 30
  const CACHE_PREFIX: string := "analytics:summary:"

  datatype Range = Range(from: int, to: int)

  /** The figures of a summary that financial events protect. */
  datatype Figures = Figures(
    revenue: real, playSeconds: int, sessionsCount: nat, uniqueCustomers: nat, outstandingDebt: int)

  /** A summary; activeSessions stands for the parts whose changes do not invalidate. */
  datatype Summary = Summary(figures: Figures, activeSessions: nat)

  // ----- computeSummary -----

  predicate EndedWithin(s: Session, r: Range) {
    s.status.Ended? && s.endedAt.Some? && r.from <= s.endedAt.value <= r.to
  }

  function EndedIn(sessions: map<Id, Session>, r: Range): map<Id, Session> {
    sessions - set sid | sid in sessions && !EndedWithin(sessions[sid], r)
  }

  function FiguresOf(ended: map<Id, Session>, outstanding: int): Figures {
    Figures(
      Fl(SumOver(Column(ended, Paid)) as real),
      (SumOver(Column(ended, PlayMillis)) + 500) / 1000,
      |ended|,
      |CustomersOf(ended)|,
      outstanding)
  }

  function CustomersOf(rows: map<Id, Session>): set<Id> {
    set sid | sid in rows && rows[sid].customerId.Some? :: rows[sid].customerId.value
  }

  function PlayMillis(s: Session): int {
    if s.endedAt.Some? then s.endedAt.value - s.startedAt else 0
  }

  /** computeSummary's figures; getTotalOutstanding fails on a sum that is not a safe integer. */
  function Compute(db: Db, r: Range): Result<Figures, ServiceError> {
    match Minor(Outstanding(db.ledger))
    case Err(e) => Err(Amount(e))
    case Ok(outstanding) => Ok(FiguresOf(EndedIn(db.sessions, r), outstanding))
  }

  /** computeSummary. */
  function SummaryFor(db: Db, r: Range): Result<Summary, ServiceError> {
    match Compute(db, r)
    case Err(e) => Err(e)
    case Ok(figures) => Ok(Summary(figures, |ActiveIds(db.sessions)|))
  }

  function ActiveIds(sessions: map<Id, Session>): set<Id> {
    set sid | sid in sessions && sessions[sid].status.Active?
  }

  // ----- Cache keys -----

  /**
   Date.prototype.toISOString is taken as any function with the two features that matter for keys:
   different instants give different texts, and 'Z' is the last character and occurs nowhere else.
   */
  ghost predicate IsoLike(iso: int -> string) {
    && (forall t :: EndsInZ(iso(t)))
    && (forall t, u :: iso(t) == iso(u) ==> t == u)
  }

  predicate EndsInZ(s: string) {
    s != "" && s[|s| - 1] == 'Z' && forall i :: 0 <= i < |s| - 1 ==> s[i] != 'Z'
  }

  function Key(iso: int -> string, r: Range): string {
    CACHE_PREFIX + iso(r.from) + ":" + iso(r.to)
  }

  lemma NotShorter(a: string, b: string, x: string, y: string)
    requires EndsInZ(a) && EndsInZ(b) && a + x == b + y
    ensures |b| <= |a|
  {
    assert (a + x)[|a| - 1] == 'Z';
    assert forall i :: 0 <= i < |b| - 1 ==> (b + y)[i] != 'Z';
  }

  lemma SplitAtZ(a: string, b: string, x: string, y: string)
    requires EndsInZ(a) && EndsInZ(b) && a + x == b + y
    ensures a == b && x == y
  {
    NotShorter(a, b, x, y);
    NotShorter(b, a, y, x);
    assert a == (a + x)[..|a|] && b == (b + y)[..|b|];
    assert x == (a + x)[|a|..] && y == (b + y)[|b|..];
  }

  /** Distinct ranges never share a key. */
  lemma KeyInjective(iso: int -> string, r: Range, q: Range)
    requires IsoLike(iso) && Key(iso, r) == Key(iso, q)
    ensures r == q
  {
    var a, b := iso(r.from) + (":" + iso(r.to)), iso(q.from) + (":" + iso(q.to));
    assert Key(iso, r) == CACHE_PREFIX + a && Key(iso, q) == CACHE_PREFIX + b;
    assert a == (CACHE_PREFIX + a)[|CACHE_PREFIX|..] && b == (CACHE_PREFIX + b)[|CACHE_PREFIX|..];
    SplitAtZ(iso(r.from), iso(q.from), ":" + iso(r.to), ":" + iso(q.to));
    assert iso(r.to) == (":" + iso(r.to))[1..] && iso(q.to) == (":" + iso(q.to))[1..];
  }

  lemma KeyHasPrefix(iso: int -> string, r: Range)
    ensures C.StartsWith(Key(iso, r), CACHE_PREFIX)
  {
    assert Key(iso, r) == CACHE_PREFIX + (iso(r.from) + ":" + iso(r.to));
  }

  lemma {:induction false} DigitsHaveNoZ(n: nat)
    ensures forall i :: 0 <= i < |MoneyText.Digits(n)| ==> MoneyText.Digits(n)[i] != 'Z'
  {
    assert forall i :: 0 <= i < |MoneyText.Digits(n)| ==> MoneyText.IsDigit(MoneyText.Digits(n)[i]);
  }

  /** The two features can be had together: decimal milliseconds followed by 'Z'. */
  lemma IsoLikeExists()
    ensures exists iso: int -> string :: IsoLike(iso)
  {
    var iso := (t: int) => MoneyText.ToText(t) + "Z";
    forall t: int ensures EndsInZ(iso(t)) {
      DigitsHaveNoZ(if t < 0 then -t else t);
    }
    forall t: int, u: int | iso(t) == iso(u) ensures t == u {
      assert MoneyText.ToText(t) == iso(t)[..|iso(t)| - 1];
      assert MoneyText.ToText(u) == iso(u)[..|iso(u)| - 1];
      MoneyText.TextInjective(t, u);
    }
    assert IsoLike(iso);
  }

  // ----- Events and the cache -----

  predicate IsFinancial(e: DomainEvent) {
    e.SessionEnded? || e.DebtCreated? || e.DebtUpdated?
  }

  /** What a successful call publishes, as the services are proved to publish. */
  function Events(before: Db, after: Db, call: Call): seq<DomainEvent>
    requires call.StartCall? ==> forall c :: c in call.req.computerIds ==> c in call.newId
  {
    match call
    case StartCall(req, _, _, newId) => StartEvents(req.computerIds, newId)
    case ChangeCall(sid, op) => OpEvents(before, after, sid, op)
    case PayCall(u, _) => Announced(after.ledger, u, false)
    case CorrectCall(u, _) => Announced(after.ledger, u, false)
    case WriteComputer(c, _) => [ComputerUpdated(c)]
    case _ => []
  }

  /** The handler of every financial event deletes the cached summaries. */
  function Sweeps(events: seq<DomainEvent>): seq<C.Op<Summary>> {
    if events == [] then []
    else
      var n := |events| - 1;
      Sweeps(events[..n]) + (if IsFinancial(events[n]) then [C.DeletePrefix(CACHE_PREFIX)] else [])
  }

  /** summary: getOrSet over computeSummary, which may fail; the log after it, and the answer. */
  function Summarized(iso: int -> string, db: Db, log: seq<C.Op<Summary>>, range: Range, now: int)
    : (seq<C.Op<Summary>>, Result<Summary, ServiceError>)
  {
    var key := Key(iso, range);
    var looked := log + [C.Look(key, now)];
    var cached := C.Answer(log, key, now);
    if cached.Some? then (looked, Ok(cached.value))
    else
      match SummaryFor(db, range)
      case Err(e) => (looked, Err(e))
      case Ok(summary) => (looked + [C.Put(key, summary, CACHE_TTL_SECONDS, now)], Ok(summary))
  }

  lemma OneSweep(log: seq<C.Op<Summary>>, e: DomainEvent, key: C.Key)
    requires C.StartsWith(key, CACHE_PREFIX)
    ensures C.LastPut(log + (if IsFinancial(e) then [C.DeletePrefix(CACHE_PREFIX)] else []), key) ==
            if IsFinancial(e) then None else C.LastPut(log, key)
  {
    C.LogStep(log, C.DeletePrefix(CACHE_PREFIX), key);
    assert log + [] == log;
  }

  /** The handlers leave no summary after a financial event, and every summary where there was none. */
  lemma {:induction false} SweptLog(iso: int -> string, log: seq<C.Op<Summary>>, events: seq<DomainEvent>, r: Range)
    ensures C.LastPut(log + Sweeps(events), Key(iso, r)) ==
            if exists e :: e in events && IsFinancial(e) then None else C.LastPut(log, Key(iso, r))
  {
    if events == [] {
      assert log + [] == log;
    } else {
      var n := |events| - 1;
      var before, last := events[..n], events[n];
      var sweep := if IsFinancial(last) then [C.DeletePrefix(CACHE_PREFIX)] else [];
      assert events == before + [last];
      SweptLog(iso, log, before, r);
      KeyHasPrefix(iso, r);
      OneSweep(log + Sweeps(before), last, Key(iso, r));
      assert log + (Sweeps(before) + sweep) == (log + Sweeps(before)) + sweep;
      assert IsFinancial(last) ==> last in events;
    }
  }

  // ----- Calls that leave the figures alone -----

  lemma SameEndedIn(db: Db, after: Db, r: Range)
    requires SameEnded(db, after)
    ensures EndedIn(db.sessions, r) == EndedIn(after.sessions, r)
  {
    forall sid: Id
      ensures sid in db.sessions && EndedWithin(db.sessions[sid], r) <==>
              sid in after.sessions && EndedWithin(after.sessions[sid], r)
    {
      assert IsEnded(db, sid) <==> IsEnded(after, sid);
    }
    forall sid | sid in EndedIn(db.sessions, r) ensures after.sessions[sid] == db.sessions[sid] {
      assert IsEnded(db, sid);
    }
  }

  /** A start adds active sessions only, whatever ids it is given, as long as they are new. */
  lemma {:induction false} StagingAddsActive(db: Db, req: StartRequest, groupId: Option<Id>, startedAt: int, st: Staging,
                                             ids: seq<Id>, newId: map<Id, Id>)
    requires forall c :: c in ids ==> c in newId
    requires StageAll(db, req, groupId, startedAt, st, ids, newId).Ok?
    requires OnlyActive(db, st) && forall c :: c in newId ==> newId[c] !in db.sessions
    ensures OnlyActive(db, StageAll(db, req, groupId, startedAt, st, ids, newId).value)
    decreases |ids|
  {
    if ids != [] {
      var c := ids[0];
      var st1 := StageOne(db, req, groupId, startedAt, st, c, newId).value;
      AdmittedActive(Merge(db, st), req, groupId, startedAt, c);
      StagingAddsActive(db, req, groupId, startedAt, st1, ids[1..], newId);
    }
  }

  lemma AdmittedActive(db: Db, req: StartRequest, groupId: Option<Id>, startedAt: int, c: Id)
    requires Admit(db, req, groupId, startedAt, c).Ok?
    ensures Admit(db, req, groupId, startedAt, c).value.status.Active?
  {}

  ghost predicate OnlyActive(db: Db, st: Staging) {
    st.entries == [] && forall sid :: sid in st.sessions ==> sid !in db.sessions && st.sessions[sid].status.Active?
  }

  lemma StartKeepsFigures(db: Db, req: StartRequest, groupId: Id, startedAt: int, newId: map<Id, Id>)
    requires (forall c :: c in req.computerIds ==> c in newId) && forall c :: c in newId ==> newId[c] !in db.sessions
    requires StartAll(db, req, groupId, startedAt, newId).Ok?
    ensures var after := StartAll(db, req, groupId, startedAt, newId).value;
            after.ledger == db.ledger && SameEnded(db, after)
  {
    StagingAddsActive(db, req, GroupId(req, groupId), startedAt, NOTHING, req.computerIds, newId);
  }

  lemma ExtendKeepsFigures(db: Db, sid: Id, x: Extension)
    requires ApplyOp(db, sid, Extend(x)).Ok?
    ensures var after := ApplyOp(db, sid, Extend(x)).value; after.ledger == db.ledger && SameEnded(db, after)
  {
    assert db.ledger + [] == db.ledger;
  }

  /** A payment leaves a safe balance, so it is always announced. */
  lemma PaymentAnnounced(db: Db, u: Id, amount: int)
    requires Pay(db, u, amount).Ok?
    ensures var after := Pay(db, u, amount).value;
            Announced(after.ledger, u, false) == [DebtUpdated(u, Balance(after.ledger, u))]
  {
    AppendSum(db.ledger, Entry(u, DebtPayment, -amount, None), Of(u));
  }

  // ----- The service -----

  class AnalyticsService {
    const cache: C.CacheService<Summary>
    const store: ClubStore
    /** How often analytics.updated has been emitted. */
    var updates: nat

    constructor (cache: C.CacheService<Summary>, store: ClubStore)
      ensures this.cache == cache && this.store == store && updates == 0
    {
      this.cache, this.store, updates := cache, store, 0;
    }

    /** invalidate, run on every financial event, and the event that follows. */
    method OnFinancialChange()
      requires cache.Valid()
      modifies this`updates, cache
      ensures cache.Valid() && cache.clock == old(cache.clock) && updates == old(updates) + 1
      ensures cache.log == old(cache.log) + [C.DeletePrefix(CACHE_PREFIX)]
      ensures forall iso, r: Range :: C.Content(cache.slots, Key(iso, r)) == None
    {
      cache.DelByPrefix(CACHE_PREFIX);
      forall iso: int -> string, r: Range ensures C.Content(cache.slots, Key(iso, r)) == None {
        KeyHasPrefix(iso, r);
      }
      updates := updates + 1;
    }

    method SummaryOf(iso: int -> string, range: Range, now: int) returns (r: Result<Summary, ServiceError>)
      requires cache.Valid() && cache.clock <= now
      modifies cache
      ensures cache.Valid() && cache.clock == now
      ensures (cache.log, r) == Summarized(iso, store.Tables(), old(cache.log), range, now)
    {
      var db := store.Tables();
      r := cache.GetOrSet(Key(iso, range), CACHE_TTL_SECONDS, () => SummaryFor(db, range), now);
      ghost var looked := old(cache.log) + [C.Look(Key(iso, range), now)];
      assert looked + [] == looked;
    }
  }
}
