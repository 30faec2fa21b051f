/**
 How fresh cached summaries are. A service call and the handlers of its events run to completion, and time
 passes in between. The cache agrees with the tables exactly as long as every correction is announced or finds
 nothing to serve; and whatever happens, no summary is served that is older than the time to live.
 */
module Freshness {
  import opened Wrappers
  import opened Money
  import opened Pricing
  import opened Club
  import opened ClubLaws
  import opened Services
  import opened Analytics
  import C = Cache

  /** The tables, the log of what was done to the cache, and the time. */
  datatype World = World(db: Db, log: seq<C.Op<Summary>>, clock: int)

  /** A call of a service with the handlers of its events, a request for a summary, or the passing of time. */
  datatype Request = Service(call: Call) | Ask(range: Range) | Wait(millis: nat)

  /** One request; a start whose ids are not new does not happen. */
  ghost function Step(iso: int -> string, w: World, request: Request): World {
    match request
    case Wait(millis) => w.(clock := w.clock + millis)
    case Ask(range) => w.(log := Summarized(iso, w.db, w.log, range, w.clock).0)
    case Service(call) =>
      if !Drawable(w.db, call) then w
      else
        match Perform(w.db, call)
        case Err(_) => w
        case Ok(after) => w.(db := after, log := w.log + Sweeps(Events(w.db, after, call)))
  }

  ghost function Run(iso: int -> string, w: World, requests: seq<Request>): World
    decreases |requests|
  {
    if requests == [] then w else Run(iso, Step(iso, w, requests[0]), requests[1..])
  }

  /** The summary the cache would serve for the range now. */
  function Held(iso: int -> string, w: World, r: Range): Option<Summary> {
    C.Answer(w.log, Key(iso, r), w.clock)
  }

  /** What a request for a summary is answered now. */
  function Served(iso: int -> string, w: World, r: Range): Result<Summary, ServiceError> {
    Summarized(iso, w.db, w.log, r, w.clock).1
  }

  /** Every summary that can be served from the cache shows what computing it now would show. */
  ghost predicate Coherent(iso: int -> string, w: World) {
    forall r: Range :: CoherentAt(iso, w, r)
  }

  ghost predicate CoherentAt(iso: int -> string, w: World, r: Range) {
    Held(iso, w, r).Some? ==> Compute(w.db, r) == Ok(Held(iso, w, r).value.figures)
  }

  /** No summary can be served from the cache: none is there, or all have expired. */
  ghost predicate NothingHeld(iso: int -> string, w: World) {
    forall r: Range :: Held(iso, w, r).None?
  }

  /** The answer for the range has the figures, or the failure, of a fresh computation. */
  ghost predicate FreshAt(iso: int -> string, w: World, r: Range) {
    match Served(iso, w, r)
    case Ok(summary) => Compute(w.db, r) == Ok(summary.figures)
    case Err(e) => Compute(w.db, r) == Err(e)
  }

  ghost predicate Fresh(iso: int -> string, w: World) {
    forall r: Range :: FreshAt(iso, w, r)
  }

  /** Coherence is what can be observed of it: every answer is fresh. */
  lemma CoherentIffFresh(iso: int -> string, w: World)
    ensures Coherent(iso, w) <==> Fresh(iso, w)
  {
    forall r: Range ensures CoherentAt(iso, w, r) <==> FreshAt(iso, w, r) {}
  }

  // ----- One request -----

  /** A request for a summary leaves every entry in the log as it was, but the one it computes. */
  lemma AskedLog(iso: int -> string, w: World, range: Range, r: Range)
    requires IsoLike(iso)
    ensures var before, after := C.LastPut(w.log, Key(iso, r)), C.LastPut(Step(iso, w, Ask(range)).log, Key(iso, r));
            after == if r == range && Held(iso, w, r).None? && SummaryFor(w.db, r).Ok?
                     then Some((SummaryFor(w.db, r).value, w.clock + CACHE_TTL_SECONDS * 1000)) else before
  {
    KeyEqual(iso, r, range);
    SummarizedLog(Key(iso, range), w.log, SummaryFor(w.db, range), w.clock, Key(iso, r));
    assert Step(iso, w, Ask(range)).log == LogAfter(Key(iso, range), w.log, SummaryFor(w.db, range), w.clock);
  }

  /** The log after a request under this key, when the computation would give `computed`. */
  function LogAfter(key: C.Key, log: seq<C.Op<Summary>>, computed: Result<Summary, ServiceError>, now: int)
    : seq<C.Op<Summary>>
  {
    var looked := log + [C.Look(key, now)];
    if C.Answer(log, key, now).None? && computed.Ok? then looked + [C.Put(key, computed.value, CACHE_TTL_SECONDS, now)]
    else looked
  }

  lemma SummarizedLog(key: C.Key, log: seq<C.Op<Summary>>, computed: Result<Summary, ServiceError>, now: int, k: C.Key)
    ensures C.LastPut(LogAfter(key, log, computed, now), k) ==
            if k == key && C.Answer(log, key, now).None? && computed.Ok?
            then Some((computed.value, now + CACHE_TTL_SECONDS * 1000)) else C.LastPut(log, k)
  {
    C.LogStep(log, C.Look(key, now), k);
    if computed.Ok? {
      StoredLog(log + [C.Look(key, now)], key, computed.value, now, k);
    }
  }

  lemma KeyEqual(iso: int -> string, r: Range, q: Range)
    requires IsoLike(iso)
    ensures Key(iso, r) == Key(iso, q) <==> r == q
  {
    if Key(iso, r) == Key(iso, q) {
      KeyInjective(iso, r, q);
    }
  }

  lemma StoredLog(log: seq<C.Op<Summary>>, key: C.Key, s: Summary, now: int, k: C.Key)
    ensures C.LastPut(log + [C.Put(key, s, CACHE_TTL_SECONDS, now)], k) ==
            if k == key then Some((s, now + CACHE_TTL_SECONDS * 1000)) else C.LastPut(log, k)
  {
    C.LogStep(log, C.Put(key, s, CACHE_TTL_SECONDS, now), k);
  }

  lemma AskCoherent(iso: int -> string, w: World, range: Range)
    requires IsoLike(iso) && Coherent(iso, w)
    ensures Coherent(iso, Step(iso, w, Ask(range)))
  {
    forall r: Range ensures CoherentAt(iso, Step(iso, w, Ask(range)), r) {
      assert CoherentAt(iso, w, r);
      AskedLog(iso, w, range, r);
    }
  }

  /** What can be served later can be served now. */
  lemma WaitCoherent(iso: int -> string, w: World, millis: nat)
    requires Coherent(iso, w)
    ensures Coherent(iso, Step(iso, w, Wait(millis)))
  {
    forall r: Range ensures CoherentAt(iso, Step(iso, w, Wait(millis)), r) {
      assert CoherentAt(iso, w, r);
    }
  }

  /** The world after a call that takes the tables to after and publishes these events. */
  function Published(w: World, after: Db, events: seq<DomainEvent>): World {
    w.(db := after, log := w.log + Sweeps(events))
  }

  lemma InvalidatedIsCoherent(iso: int -> string, w: World, after: Db, events: seq<DomainEvent>, e: DomainEvent)
    requires e in events && IsFinancial(e)
    ensures Coherent(iso, Published(w, after, events))
  {
    forall r: Range ensures CoherentAt(iso, Published(w, after, events), r) {
      SweptLog(iso, w.log, events, r);
    }
  }

  /** The figures read nothing but ended sessions and the ledger. */
  lemma SameFigures(iso: int -> string, w: World, after: Db, events: seq<DomainEvent>)
    requires Coherent(iso, w) && after.ledger == w.db.ledger && SameEnded(w.db, after)
    ensures Coherent(iso, Published(w, after, events))
  {
    forall r: Range ensures CoherentAt(iso, Published(w, after, events), r) {
      assert CoherentAt(iso, w, r);
      SweptLog(iso, w.log, events, r);
      SameEndedIn(w.db, after, r);
    }
  }

  /** A correction, if this is one and it goes through, is announced or finds nothing in the cache to serve. */
  ghost predicate Harmless(iso: int -> string, w: World, request: Request) {
    request.Service? && request.call.CorrectCall? && Perform(w.db, request.call).Ok? ==>
      Safe(Balance(Perform(w.db, request.call).value.ledger, request.call.u)) || NothingHeld(iso, w)
  }

  lemma CorrectionCoherentIff(iso: int -> string, w: World, u: Id, amount: int)
    requires Coherent(iso, w) && Correct(w.db, u, amount).Ok?
    ensures Coherent(iso, Step(iso, w, Service(CorrectCall(u, amount)))) <==>
            Safe(Balance(Correct(w.db, u, amount).value.ledger, u)) || NothingHeld(iso, w)
  {
    var after := Correct(w.db, u, amount).value;
    var events := Announced(after.ledger, u, false);
    if Safe(Balance(after.ledger, u)) {
      InvalidatedIsCoherent(iso, w, after, events, events[0]);
    } else {
      assert w.log + [] == w.log;
      assert Step(iso, w, Service(CorrectCall(u, amount))) == w.(db := after);
      AppendSum(w.db.ledger, Entry(u, DebtCorrection, amount, None), EVERYTHING);
      forall r: Range ensures CoherentAt(iso, w.(db := after), r) <==> Held(iso, w, r).None? {
        assert CoherentAt(iso, w, r);
      }
    }
  }

  lemma CallCoherent(iso: int -> string, w: World, call: Call)
    requires Coherent(iso, w) && Drawable(w.db, call) && Perform(w.db, call).Ok? && !call.CorrectCall?
    ensures Coherent(iso, Step(iso, w, Service(call)))
  {
    var after := Perform(w.db, call).value;
    var events := Events(w.db, after, call);
    match call
    case StartCall(req, groupId, startedAt, newId) =>
      StartKeepsFigures(w.db, req, groupId, startedAt, newId);
      SameFigures(iso, w, after, events);
    case ChangeCall(sid, op) =>
      if op.Extend? {
        ExtendKeepsFigures(w.db, sid, op.extension);
        SameFigures(iso, w, after, events);
      } else {
        assert events[0] == SessionEnded(sid);
        InvalidatedIsCoherent(iso, w, after, events, SessionEnded(sid));
      }
    case PayCall(u, amount) =>
      PaymentAnnounced(w.db, u, amount);
      InvalidatedIsCoherent(iso, w, after, events, events[0]);
    case _ => SameFigures(iso, w, after, events);
  }

  /** A request keeps the cache coherent exactly when it is not a harmful correction. */
  lemma StepCoherentIff(iso: int -> string, w: World, request: Request)
    requires IsoLike(iso) && Coherent(iso, w)
    ensures Coherent(iso, Step(iso, w, request)) <==> Harmless(iso, w, request)
  {
    match request
    case Wait(millis) => WaitCoherent(iso, w, millis);
    case Ask(range) => AskCoherent(iso, w, range);
    case Service(call) =>
      if Drawable(w.db, call) && Perform(w.db, call).Ok? {
        if call.CorrectCall? {
          CorrectionCoherentIff(iso, w, call.u, call.amount);
        } else {
          CallCoherent(iso, w, call);
        }
      }
  }

  // ----- Whole runs -----

  /** Now and after every request, every answer is fresh. */
  ghost predicate AlwaysFresh(iso: int -> string, w: World, requests: seq<Request>)
    decreases |requests|
  {
    Fresh(iso, w) && (requests == [] || AlwaysFresh(iso, Step(iso, w, requests[0]), requests[1..]))
  }

  ghost predicate AllHarmless(iso: int -> string, w: World, requests: seq<Request>)
    decreases |requests|
  {
    requests == [] || (Harmless(iso, w, requests[0]) && AllHarmless(iso, Step(iso, w, requests[0]), requests[1..]))
  }

  /**
   Throughout a run every summary served shows what a fresh computation would show if and only if every
   correction of the run leaves its customer a safe balance or finds no summary that could still be served.
   */
  lemma {:induction false} RunFreshIff(iso: int -> string, w: World, requests: seq<Request>)
    requires IsoLike(iso) && Coherent(iso, w)
    ensures AlwaysFresh(iso, w, requests) <==> AllHarmless(iso, w, requests)
    decreases |requests|
  {
    CoherentIffFresh(iso, w);
    if requests != [] {
      var next := Step(iso, w, requests[0]);
      StepCoherentIff(iso, w, requests[0]);
      CoherentIffFresh(iso, next);
      if Harmless(iso, w, requests[0]) {
        RunFreshIff(iso, next, requests[1..]);
      }
    }
  }

  /** In particular from an empty cache over any tables. */
  lemma SummariesFreshIff(iso: int -> string, db: Db, clock: int, requests: seq<Request>)
    requires IsoLike(iso)
    ensures AlwaysFresh(iso, World(db, [], clock), requests) <==> AllHarmless(iso, World(db, [], clock), requests)
  {
    RunFreshIff(iso, World(db, [], clock), requests);
  }

  // ----- Staleness is bounded -----

  const TTL_MS: int := CACHE_TTL_SECONDS * 1000

  /** The world before request number i. */
  ghost function At(iso: int -> string, w: World, requests: seq<Request>, i: nat): World
    requires i <= |requests|
  {
    Run(iso, w, requests[..i])
  }

  lemma {:induction false} RunAppend(iso: int -> string, w: World, requests: seq<Request>, last: Request)
    ensures Run(iso, w, requests + [last]) == Step(iso, Run(iso, w, requests), last)
    decreases |requests|
  {
    if requests == [] {
      assert [] + [last] == [last];
      assert Run(iso, Step(iso, w, last), []) == Step(iso, w, last);
    } else {
      assert (requests + [last])[1..] == requests[1..] + [last];
      RunAppend(iso, Step(iso, w, requests[0]), requests[1..], last);
    }
  }

  lemma AtNext(iso: int -> string, w: World, requests: seq<Request>, i: nat)
    requires i < |requests|
    ensures At(iso, w, requests, i + 1) == Step(iso, At(iso, w, requests, i), requests[i])
  {
    assert requests[..i + 1] == requests[..i] + [requests[i]];
    RunAppend(iso, w, requests[..i], requests[i]);
  }

  lemma {:induction false} ClockAdvances(iso: int -> string, w: World, requests: seq<Request>, j: nat, i: nat)
    requires j <= i <= |requests|
    ensures At(iso, w, requests, j).clock <= At(iso, w, requests, i).clock
    decreases i
  {
    if j < i {
      AtNext(iso, w, requests, i - 1);
      ClockAdvances(iso, w, requests, j, i - 1);
    }
  }

  /** The cached entry was computed before request number j and expires a time to live later. */
  ghost predicate ComputedAt(iso: int -> string, w: World, requests: seq<Request>, r: Range, s: Summary, expiresAt: int,
                             j: nat)
    requires j <= |requests|
  {
    var earlier := At(iso, w, requests, j);
    SummaryFor(earlier.db, r) == Ok(s) && expiresAt == earlier.clock + TTL_MS
  }

  /** Every entry of the cache, live or not, was computed at some earlier point of the run. */
  ghost predicate Backed(iso: int -> string, w: World, requests: seq<Request>, i: nat, r: Range)
    requires i <= |requests|
  {
    var last := C.LastPut(At(iso, w, requests, i).log, Key(iso, r));
    last.Some? ==> exists j: nat :: j <= i && ComputedAt(iso, w, requests, r, last.value.0, last.value.1, j)
  }

  /** A request adds no entry but the summary it computes. */
  lemma EntriesOnlyByAsking(iso: int -> string, w: World, request: Request, r: Range)
    requires IsoLike(iso)
    ensures var before, after := C.LastPut(w.log, Key(iso, r)), C.LastPut(Step(iso, w, request).log, Key(iso, r));
            after.None? || after == before
            || (SummaryFor(w.db, r) == Ok(after.value.0) && after.value.1 == w.clock + TTL_MS)
  {
    match request
    case Wait(_) =>
    case Ask(range) => AskedLog(iso, w, range, r);
    case Service(call) =>
      if Drawable(w.db, call) && Perform(w.db, call).Ok? {
        SweptLog(iso, w.log, Events(w.db, Perform(w.db, call).value, call), r);
      }
  }

  lemma {:induction false} EntriesAreBacked(iso: int -> string, w: World, requests: seq<Request>, i: nat, r: Range)
    requires IsoLike(iso) && w.log == [] && i <= |requests|
    ensures Backed(iso, w, requests, i, r)
    decreases i
  {
    if i == 0 {
      assert requests[..0] == [];
    } else {
      EntriesAreBacked(iso, w, requests, i - 1, r);
      AtNext(iso, w, requests, i - 1);
      var before := At(iso, w, requests, i - 1);
      EntriesOnlyByAsking(iso, before, requests[i - 1], r);
      var last := C.LastPut(At(iso, w, requests, i).log, Key(iso, r));
      if last.Some? && last != C.LastPut(before.log, Key(iso, r)) {
        assert ComputedAt(iso, w, requests, r, last.value.0, last.value.1, i - 1);
      }
    }
  }

  /** The answer is what computing the summary would have given, in full, less than thirty seconds earlier. */
  ghost predicate RecentAt(iso: int -> string, w: World, requests: seq<Request>, i: nat, r: Range, j: nat)
    requires i <= |requests|
  {
    && j <= i && SummaryFor(At(iso, w, requests, j).db, r) == Served(iso, At(iso, w, requests, i), r)
    && At(iso, w, requests, j).clock <= At(iso, w, requests, i).clock < At(iso, w, requests, j).clock + 30000
  }

  /**
   Over every run from an empty cache, corrections that are not announced, starts and computer edits included,
   every answer to a request for a summary, the failures and the figures no event protects included, is the
   one of the tables at some point of the run less than thirty seconds before.
   */
  lemma StalenessIsBounded(iso: int -> string, w: World, requests: seq<Request>, i: nat, r: Range)
    requires IsoLike(iso) && w.log == [] && i <= |requests|
    ensures exists j: nat :: RecentAt(iso, w, requests, i, r, j)
  {
    var now := At(iso, w, requests, i);
    if Held(iso, now, r).Some? {
      EntriesAreBacked(iso, w, requests, i, r);
      var last := C.LastPut(now.log, Key(iso, r));
      var j: nat :| j <= i && ComputedAt(iso, w, requests, r, last.value.0, last.value.1, j);
      ClockAdvances(iso, w, requests, j, i);
      assert RecentAt(iso, w, requests, i, r, j);
    } else {
      assert RecentAt(iso, w, requests, i, r, i);
    }
  }

  // ----- A harmful correction -----

  const START := World(Db(map[], map[], map[1 := Club.Customer(false, false)], map[], []), [], 0)
  const TO_THE_LIMIT := Service(CorrectCall(1, MAX_SAFE_INTEGER))
  const EPOCH := Range(0, 0)
  const FIRST := Entry(1, DebtCorrection, MAX_SAFE_INTEGER, None)

  /** One correction to the limit of the safe integers. */
  lemma CorrectedToTheLimit(iso: int -> string)
    ensures Step(iso, START, TO_THE_LIMIT) ==
            START.(db := START.db.(ledger := [FIRST]), log := Sweeps([DebtUpdated(1, MAX_SAFE_INTEGER)]))
    ensures Balance([FIRST], 1) == Outstanding([FIRST]) == MAX_SAFE_INTEGER
  {
    assert [] + [FIRST] == [FIRST];
    AppendSum([], FIRST, Of(1));
    AppendSum([], FIRST, EVERYTHING);
    var swept := Sweeps([DebtUpdated(1, MAX_SAFE_INTEGER)]);
    assert [] + swept == swept;
  }

  /** The world after that and a summary. */
  ghost function AtTheLimit(iso: int -> string): World {
    Step(iso, Step(iso, START, TO_THE_LIMIT), Ask(EPOCH))
  }

  /** The cache holds the one summary, and it is right. */
  lemma HeldAtTheLimit(iso: int -> string)
    requires IsoLike(iso)
    ensures var w := AtTheLimit(iso);
            && Coherent(iso, w) && w.db == START.db.(ledger := [FIRST]) && w.clock == 0
            && (forall r: Range ::
                  if r == EPOCH then C.LastPut(w.log, Key(iso, r)).Some? && C.LastPut(w.log, Key(iso, r)).value.1 == TTL_MS
                  else C.LastPut(w.log, Key(iso, r)).None?)
  {
    CorrectedToTheLimit(iso);
    CorrectionCoherentIff(iso, START, 1, MAX_SAFE_INTEGER);
    var corrected := Step(iso, START, TO_THE_LIMIT);
    AskCoherent(iso, corrected, EPOCH);
    assert [] + corrected.log == corrected.log && DebtUpdated(1, MAX_SAFE_INTEGER) in [DebtUpdated(1, MAX_SAFE_INTEGER)];
    forall r: Range
      ensures if r == EPOCH then C.LastPut(AtTheLimit(iso).log, Key(iso, r)).Some?
                                 && C.LastPut(AtTheLimit(iso).log, Key(iso, r)).value.1 == TTL_MS
              else C.LastPut(AtTheLimit(iso).log, Key(iso, r)).None?
    {
      SweptLog(iso, [], [DebtUpdated(1, MAX_SAFE_INTEGER)], r);
      AskedLog(iso, corrected, EPOCH, r);
    }
  }

  /** A second such correction is stored and not announced; no balance can be summed up any more. */
  lemma UnannouncedCorrection(iso: int -> string)
    requires IsoLike(iso)
    ensures var w := AtTheLimit(iso);
            && Perform(w.db, TO_THE_LIMIT.call).Ok?
            && Step(iso, w, TO_THE_LIMIT) == w.(db := w.db.(ledger := [FIRST, FIRST]))
            && forall r: Range :: Compute(w.db.(ledger := [FIRST, FIRST]), r).Err?
  {
    HeldAtTheLimit(iso);
    CorrectedToTheLimit(iso);
    AppendSum([FIRST], FIRST, Of(1));
    AppendSum([FIRST], FIRST, EVERYTHING);
    assert [FIRST] + [FIRST] == [FIRST, FIRST];
    assert AtTheLimit(iso).log + [] == AtTheLimit(iso).log;
  }

  /** The summary cached before goes on being served until it expires, thirty seconds after it was computed. */
  lemma StaleUntilExpiry(iso: int -> string, millis: nat)
    requires IsoLike(iso)
    ensures Fresh(iso, AtTheLimit(iso))
    ensures Fresh(iso, Step(iso, Step(iso, AtTheLimit(iso), TO_THE_LIMIT), Wait(millis))) <==> 30000 <= millis
  {
    HeldAtTheLimit(iso);
    UnannouncedCorrection(iso);
    CoherentIffFresh(iso, AtTheLimit(iso));
    var later := Step(iso, Step(iso, AtTheLimit(iso), TO_THE_LIMIT), Wait(millis));
    CoherentIffFresh(iso, later);
    assert Held(iso, later, EPOCH).Some? <==> millis < TTL_MS;
    assert CoherentAt(iso, later, EPOCH) <==> TTL_MS <= millis;
    forall r: Range | TTL_MS <= millis ensures CoherentAt(iso, later, r) {
      assert Held(iso, later, r).None?;
    }
  }
}
