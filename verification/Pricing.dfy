/** The pricing engine: schedules and charges of sessions. Instants are milliseconds. */
module Pricing {
  import opened Wrappers
  import opened Money

  type Id = nat

  datatype SessionType = FixedDuration | FixedEndTime | OpenSession

  datatype SessionStatus = Active | Ended | Cancelled

  datatype Session = Session(
    groupId: Option<Id>,
    computerId: Id,
    roomId: Id,
    customerId: Option<Id>,
    kind: SessionType,
    status: SessionStatus,
    ratePerHour: int,
    startedAt: int,
    plannedEndAt: Option<int>,
    endedAt: Option<int>,
    amountDue: int,
    amountPaid: int)

  datatype PriceError =
    | InvalidMinutes
    | InvalidEndTime
    | InvalidExtension
    | CannotExtend
    | BadAmount(reason: MoneyError)

  datatype Plan = Plan(plannedEndAt: Option<int>, plannedAmount: int)

  const MINUTE: int := 60000

  /** Whole seconds between two instants, half a second counting up. */
  function DiffSeconds(from: int, to: int): int {
    (to - from + 500) / 1000
  }

  /** For instants at most 2^53 ms apart, DiffSeconds is what Math.round over doubles computes. */
  lemma DiffSecondsInDoubles(from: int, to: int)
    requires -9007199254740992 <= to - from <= 9007199254740992
    ensures RoundedSeconds(to - from) == DiffSeconds(from, to)
  {
    RoundedSecondsExact(to - from);
  }

  function Schedule(rate: int, end: int, seconds: int): Result<Plan, PriceError> {
    match ChargeOf(rate, seconds)
    case Ok(amount) => Ok(Plan(Some(end), amount))
    case Err(e) => Err(BadAmount(e))
  }

  /** SessionPricingService.plan. */
  function PlanFor(kind: SessionType, rate: int, startedAt: int, minutes: Option<int>, end: Option<int>)
    : Result<Plan, PriceError>
  {
    match kind
    case FixedDuration =>
      if minutes.None? || minutes.value <= 0 then Err(InvalidMinutes)
      else Schedule(rate, startedAt + minutes.value * 60 * 1000, minutes.value * 60)
    case FixedEndTime =>
      if end.None? || DiffSeconds(startedAt, end.value) <= 0 then Err(InvalidEndTime)
      else Schedule(rate, end.value, DiffSeconds(startedAt, end.value))
    case OpenSession => Ok(Plan(None, 0))
  }

  /** SessionPricingService.quote. */
  function Quote(s: Session, now: int): Result<int, PriceError> {
    if s.kind.OpenSession? then Accrued(s, now) else Locked(s)
  }

  /** SessionPricingService.finalize. */
  function Finalize(s: Session, endedAt: int): Result<int, PriceError> {
    if s.kind.OpenSession? then Accrued(s, endedAt) else Locked(s)
  }

  function Accrued(s: Session, at: int): Result<int, PriceError> {
    var seconds := DiffSeconds(s.startedAt, at);
    match ChargeOf(s.ratePerHour, if seconds < 0 then 0 else seconds)
    case Ok(amount) => Ok(amount)
    case Err(e) => Err(BadAmount(e))
  }

  function Locked(s: Session): Result<int, PriceError> {
    match Minor(s.amountDue)
    case Ok(amount) => Ok(amount)
    case Err(e) => Err(BadAmount(e))
  }

  datatype Extension = Extension(addMinutes: Option<int>, newEndAt: Option<int>)

  /** SessionPricingService.extend. */
  function ExtendPlan(s: Session, x: Extension): Result<Plan, PriceError> {
    match s.kind
    case FixedDuration =>
      if x.addMinutes.None? || x.addMinutes.value <= 0 then Err(InvalidExtension)
      else
        var base := if s.plannedEndAt.Some? then s.plannedEndAt.value else s.startedAt;
        var end := base + x.addMinutes.value * 60 * 1000;
        Schedule(s.ratePerHour, end, DiffSeconds(s.startedAt, end))
    case FixedEndTime =>
      if x.newEndAt.None? then Err(InvalidExtension)
      else if s.plannedEndAt.Some? && x.newEndAt.value <= s.plannedEndAt.value then Err(InvalidExtension)
      else Schedule(s.ratePerHour, x.newEndAt.value, DiffSeconds(s.startedAt, x.newEndAt.value))
    case OpenSession => Err(CannotExtend)
  }

  /** The session after one extension. */
  function Extended(s: Session, x: Extension): Result<Session, PriceError> {
    match ExtendPlan(s, x)
    case Ok(p) => Ok(WithPlan(s, p))
    case Err(e) => Err(e)
  }

  function WithPlan(s: Session, p: Plan): Session {
    s.(plannedEndAt := p.plannedEndAt, amountDue := p.plannedAmount)
  }

  /** A run of extensions, stopping at the first that fails. */
  function ExtendedAll(s: Session, xs: seq<Extension>): Result<Session, PriceError>
    decreases |xs|
  {
    if xs == [] then Ok(s)
    else
      match Extended(s, xs[0])
      case Ok(s1) => ExtendedAll(s1, xs[1..])
      case Err(e) => Err(e)
  }

  // ----- The pricing invariant of a session -----

  /** A fixed session has a planned end after its start and is charged for exactly that span. */
  ghost predicate PrepaidCharge(s: Session) {
    && s.plannedEndAt.Some?
    && DiffSeconds(s.startedAt, s.plannedEndAt.value) > 0
    && ChargeOf(s.ratePerHour, DiffSeconds(s.startedAt, s.plannedEndAt.value)) == Ok(s.amountDue)
    && (s.kind.FixedDuration? ==> (s.plannedEndAt.value - s.startedAt) % MINUTE == 0)
  }

  /** What a session's amounts must be, by type and status. */
  ghost predicate Priced(s: Session) {
    match s.status
    case Active =>
      && s.endedAt.None? && s.amountPaid == 0
      && if s.kind.OpenSession? then s.plannedEndAt.None? && s.amountDue == 0 else PrepaidCharge(s)
    case Ended =>
      && s.endedAt.Some? && 0 <= s.amountPaid <= s.amountDue
      && if s.kind.OpenSession? then s.plannedEndAt.None? && Accrued(s, s.endedAt.value) == Ok(s.amountDue)
         else PrepaidCharge(s)
    case Cancelled =>
      s.endedAt.Some? && s.amountDue == 0 && s.amountPaid == 0
  }

  lemma PlanPriced(s: Session, minutes: Option<int>, end: Option<int>)
    requires s.status.Active? && s.endedAt.None? && s.amountPaid == 0
    requires PlanFor(s.kind, s.ratePerHour, s.startedAt, minutes, end) == Ok(Plan(s.plannedEndAt, s.amountDue))
    ensures Priced(s)
  {
    if s.kind.FixedDuration? {
      assert s.plannedEndAt.value - s.startedAt == minutes.value * MINUTE;
      assert DiffSeconds(s.startedAt, s.plannedEndAt.value) == minutes.value * 60;
    }
  }

  // ----- What plans, extensions and charges are -----

  /** A whole number of seconds between two instants is nearest to the span, the later one on a tie. */
  lemma DiffSecondsNearest(from: int, to: int)
    ensures -500 <= to - from - 1000 * DiffSeconds(from, to) < 500
  {}

  /** The amount is rate * seconds / 3600 to the nearest unit, except one too high at the one misrounded product. */
  ghost predicate Charges(rate: int, seconds: int, amount: int) {
    && rate >= 0 && seconds >= 0 && rate * seconds <= MAX_SAFE_INTEGER
    && (rate * seconds != MISROUNDED ==> -1800 <= rate * seconds - 3600 * amount < 1800)
    && (rate * seconds == MISROUNDED ==> -1800 <= rate * seconds - 3600 * (amount - 1) < 1800)
  }

  lemma ChargeIs(rate: int, seconds: int)
    ensures ChargeOf(rate, seconds).Ok? <==> rate >= 0 && seconds >= 0 && rate * seconds <= MAX_SAFE_INTEGER
    ensures ChargeOf(rate, seconds).Ok? ==> Charges(rate, seconds, ChargeOf(rate, seconds).value)
  {
    if rate >= 0 && seconds >= 0 {
      ChargeIsNearest(rate, seconds);
      HalfUpIsNearest(Numerator(rate, seconds), HalfUp(Numerator(rate, seconds)));
    }
  }

  /** A plan by minutes ends the minutes after the start and charges them; it needs some minutes. */
  lemma DurationPlanIs(rate: int, start: int, minutes: Option<int>, end: Option<int>)
    ensures var r := PlanFor(FixedDuration, rate, start, minutes, end);
            && (r.Ok? <==> minutes.Some? && minutes.value > 0 && rate >= 0 && rate * (minutes.value * 60) <= MAX_SAFE_INTEGER)
            && (r.Ok? ==> r.value.plannedEndAt == Some(start + minutes.value * 60000)
                          && Charges(rate, minutes.value * 60, r.value.plannedAmount))
  {
    if minutes.Some? && minutes.value > 0 {
      ChargeIs(rate, minutes.value * 60);
    }
  }

  /** A plan by end time ends then and charges the whole seconds up to it, at least one. */
  lemma EndTimePlanIs(rate: int, start: int, minutes: Option<int>, end: Option<int>)
    ensures var r := PlanFor(FixedEndTime, rate, start, minutes, end);
            && (r.Ok? <==> end.Some? && end.value - start >= 500 && rate >= 0
                           && rate * DiffSeconds(start, end.value) <= MAX_SAFE_INTEGER)
            && (r.Ok? ==> r.value.plannedEndAt == end && Charges(rate, DiffSeconds(start, end.value), r.value.plannedAmount))
  {
    if end.Some? && DiffSeconds(start, end.value) > 0 {
      ChargeIs(rate, DiffSeconds(start, end.value));
    }
  }

  /** An open session has no planned end and nothing is charged up front. */
  lemma OpenPlanIs(rate: int, start: int, minutes: Option<int>, end: Option<int>)
    ensures PlanFor(OpenSession, rate, start, minutes, end) == Ok(Plan(None, 0))
  {}

  /** Where an extension asks the session to end. */
  function Target(s: Session, x: Extension): Option<int> {
    if s.kind.OpenSession? || s.plannedEndAt.None? then None
    else if s.kind.FixedEndTime? then x.newEndAt
    else if x.addMinutes.Some? then Some(s.plannedEndAt.value + x.addMinutes.value * 60000) else None
  }

  /**
   A priced session is extended exactly when it is fixed, is asked to end later than planned, and the charge
   for all of its time can be made; it then ends when asked and is charged for all of its time.
   */
  lemma ExtensionIs(s: Session, x: Extension)
    requires s.status.Active? && Priced(s)
    ensures Extended(s, x).Ok? <==>
            && Target(s, x).Some? && Target(s, x).value > s.plannedEndAt.value
            && s.ratePerHour * DiffSeconds(s.startedAt, Target(s, x).value) <= MAX_SAFE_INTEGER
    ensures Extended(s, x).Ok? ==>
              && Extended(s, x).value.plannedEndAt == Target(s, x)
              && Charges(s.ratePerHour, DiffSeconds(s.startedAt, Target(s, x).value), Extended(s, x).value.amountDue)
  {
    if Target(s, x).Some? {
      var end := Target(s, x).value;
      ChargeIs(s.ratePerHour, DiffSeconds(s.startedAt, end));
      if s.plannedEndAt.value <= end {
        DiffSecondsMonotone(s.startedAt, s.plannedEndAt.value, end);
      }
    }
  }

  /**
   What an open stay costs: the charge a plan up to that instant at the same rate makes, nothing for less than
   half a second, and in any case the whole seconds at the hourly rate to the nearest unit.
   */
  lemma OpenChargeIs(s: Session, at: int)
    requires s.kind.OpenSession?
    ensures at - s.startedAt >= 500 ==>
              Finalize(s, at) == match PlanFor(FixedEndTime, s.ratePerHour, s.startedAt, None, Some(at))
                                 case Ok(plan) => Ok(plan.plannedAmount)
                                 case Err(e) => Err(e)
    ensures at - s.startedAt < 500 && s.ratePerHour >= 0 ==> Finalize(s, at) == Ok(0)
    ensures Finalize(s, at).Ok? && at - s.startedAt >= 500 ==>
              Charges(s.ratePerHour, DiffSeconds(s.startedAt, at), Finalize(s, at).value)
  {
    if at - s.startedAt >= 500 {
      ChargeIs(s.ratePerHour, DiffSeconds(s.startedAt, at));
    } else if s.ratePerHour >= 0 {
      assert Numerator(s.ratePerHour, 0) == 0;
    }
  }

  /** A fixed session is charged what was locked in, whenever it ends. */
  lemma FixedChargeIs(s: Session, at: int)
    requires !s.kind.OpenSession? && s.status.Active? && Priced(s)
    ensures Finalize(s, at) == Ok(s.amountDue)
  {}

  /** The charge of a session that ends at this instant, from what the row and the clock say. */
  ghost predicate EndCharge(s: Session, at: int, due: int) {
    if !s.kind.OpenSession? then due == s.amountDue
    else if at - s.startedAt < 500 then due == 0
    else
      && PlanFor(FixedEndTime, s.ratePerHour, s.startedAt, None, Some(at)) == Ok(Plan(Some(at), due))
      && Charges(s.ratePerHour, DiffSeconds(s.startedAt, at), due)
  }

  lemma FinalizeCharges(s: Session, at: int)
    requires s.status.Active? && Priced(s) && Finalize(s, at).Ok?
    ensures EndCharge(s, at, Finalize(s, at).value)
  {
    if s.kind.OpenSession? {
      OpenChargeIs(s, at);
    } else {
      FixedChargeIs(s, at);
    }
  }

  /** A quote is the charge of ending at that instant. */
  lemma QuoteIsCharge(s: Session, at: int)
    ensures Quote(s, at) == Finalize(s, at)
  {}

  lemma DiffSecondsMonotone(start: int, a: int, b: int)
    requires a <= b
    ensures DiffSeconds(start, a) <= DiffSeconds(start, b)
  {}

  lemma WholeMinutes(span: int, m: int)
    requires span % MINUTE == 0
    ensures (span + m * 60 * 1000) % MINUTE == 0
  {}

  /** What an extension may change, and in which direction. */
  ghost predicate Grown(s: Session, s1: Session) {
    && s1 == s.(plannedEndAt := s1.plannedEndAt, amountDue := s1.amountDue)
    && s.amountDue <= s1.amountDue
    && (s.kind.OpenSession? ==> s1 == s)
  }

  /** Extending keeps the invariant and moves the end and the charge only upwards. */
  lemma ExtendedPriced(s: Session, x: Extension)
    requires s.status.Active? && Priced(s) && Extended(s, x).Ok?
    ensures Priced(Extended(s, x).value) && Grown(s, Extended(s, x).value)
    ensures !s.kind.OpenSession? && s.plannedEndAt.value < Extended(s, x).value.plannedEndAt.value
  {
    var s1 := Extended(s, x).value;
    var e, e1 := s.plannedEndAt.value, s1.plannedEndAt.value;
    if s.kind.FixedDuration? {
      WholeMinutes(e - s.startedAt, x.addMinutes.value);
      assert e1 == e + x.addMinutes.value * 60 * 1000;
    }
    DiffSecondsMonotone(s.startedAt, e, e1);
    ChargeMonotone(s.ratePerHour, DiffSeconds(s.startedAt, e), DiffSeconds(s.startedAt, e1));
  }

  lemma {:induction false} ExtendedAllPriced(s: Session, xs: seq<Extension>)
    requires s.status.Active? && Priced(s) && ExtendedAll(s, xs).Ok?
    ensures Priced(ExtendedAll(s, xs).value) && Grown(s, ExtendedAll(s, xs).value)
    decreases |xs|
  {
    if xs != [] {
      ExtendedPriced(s, xs[0]);
      ExtendedAllPriced(Extended(s, xs[0]).value, xs[1..]);
    }
  }

  /** A quote never exceeds the charge of ending later, whatever extensions come in between. */
  lemma QuoteNeverExceeds(s: Session, now: int, xs: seq<Extension>, endedAt: int)
    requires s.status.Active? && Priced(s) && now <= endedAt && ExtendedAll(s, xs).Ok?
    requires Finalize(ExtendedAll(s, xs).value, endedAt).Ok?
    ensures Quote(s, now).Ok? && Quote(s, now).value <= Finalize(ExtendedAll(s, xs).value, endedAt).value
  {
    ExtendedAllPriced(s, xs);
    if s.kind.OpenSession? {
      var a, b := DiffSeconds(s.startedAt, now), DiffSeconds(s.startedAt, endedAt);
      ChargeMonotone(s.ratePerHour, if a < 0 then 0 else a, if b < 0 then 0 else b);
    }
  }

  // ----- Path independence of extensions -----

  function Sum(xs: seq<int>): int {
    if xs == [] then 0 else xs[0] + Sum(xs[1..])
  }

  function ByMinutes(ms: seq<int>): (xs: seq<Extension>)
    ensures |xs| == |ms|
  {
    seq(|ms|, i requires 0 <= i < |ms| => Extension(Some(ms[i]), None))
  }

  function ToEnds(ends: seq<int>): (xs: seq<Extension>)
    ensures |xs| == |ends|
  {
    seq(|ends|, i requires 0 <= i < |ends| => Extension(None, Some(ends[i])))
  }

  /** The session with the given plan, or the plan's error. */
  function Replanned(s: Session, plan: Result<Plan, PriceError>): Result<Session, PriceError> {
    match plan
    case Ok(p) => Ok(WithPlan(s, p))
    case Err(e) => Err(e)
  }

  function MinutesPlan(s: Session, minutes: int): Result<Plan, PriceError> {
    PlanFor(FixedDuration, s.ratePerHour, s.startedAt, Some(minutes), None)
  }

  lemma LongerPlan(s: Session, m: int, more: int)
    requires 0 < m <= more && MinutesPlan(s, more).Ok?
    ensures MinutesPlan(s, m).Ok?
  {
    ChargeMonotone(s.ratePerHour, m * 60, more * 60);
  }

  lemma OneMoreExtension(s: Session, m0: int, m: int)
    requires s.kind.FixedDuration? && 0 < m0 && 0 < m
    requires MinutesPlan(s, m0) == Ok(Plan(s.plannedEndAt, s.amountDue))
    ensures Extended(s, Extension(Some(m), None)) == Replanned(s, MinutesPlan(s, m0 + m))
  {
    assert DiffSeconds(s.startedAt, s.startedAt + m0 * 60 * 1000 + m * 60 * 1000) == (m0 + m) * 60;
  }

  lemma {:induction false} SumNonNegative(ms: seq<int>)
    requires forall i :: 0 <= i < |ms| ==> ms[i] > 0
    ensures Sum(ms) >= 0
  {
    if ms != [] {
      SumNonNegative(ms[1..]);
    }
  }

  /**
   A fixed-duration session extended by any list of positive minutes ends with the same end and
   charge, or the same error, as one planned for the total.
   */
  lemma {:induction false} DurationPathIndependent(s: Session, m0: int, ms: seq<int>)
    requires s.kind.FixedDuration? && 0 < m0 && forall i :: 0 <= i < |ms| ==> ms[i] > 0
    requires MinutesPlan(s, m0) == Ok(Plan(s.plannedEndAt, s.amountDue))
    ensures ExtendedAll(s, ByMinutes(ms)) == Replanned(s, MinutesPlan(s, m0 + Sum(ms)))
    decreases |ms|
  {
    if ms != [] {
      var m, rest := ms[0], ms[1..];
      OneMoreExtension(s, m0, m);
      assert ByMinutes(ms)[1..] == ByMinutes(rest);
      SumNonNegative(rest);
      if MinutesPlan(s, m0 + m).Ok? {
        DurationPathIndependent(Extended(s, ByMinutes(ms)[0]).value, m0 + m, rest);
      } else if MinutesPlan(s, m0 + Sum(ms)).Ok? {
        LongerPlan(s, m0 + m, m0 + Sum(ms));
      }
    }
  }

  lemma {:induction false} SumSplit(a: seq<int>, b: seq<int>)
    ensures Sum(a + b) == Sum(a) + Sum(b)
  {
    if a == [] {
      assert a + b == b;
    } else {
      assert (a + b)[1..] == a[1..] + b;
      SumSplit(a[1..], b);
    }
  }

  function Without(b: seq<int>, j: nat): seq<int>
    requires j < |b|
  {
    b[..j] + b[j + 1..]
  }

  lemma SumWithout(b: seq<int>, j: nat)
    requires j < |b|
    ensures Sum(b) == b[j] + Sum(Without(b, j))
  {
    var x, y := b[..j], b[j + 1..];
    var c := [b[j]] + y;
    assert b == x + c;
    SumSplit(x, c);
    assert c[1..] == y;
    SumSplit(x, y);
  }

  lemma MultisetWithout(b: seq<int>, j: nat)
    requires j < |b|
    ensures multiset(Without(b, j)) == multiset(b) - multiset{b[j]}
  {
    var x, y := b[..j], b[j + 1..];
    assert b == x + [b[j]] + y;
  }

  lemma {:induction false} SumOfPermutation(a: seq<int>, b: seq<int>)
    requires multiset(a) == multiset(b)
    ensures Sum(a) == Sum(b)
    decreases |a|
  {
    if a == [] {
      assert |multiset(b)| == 0;
    } else {
      assert a[0] in multiset(b);
      var j :| 0 <= j < |b| && b[j] == a[0];
      MultisetWithout(a, 0);
      MultisetWithout(b, j);
      SumWithout(a, 0);
      SumWithout(b, j);
      SumOfPermutation(Without(a, 0), Without(b, j));
    }
  }

  /** The order in which extensions arrive does not matter. */
  lemma ExtensionOrderIrrelevant(s: Session, m0: int, ms: seq<int>, ns: seq<int>)
    requires s.kind.FixedDuration? && 0 < m0 && multiset(ms) == multiset(ns)
    requires forall i :: 0 <= i < |ms| ==> ms[i] > 0
    requires MinutesPlan(s, m0) == Ok(Plan(s.plannedEndAt, s.amountDue))
    ensures ExtendedAll(s, ByMinutes(ms)) == ExtendedAll(s, ByMinutes(ns))
  {
    forall i | 0 <= i < |ns| ensures ns[i] > 0 {
      assert ns[i] in multiset(ms);
    }
    DurationPathIndependent(s, m0, ms);
    DurationPathIndependent(s, m0, ns);
    SumOfPermutation(ms, ns);
  }

  function EndPlan(s: Session, end: int): Result<Plan, PriceError> {
    PlanFor(FixedEndTime, s.ratePerHour, s.startedAt, None, Some(end))
  }

  ghost predicate Increasing(from: int, ends: seq<int>) {
    && (forall i :: 0 <= i < |ends| ==> from < ends[i])
    && (forall i, j :: 0 <= i < j < |ends| ==> ends[i] < ends[j])
  }

  /** Any increasing chain of end times leaves what planning the last end directly would have given. */
  lemma {:induction false} EndTimePathIndependent(s: Session, e0: int, ends: seq<int>)
    requires s.kind.FixedEndTime? && Increasing(e0, ends)
    requires EndPlan(s, e0) == Ok(Plan(s.plannedEndAt, s.amountDue))
    ensures ExtendedAll(s, ToEnds(ends)) == Replanned(s, EndPlan(s, if ends == [] then e0 else ends[|ends| - 1]))
    decreases |ends|
  {
    if ends != [] {
      var e, rest := ends[0], ends[1..];
      var last := ends[|ends| - 1];
      assert ToEnds(ends)[1..] == ToEnds(rest);
      assert Extended(s, ToEnds(ends)[0]) == Replanned(s, EndPlan(s, e));
      if EndPlan(s, e).Ok? {
        EndTimePathIndependent(Extended(s, ToEnds(ends)[0]).value, e, rest);
      } else if EndPlan(s, last).Ok? {
        ChargeMonotone(s.ratePerHour, DiffSeconds(s.startedAt, e), DiffSeconds(s.startedAt, last));
      }
    }
  }

  // ----- One charge against the sum of the charges of its pieces -----

  ghost predicate Naturals(ns: seq<int>) {
    forall i :: 0 <= i < |ns| ==> ns[i] >= 0
  }

  function SumCharged(ns: seq<int>): int
    requires Naturals(ns)
  {
    if ns == [] then 0 else Charged(ns[0]) + SumCharged(ns[1..])
  }

  lemma {:induction false} NaturalSum(ns: seq<int>)
    requires Naturals(ns)
    ensures Sum(ns) >= 0
    ensures forall i :: 0 <= i < |ns| ==> ns[i] <= Sum(ns)
  {
    if ns != [] {
      NaturalSum(ns[1..]);
      forall i | 0 <= i < |ns| ensures ns[i] <= Sum(ns) {
        assert i > 0 ==> ns[i] == ns[1..][i - 1];
      }
    }
  }

  /** Without the misrounded numerator each piece is off by less than half a unit below, at most half above. */
  lemma {:induction false} PieceErrors(ns: seq<int>)
    requires Naturals(ns) && MISROUNDED !in ns
    ensures -1799 * |ns| <= SECONDS_PER_HOUR * SumCharged(ns) - Sum(ns) <= 1800 * |ns|
  {
    if ns != [] {
      HalfUpIsNearest(ns[0], HalfUp(ns[0]));
      PieceErrors(ns[1..]);
    }
  }

  lemma {:induction false} SmallPiecesAreFree(ns: seq<int>)
    requires Naturals(ns) && Sum(ns) < 1800
    ensures SumCharged(ns) == 0
  {
    if ns != [] {
      NaturalSum(ns);
      NaturalSum(ns[1..]);
      SmallPiecesAreFree(ns[1..]);
    }
  }

  /** Beside the misrounded numerator there is no room for another piece that costs anything. */
  lemma {:induction false} MisroundedPiece(ns: seq<int>)
    requires Naturals(ns) && MISROUNDED in ns && Safe(Sum(ns))
    ensures Sum(ns) >= 0 && SumCharged(ns) == Charged(MISROUNDED) == Charged(Sum(ns))
  {
    NaturalSum(ns);
    NaturalSum(ns[1..]);
    if ns[0] == MISROUNDED {
      SmallPiecesAreFree(ns[1..]);
    } else {
      assert MISROUNDED in ns[1..];
      MisroundedPiece(ns[1..]);
      NaturalSum(ns[1..]);
    }
  }

  /** Charging k pieces separately differs from one charge for the whole by at most k / 2 units. */
  lemma PiecewiseBound(ns: seq<int>)
    requires ns != [] && Naturals(ns) && Safe(Sum(ns))
    ensures Sum(ns) >= 0 && -|ns| <= 2 * (SumCharged(ns) - Charged(Sum(ns))) <= |ns|
  {
    NaturalSum(ns);
    if MISROUNDED in ns {
      MisroundedPiece(ns);
    } else {
      PieceErrors(ns);
      HalfUpIsNearest(Sum(ns), HalfUp(Sum(ns)));
      if |ns| == 1 {
        assert ns[1..] == [];
      }
    }
  }

  function Numerators(rate: nat, seconds: seq<int>): (ns: seq<int>)
    ensures |ns| == |seconds|
  {
    seq(|seconds|, i requires 0 <= i < |seconds| => rate * seconds[i])
  }

  lemma {:induction false} NumeratorsSum(rate: nat, seconds: seq<int>)
    ensures Sum(Numerators(rate, seconds)) == rate * Sum(seconds)
  {
    if seconds != [] {
      NumeratorsSum(rate, seconds[1..]);
      assert Numerators(rate, seconds)[1..] == Numerators(rate, seconds[1..]);
      assert rate * (seconds[0] + Sum(seconds[1..])) == rate * seconds[0] + rate * Sum(seconds[1..]);
    }
  }

  /** Every piece's charge, or nothing when some piece cannot be charged. */
  function SumOfCharges(rate: int, seconds: seq<int>): Result<int, MoneyError> {
    if seconds == [] then Ok(0)
    else
      match ChargeOf(rate, seconds[0])
      case Err(e) => Err(e)
      case Ok(first) =>
        match SumOfCharges(rate, seconds[1..])
        case Err(e) => Err(e)
        case Ok(rest) => Ok(first + rest)
  }

  lemma {:induction false} SumOfChargesIs(rate: nat, seconds: seq<int>)
    requires forall i :: 0 <= i < |seconds| ==> seconds[i] >= 0
    requires Naturals(Numerators(rate, seconds)) && Safe(Sum(Numerators(rate, seconds)))
    ensures SumOfCharges(rate, seconds) == Ok(SumCharged(Numerators(rate, seconds)))
  {
    if seconds != [] {
      var ns := Numerators(rate, seconds);
      NaturalSum(ns);
      assert ns[1..] == Numerators(rate, seconds[1..]);
      NaturalSum(ns[1..]);
      assert ns[0] == Numerator(rate, seconds[0]);
      SumOfChargesIs(rate, seconds[1..]);
    }
  }

  /**
   Splitting a stay into k pieces at one rate changes the total by at most k / 2 units, whenever the
   whole stay can be charged.
   */
  lemma SplittingBound(rate: int, seconds: seq<int>)
    requires seconds != [] && forall i :: 0 <= i < |seconds| ==> seconds[i] >= 0
    requires ChargeOf(rate, Sum(seconds)).Ok?
    ensures SumOfCharges(rate, seconds).Ok?
    ensures -|seconds| <= 2 * (SumOfCharges(rate, seconds).value - ChargeOf(rate, Sum(seconds)).value) <= |seconds|
  {
    var ns := Numerators(rate, seconds);
    forall i | 0 <= i < |ns| ensures ns[i] >= 0 {
      assert ns[i] == Numerator(rate, seconds[i]);
    }
    NumeratorsSum(rate, seconds);
    SumOfChargesIs(rate, seconds);
    PiecewiseBound(ns);
  }
}
