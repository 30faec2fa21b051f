/** Throttling of failed logins: the failure counter and the timed lock of one account. */
module Lockout {
  import opened Wrappers

  const MAX_FAILED_ATTEMPTS: int := 5
  const LOCK_DURATION_MS: int := 900000

  datatype Account = Account(isActive: bool, failedLoginAttempts: int, lockedUntil: Option<int>)

  datatype Outcome = Disabled | Locked | Failed | Succeeded

  datatype Attempt = Attempt(now: int, passwordOk: bool)

  /** registerFailure: the fifth failure in a row starts a lock and the count begins again. */
  function AfterFailure(a: Account, now: int): Account {
    if a.failedLoginAttempts + 1 >= MAX_FAILED_ATTEMPTS
    then a.(failedLoginAttempts := 0, lockedUntil := Some(now + LOCK_DURATION_MS))
    else a.(failedLoginAttempts := a.failedLoginAttempts + 1)
  }

  /** The part of login that decides, on one account. */
  function Login(a: Account, x: Attempt): (Account, Outcome) {
    if !a.isActive then (a, Disabled)
    else if a.lockedUntil.Some? && a.lockedUntil.value > x.now then (a, Locked)
    else if !x.passwordOk then (AfterFailure(a, x.now), Failed)
    else (a.(failedLoginAttempts := 0, lockedUntil := None), Succeeded)
  }

  function Run(a: Account, xs: seq<Attempt>): Account
    decreases |xs|
  {
    if xs == [] then a else Run(Login(a, xs[0]).0, xs[1..])
  }

  /** The instants at which a wrong password was actually checked. */
  function FailureTimes(a: Account, xs: seq<Attempt>): seq<int>
    decreases |xs|
  {
    if xs == [] then []
    else
      var (next, outcome) := Login(a, xs[0]);
      (if outcome.Failed? then [xs[0].now] else []) + FailureTimes(next, xs[1..])
  }

  /** The clock does not go back. */
  ghost predicate Ordered(clock: int, xs: seq<Attempt>)
    decreases |xs|
  {
    xs == [] || (clock <= xs[0].now && Ordered(xs[0].now, xs[1..]))
  }

  ghost predicate NoSuccess(a: Account, xs: seq<Attempt>)
    decreases |xs|
  {
    xs == [] || (!Login(a, xs[0]).1.Succeeded? && NoSuccess(Login(a, xs[0]).0, xs[1..]))
  }

  ghost predicate CounterOk(a: Account) {
    0 <= a.failedLoginAttempts < MAX_FAILED_ATTEMPTS
  }

  /** The stored counter never leaves 0..4. */
  lemma {:induction false} CounterStays(a: Account, xs: seq<Attempt>)
    requires CounterOk(a)
    ensures CounterOk(Run(a, xs))
    decreases |xs|
  {
    if xs != [] {
      CounterStays(Login(a, xs[0]).0, xs[1..]);
    }
  }

  // ----- What one attempt does -----

  /** The account is locked at this instant. */
  predicate LockedAt(a: Account, now: int) {
    a.lockedUntil.Some? && now < a.lockedUntil.value
  }

  /** A right password succeeds exactly on an active account that is not locked, and a lock hides it. */
  lemma LoginDecides(a: Account, x: Attempt)
    ensures Login(a, x).1 == Succeeded <==> a.isActive && !LockedAt(a, x.now) && x.passwordOk
    ensures Login(a, x).1 == Failed <==> a.isActive && !LockedAt(a, x.now) && !x.passwordOk
    ensures Login(a, x).1 == Locked <==> a.isActive && LockedAt(a, x.now)
    ensures Login(a, x).1 == Disabled <==> !a.isActive
  {}

  /**
   A refused attempt changes nothing, a success clears count and lock, and a failure counts up to the fifth,
   which locks the account for fifteen minutes and counts from zero again.
   */
  lemma LoginLeaves(a: Account, x: Attempt)
    requires CounterOk(a)
    ensures var (next, outcome) := Login(a, x);
            && next.isActive == a.isActive
            && (outcome.Disabled? || outcome.Locked? ==> next == a)
            && (outcome.Succeeded? ==> next.failedLoginAttempts == 0 && next.lockedUntil == None)
            && (outcome.Failed? ==>
                  && next.failedLoginAttempts == (a.failedLoginAttempts + 1) % 5
                  && next.lockedUntil == if a.failedLoginAttempts == 4 then Some(x.now + 900000) else a.lockedUntil)
  {}

  function Outcomes(a: Account, xs: seq<Attempt>): (os: seq<Outcome>)
    ensures |os| == |xs|
    decreases |xs|
  {
    if xs == [] then [] else [Login(a, xs[0]).1] + Outcomes(Login(a, xs[0]).0, xs[1..])
  }

  /** Until its lock ends an account lets no attempt through. */
  lemma {:induction false} LockedOut(a: Account, xs: seq<Attempt>, clock: int, k: nat)
    requires Ordered(clock, xs) && k < |xs| && LockedAt(a, xs[k].now)
    ensures Outcomes(a, xs)[k] == if a.isActive then Locked else Disabled
    decreases k
  {
    OrderedPrefix(xs, clock, k);
    if k > 0 {
      assert Login(a, xs[0]).0 == a;
      LockedOut(a, xs[1..], xs[0].now, k - 1);
    }
  }

  lemma {:induction false} OrderedPrefix(xs: seq<Attempt>, clock: int, k: nat)
    requires Ordered(clock, xs) && k < |xs|
    ensures xs[0].now <= xs[k].now
    decreases k
  {
    if k > 0 {
      OrderedPrefix(xs[1..], xs[0].now, k - 1);
    }
  }

  /**
   Over every run, successes included: after the failure that starts a lock, for fifteen minutes no attempt
   is checked, right password or wrong.
   */
  lemma {:induction false} LockHolds(a: Account, xs: seq<Attempt>, clock: int, n: nat, k: nat)
    requires CounterOk(a) && Ordered(clock, xs) && n < k < |xs|
    requires Outcomes(a, xs)[n] == Failed && Run(a, xs[..n]).failedLoginAttempts == 4
    requires xs[k].now < xs[n].now + 900000
    ensures Outcomes(a, xs)[k] == Locked
    decreases n
  {
    var x, rest := xs[0], xs[1..];
    var next := Login(a, x).0;
    assert Outcomes(a, xs)[k] == Outcomes(next, rest)[k - 1];
    LoginLeaves(a, x);
    if n == 0 {
      LockedOut(next, rest, x.now, k - 1);
    } else {
      assert xs[..n][1..] == rest[..n - 1];
      LockHolds(next, rest, x.now, n - 1, k - 1);
    }
  }

  /** No attempt from now on can be checked before `base`. */
  ghost predicate NotBefore(a: Account, clock: int, base: int) {
    base <= clock || (a.lockedUntil.Some? && base <= a.lockedUntil.value)
  }

  /** From a base, every five checked failures push the next one a lock duration further. */
  lemma {:induction false} FailuresSpread(a: Account, xs: seq<Attempt>, clock: int, base: int, n: nat)
    requires CounterOk(a) && Ordered(clock, xs) && NoSuccess(a, xs) && NotBefore(a, clock, base)
    requires n < |FailureTimes(a, xs)|
    ensures FailureTimes(a, xs)[n] >= base + LOCK_DURATION_MS * ((n + a.failedLoginAttempts) / 5)
    decreases |xs|
  {
    var x, rest := xs[0], xs[1..];
    var (next, outcome) := Login(a, x);
    if !outcome.Failed? {
      assert FailureTimes(a, xs) == FailureTimes(next, rest);
      FailuresSpread(next, rest, x.now, base, n);
    } else if n > 0 {
      assert FailureTimes(a, xs)[n] == FailureTimes(next, rest)[n - 1];
      if a.failedLoginAttempts == 4 {
        FailuresSpread(next, rest, x.now, base + LOCK_DURATION_MS, n - 1);
        assert (n + 4) / 5 == (n - 1) / 5 + 1;
      } else {
        FailuresSpread(next, rest, x.now, base, n - 1);
      }
    } else {
      assert FailureTimes(a, xs)[0] == x.now;
      assert (0 + a.failedLoginAttempts) / 5 == 0;
    }
  }

  /**
   Throttling over every run without a success: between the first checked failure and the n-th there is
   a lock of fifteen minutes for every five failures, those already counted at the start included.
   Indices count from zero.
   */
  lemma {:induction false} FailuresThrottled(a: Account, xs: seq<Attempt>, clock: int, n: nat)
    requires CounterOk(a) && Ordered(clock, xs) && NoSuccess(a, xs) && n < |FailureTimes(a, xs)|
    ensures var times := FailureTimes(a, xs);
            times[n] >= times[0] + 900000 * ((n + a.failedLoginAttempts) / 5)
    decreases |xs|
  {
    var x := xs[0];
    var (next, outcome) := Login(a, x);
    if outcome.Failed? {
      assert Ordered(x.now, xs);
      FailuresSpread(a, xs, x.now, x.now, n);
    } else {
      assert FailureTimes(a, xs) == FailureTimes(next, xs[1..]);
      FailuresThrottled(next, xs[1..], x.now, n);
    }
  }

  // ----- The bound is attained -----

  /** Five wrong passwords at once at every multiple of the lock duration, from attempt i on. */
  function Hammering(i: nat, n: nat): seq<Attempt>
    requires i <= n
    decreases n - i
  {
    if i == n then [] else [Attempt(HammerTime(i), false)] + Hammering(i + 1, n)
  }

  function HammeredAccount(i: nat): Account {
    Account(true, i % 5, if i < 5 then None else Some(HammerTime(i)))
  }

  lemma HammerStep(i: nat)
    ensures Login(HammeredAccount(i), Attempt(HammerTime(i), false)) == (HammeredAccount(i + 1), Failed)
  {
    if i % 5 == 4 {
      assert (i + 1) / 5 == i / 5 + 1 && (i + 1) % 5 == 0;
    } else {
      assert (i + 1) / 5 == i / 5 && (i + 1) % 5 == i % 5 + 1;
    }
  }

  /** Attempt number k of the run, all of which fail. */
  function HammerTime(k: int): int {
    LOCK_DURATION_MS * (k / 5)
  }

  lemma {:induction false} HammeringFails(i: nat, n: nat)
    requires i <= n
    ensures FailureTimes(HammeredAccount(i), Hammering(i, n)) == HammerTimes(i, n)
    decreases n - i
  {
    if i < n {
      HammerStep(i);
      HammeringFails(i + 1, n);
      assert Hammering(i, n)[1..] == Hammering(i + 1, n);
    }
  }

  function HammerTimes(i: nat, n: nat): seq<int>
    requires i <= n
    decreases n - i
  {
    if i == n then [] else [HammerTime(i)] + HammerTimes(i + 1, n)
  }

  lemma {:induction false} HammerTimesAre(i: nat, n: nat, k: nat)
    requires i <= k < n
    ensures |HammerTimes(i, n)| == n - i && HammerTimes(i, n)[k - i] == HammerTime(k)
    decreases n - i
  {
    if i < k {
      HammerTimesAre(i + 1, n, k);
    } else if i + 1 < n {
      HammerTimesAre(i + 1, n, i + 1);
    }
  }

  /** No better bound holds: from a fresh account some run meets it at every failure. */
  lemma BoundAttained(n: nat, k: nat)
    requires k < n
    ensures var times := FailureTimes(Account(true, 0, None), Hammering(0, n));
            |times| == n && times[0] == 0 && times[k] == times[0] + 900000 * (k / 5)
  {
    HammeringFails(0, n);
    HammerTimesAre(0, n, k);
    HammerTimesAre(0, n, 0);
  }

  /** The stored row and the login method that updates it. */
  class AccountRow {
    var isActive: bool
    var failedLoginAttempts: int
    var lockedUntil: Option<int>

    constructor ()
      ensures Valid() && Current() == Account(true, 0, None)
    {
      isActive, failedLoginAttempts, lockedUntil := true, 0, None;
    }

    function Current(): Account
      reads this
    {
      Account(isActive, failedLoginAttempts, lockedUntil)
    }

    /** The counter is in 0..4. */
    ghost predicate Valid()
      reads this
    {
      CounterOk(Current())
    }

    method TryLogin(now: int, passwordOk: bool) returns (outcome: Outcome)
      requires Valid()
      modifies this
      ensures Valid()
      ensures (Current(), outcome) == Login(old(Current()), Attempt(now, passwordOk))
      ensures outcome == Succeeded <==> isActive && passwordOk && !LockedAt(old(Current()), now)
    {
      if !isActive {
        return Disabled;
      }
      if lockedUntil.Some? && lockedUntil.value > now {
        return Locked;
      }
      if !passwordOk {
        RegisterFailure(now);
        return Failed;
      }
      failedLoginAttempts := 0;
      lockedUntil := None;
      return Succeeded;
    }

    method RegisterFailure(now: int)
      requires Valid()
      modifies this`failedLoginAttempts, this`lockedUntil
      ensures Valid()
      ensures Current() == AfterFailure(old(Current()), now)
    {
      failedLoginAttempts := failedLoginAttempts + 1;
      if failedLoginAttempts >= MAX_FAILED_ATTEMPTS {
        lockedUntil := Some(now + LOCK_DURATION_MS);
        failedLoginAttempts := 0;
      }
    }
  }
}
