/** The claim polling loop (src/auth/lease-manager.ts:171-188).

    Times are reals. The clock is read once to bound the attempts and once before each attempt: `clock(0)`,
    then `clock(1)`, `clock(2)`, ... `replies(k)` is the broker's answer to attempt k. */
module ClaimPolling {

  datatype Reply = Granted | NotAuthorizedYet | Refused

  /** `Expired` after giving up, otherwise the answer of the last claim. */
  datatype Outcome = Answered(reply: Reply) | Expired

  function Ceil(x: real): int { -((-x).Floor) }

  function Max(a: int, b: int): int { if a >= b then a else b }

  /** `maxAttempts`, computed from the first reading. */
  function MaxAttempts(first: real, expiresAt: real, interval: real): (n: nat)
    requires interval > 0.0
    ensures n >= 1 && n as real >= (expiresAt - first) / interval + 1.0
  {
    Max(1, Ceil((expiresAt - first) / interval) + 1)
  }

  /** The first `n` attempts are made before the expiry and all answered `not_authorized_yet`. */
  ghost predicate AllPending(expiresAt: real, clock: nat -> real, replies: nat -> Reply, n: nat) {
    && (forall k :: 1 <= k <= n ==> clock(k) < expiresAt)
    && (forall k :: 0 <= k < n ==> replies(k) == NotAuthorizedYet)
  }

  /** Every sleep lets at least one interval pass. */
  ghost predicate Advances(clock: nat -> real, interval: real) {
    forall k: nat {:trigger SleepAdvances(clock, interval, k)} :: k > 0 ==> SleepAdvances(clock, interval, k)
  }

  predicate SleepAdvances(clock: nat -> real, interval: real, k: nat) { clock(k) + interval <= clock(k + 1) }

  ghost predicate GivesUpEarly(expiresAt: real, clock: nat -> real, replies: nat -> Reply, n: nat) {
    AllPending(expiresAt, clock, replies, n) && clock(n + 1) < expiresAt
  }

  /** Never a claim at or after the expiry, never more claims than the bound, whatever the clock does. Polling
      is given up before the expiry exactly when as many attempts as the bound allows were all answered
      `not_authorized_yet` before it. When sleeps advance the clock and it has gone back by at most an interval
      before the first attempt, this never happens: giving up means that the pairing has expired. When it has not
      gone back at all, there is at most one claim for each whole or begun interval that was left. */
  method ClaimUntilAuthorized(expiresAt: real, interval: real, clock: nat -> real, replies: nat -> Reply)
    returns (outcome: Outcome, claims: nat)
    requires interval > 0.0
    ensures claims <= MaxAttempts(clock(0), expiresAt, interval)
    ensures forall k :: 1 <= k <= claims ==> clock(k) < expiresAt
    ensures outcome.Answered? ==>
      claims > 0 && AllPending(expiresAt, clock, replies, claims - 1)
      && outcome.reply == replies(claims - 1) && !outcome.reply.NotAuthorizedYet?
    ensures outcome.Expired? ==>
      AllPending(expiresAt, clock, replies, claims)
      && (clock(claims + 1) >= expiresAt || claims == MaxAttempts(clock(0), expiresAt, interval))
    ensures outcome.Expired? && clock(claims + 1) < expiresAt
       <==> GivesUpEarly(expiresAt, clock, replies, MaxAttempts(clock(0), expiresAt, interval))
    ensures Advances(clock, interval) && clock(0) <= clock(1)
      ==> claims <= Max(0, Ceil((expiresAt - clock(0)) / interval))
    ensures Advances(clock, interval) && clock(0) - interval <= clock(1) && outcome.Expired?
      ==> clock(claims + 1) >= expiresAt
  {
    var maxAttempts := MaxAttempts(clock(0), expiresAt, interval);
    claims := 0;
    while claims < maxAttempts
      invariant claims <= maxAttempts && AllPending(expiresAt, clock, replies, claims)
    {
      if clock(claims + 1) >= expiresAt { break; }
      claims := claims + 1;
      if !replies(claims - 1).NotAuthorizedYet? {
        if Advances(clock, interval) { GivingUpMeansExpired(expiresAt, interval, clock, claims); }
        return Answered(replies(claims - 1)), claims;
      }
    }
    if Advances(clock, interval) { GivingUpMeansExpired(expiresAt, interval, clock, claims); }
    outcome := Expired;
  }

  lemma {:induction false} TimePassed(clock: nat -> real, interval: real, k: nat)
    requires Advances(clock, interval)
    ensures clock(k + 1) >= clock(1) + k as real * interval
  {
    if k > 0 {
      TimePassed(clock, interval, k - 1);
      assert SleepAdvances(clock, interval, k);
      assert (k - 1) as real * interval + interval == k as real * interval;
    }
  }

  lemma CeilReaches(x: real, interval: real, k: int)
    requires interval > 0.0 && k >= Ceil(x / interval)
    ensures k as real * interval >= x
  {
    assert k as real >= x / interval;
    assert (k as real - x / interval) * interval >= 0.0;
    assert x / interval * interval == x;
  }

  /** The bound is the least number of attempts, at least one, whose sleeps in between cover what was left. */
  lemma BoundIsLeast(first: real, expiresAt: real, interval: real)
    requires interval > 0.0
    ensures
      var n := MaxAttempts(first, expiresAt, interval);
      && n >= 1 && (n - 1) as real * interval >= expiresAt - first
      && (n > 1 ==> (n - 2) as real * interval < expiresAt - first)
  {
    var left, n := expiresAt - first, MaxAttempts(first, expiresAt, interval);
    CeilReaches(left, interval, n - 1);
    if n > 1 { BelowCeil(left, interval, n - 2); }
  }

  lemma BelowCeil(x: real, interval: real, k: int)
    requires interval > 0.0 && k < Ceil(x / interval)
    ensures k as real * interval < x
  {
    var y := x / interval;
    assert k as real < y;
    Scaled(k as real, y, interval);
    assert y * interval == x;
  }

  lemma Scaled(a: real, b: real, interval: real)
    requires interval > 0.0 && a < b
    ensures a * interval < b * interval
  {
    assert (b - a) * interval > 0.0;
  }

  lemma GivingUpMeansExpired(expiresAt: real, interval: real, clock: nat -> real, claims: nat)
    requires interval > 0.0 && Advances(clock, interval)
    requires forall k :: 1 <= k <= claims ==> clock(k) < expiresAt
    ensures clock(0) <= clock(1) ==> claims <= Max(0, Ceil((expiresAt - clock(0)) / interval))
    ensures clock(0) - interval <= clock(1) && claims == MaxAttempts(clock(0), expiresAt, interval)
      ==> clock(claims + 1) >= expiresAt
  {
    var left := expiresAt - clock(0);
    var needed := Ceil(left / interval);
    if claims > Max(0, needed) {
      TimePassed(clock, interval, claims - 1);
      CeilReaches(left, interval, claims - 1);
    }
    if claims == MaxAttempts(clock(0), expiresAt, interval) {
      TimePassed(clock, interval, claims);
      CeilReaches(left, interval, claims - 1);
      assert (claims - 1) as real * interval + interval == claims as real * interval;
    }
  }

  /** Sleeps that do not advance the clock: two pending attempts at time 0, and the pairing is given up before 1. */
  lemma StoppedClockGivesUpEarly(clock: nat -> real, replies: nat -> Reply)
    requires forall k: nat :: clock(k) == 0.0 && replies(k) == NotAuthorizedYet
    ensures GivesUpEarly(1.0, clock, replies, MaxAttempts(clock(0), 1.0, 1.0))
  {}

  /** Every sleep advances the clock by its interval, but before the first attempt it has gone back by nine. */
  lemma ClockSetBackGivesUpEarly(clock: nat -> real, replies: nat -> Reply)
    requires clock(0) == 0.0 && forall k: nat :: k > 0 ==> clock(k) == k as real - 10.0
    requires forall k: nat :: replies(k) == NotAuthorizedYet
    ensures Advances(clock, 1.0) && GivesUpEarly(1.0, clock, replies, MaxAttempts(clock(0), 1.0, 1.0))
  {}

  /** There are such clocks. */
  lemma PollingGivesUpEarly() returns (stopped: nat -> real, setBack: nat -> real, replies: nat -> Reply)
    ensures GivesUpEarly(1.0, stopped, replies, MaxAttempts(stopped(0), 1.0, 1.0))
    ensures Advances(setBack, 1.0) && GivesUpEarly(1.0, setBack, replies, MaxAttempts(setBack(0), 1.0, 1.0))
  {
    stopped, setBack, replies := k => 0.0, k => if k == 0 then 0.0 else k as real - 10.0, k => NotAuthorizedYet;
    StoppedClockGivesUpEarly(stopped, replies);
    ClockSetBackGivesUpEarly(setBack, replies);
  }
}
