/**
 Publishing with retries on any bus. A failure pattern says which attempts fail.

 The workspace sets no overflow profile, so a development build panics where the backoff
 arithmetic overflows and a release build wraps. `PublishWithRetry` is the former. The latter need
 not end, so it is `Turns`, the state of its loop after any number of turns.
 */
module Retry {
  import opened Arithmetic
  import opened EventBus
  import opened Options

  type u8 = x: int | 0 <= x < 256

  datatype Outcome =
    | Delivered(attempts: nat)
    | DeadLettered(attempts: nat)
    | Overflowed(attempts: nat)

  function SaturatingIncrement(n: u8): u8 { if n < 255 then n + 1 else 255 }

  /** The backoff after the `attempt`-th failure, before it is capped. */
  function Backoff(attempt: nat): nat
    requires attempt >= 1
  {
    50 * Pow2(attempt - 1)
  }

  function Sleep(attempt: nat): nat
    requires attempt >= 1
  {
    if Backoff(attempt) <= 2000 then Backoff(attempt) else 2000
  }

  /** `forall k < n: attempt k fails`. */
  predicate AllFail(fails: nat -> bool, n: nat) { forall k: nat :: k < n ==> fails(k) }

  lemma {:induction false} Pow2Monotone(m: nat, n: nat)
    requires m <= n
    ensures Pow2(m) <= Pow2(n)
    decreases n
  {
    if m < n {
      Pow2Monotone(m, n - 1);
    }
  }

  lemma BigPowers()
    ensures Pow2(58) == 288230376151711744 && Pow2(59) == 576460752303423488
  {
    assert Pow2(14) == 16384 && Pow2(28) == 268435456;
    assert Pow2(42) == 4398046511104;
    assert Pow2(56) == 72057594037927936;
  }

  /** The backoff product fits in 64 bits exactly up to the 59th failure. */
  lemma BackoffFits(attempt: nat)
    requires attempt >= 1
    ensures Backoff(attempt) < WORD <==> attempt <= 59
  {
    BigPowers();
    if attempt <= 59 {
      Pow2Monotone(attempt - 1, 58);
    } else {
      Pow2Monotone(59, attempt - 1);
    }
  }

  /** Sleeps never get shorter and never exceed two seconds. */
  lemma SleepsGrow(j: nat, k: nat)
    requires 1 <= j <= k
    ensures 50 <= Sleep(j) <= Sleep(k) <= 2000
  {
    Pow2Monotone(j - 1, k - 1);
  }

  method PublishWithRetry(fails: nat -> bool, event: Envelope, maxRetries: u8, queue: seq<Envelope>)
    returns (outcome: Outcome, sleeps: seq<nat>, dlq: seq<Envelope>)
    ensures outcome.attempts <= maxRetries + 1
    ensures outcome.Delivered? ==>
              outcome.attempts >= 1 && !fails(outcome.attempts - 1) && AllFail(fails, outcome.attempts - 1)
    ensures outcome.DeadLettered? <==> maxRetries <= 59 && AllFail(fails, maxRetries + 1)
    ensures outcome.DeadLettered? ==> outcome.attempts == maxRetries + 1
    ensures outcome.Overflowed? <==> maxRetries > 59 && AllFail(fails, 60)
    ensures outcome.Overflowed? ==> outcome.attempts == 60
    ensures |sleeps| == outcome.attempts - 1 && forall k :: 0 <= k < |sleeps| ==> sleeps[k] == Sleep(k + 1)
    ensures dlq == if outcome.DeadLettered? then LastN(queue + [event], DLQ_CAPACITY) else queue
  {
    var attempt: u8 := 0;
    sleeps, dlq := [], queue;
    ghost var tried: nat := 0;
    while true
      invariant tried == attempt == |sleeps| <= 59 && attempt <= maxRetries
      invariant AllFail(fails, tried) && dlq == queue
      invariant forall k :: 0 <= k < |sleeps| ==> sleeps[k] == Sleep(k + 1)
      decreases 60 - attempt
    {
      if !fails(attempt as nat) {
        return Delivered(attempt + 1), sleeps, dlq;
      }
      attempt := SaturatingIncrement(attempt);
      tried := tried + 1;
      if attempt > maxRetries {
        dlq := LastN(dlq + [event], DLQ_CAPACITY);
        return DeadLettered(attempt), sleeps, dlq;
      }
      BackoffFits(attempt);
      if attempt - 1 >= 64 || Backoff(attempt) >= WORD {
        return Overflowed(attempt), sleeps, dlq;
      }
      sleeps := sleeps + [if Backoff(attempt) <= 2000 then Backoff(attempt) else 2000];
    }
  }

  // ---------------------------------------------------------------------------------------
  // A release build
  // ---------------------------------------------------------------------------------------

  /** The capped sleep of a shift by less than 64, with the product modulo 2^64. */
  function WrappedCap(shift: nat): nat {
    if 50 * Pow2(shift) % WORD <= 2000 then 50 * Pow2(shift) % WORD else 2000
  }

  /** The sleep after the `attempt`-th failure: shift distances wrap at 64. */
  function WrappedSleep(attempt: nat): nat
    requires attempt >= 1
  {
    WrappedCap((attempt - 1) % 64)
  }

  lemma LowShift(shift: nat)
    requires shift <= 58
    ensures WrappedCap(shift) == Sleep(shift + 1)
  {
    BackoffFits(shift + 1);
  }

  lemma HighPowers()
    ensures Pow2(60) == 1152921504606846976 && Pow2(61) == 2305843009213693952
    ensures Pow2(62) == 4611686018427387904 && Pow2(63) == 9223372036854775808
  {
    BigPowers();
  }

  lemma HighShift(shift: nat)
    requires 59 <= shift <= 63
    ensures WrappedCap(shift) == if shift == 63 then 0 else 2000
  {
    BigPowers();
    HighPowers();
  }

  lemma LongSleep(attempt: nat)
    requires attempt >= 60
    ensures Sleep(attempt) == 2000
  {
    BackoffFits(attempt);
  }

  /** Wrapping is invisible in the capped sleeps, except that every 64th is zero. */
  lemma WrappedSleepIs(attempt: nat)
    requires attempt >= 1
    ensures WrappedSleep(attempt) == if attempt % 64 == 0 then 0 else Sleep(attempt % 64)
  {
    var shift := (attempt - 1) % 64;
    assert attempt % 64 == if shift == 63 then 0 else shift + 1;
    if shift <= 58 {
      LowShift(shift);
    } else {
      HighShift(shift);
      LongSleep(shift + 1);
    }
  }

  lemma EarlySleep(attempt: nat)
    requires 1 <= attempt <= 63
    ensures WrappedSleep(attempt) == Sleep(attempt)
  {
    WrappedSleepIs(attempt);
  }

  lemma WrappedPair(j: nat, k: nat)
    requires 1 <= j <= k <= 63
    ensures 50 <= WrappedSleep(j) <= WrappedSleep(k) <= 2000
  {
    EarlySleep(j);
    EarlySleep(k);
    SleepsGrow(j, k);
  }

  /** The first `n` wrapped sleeps grow from 50 to at most 2000 ms. */
  ghost predicate GrowUpTo(n: nat) {
    forall j, k :: 1 <= j <= k <= n ==> 50 <= WrappedSleep(j) <= WrappedSleep(k) <= 2000
  }

  /** They do so exactly up to the 63rd failure; the 64th sleep is zero. */
  lemma WrappedSleepsGrow(n: nat)
    ensures GrowUpTo(n) <==> n <= 63
    ensures WrappedSleep(64) == 0
  {
    HighShift(63);
    if n <= 63 {
      forall j, k | 1 <= j <= k <= n
        ensures 50 <= WrappedSleep(j) <= WrappedSleep(k) <= 2000
      {
        WrappedPair(j, k);
      }
    } else {
      assert WrappedSleep(64) == 0;
    }
  }

  /** The attempt counter after `n` failures. */
  function AttemptAfter(n: nat): u8 { if n == 0 then 0 else SaturatingIncrement(AttemptAfter(n - 1)) }

  lemma {:induction false} AttemptSaturates(n: nat)
    ensures AttemptAfter(n) == if n < 255 then n else 255
  {
    if n > 0 {
      AttemptSaturates(n - 1);
    }
  }

  function WrappedSleeps(n: nat): (s: seq<nat>)
    ensures |s| == n
  {
    if n == 0 then []
    else
      AttemptSaturates(n);
      WrappedSleeps(n - 1) + [WrappedSleep(AttemptAfter(n))]
  }

  /** The loop: its counter, the sleeps so far, how it ended if it has, and the dead-letter queue. */
  datatype Loop = Loop(attempt: u8, sleeps: seq<nat>, outcome: Option<Outcome>, dlq: seq<Envelope>)

  /** One turn of the loop; every failed attempt but a last one has been followed by a sleep. */
  function Turn(l: Loop, fails: nat -> bool, event: Envelope, maxRetries: u8): Loop {
    if l.outcome.Some? then l
    else if !fails(|l.sleeps|) then l.(outcome := Some(Delivered(|l.sleeps| + 1)))
    else
      var attempt := SaturatingIncrement(l.attempt);
      if attempt > maxRetries then
        l.(attempt := attempt, outcome := Some(DeadLettered(|l.sleeps| + 1)),
           dlq := LastN(l.dlq + [event], DLQ_CAPACITY))
      else l.(attempt := attempt, sleeps := l.sleeps + [WrappedSleep(attempt)])
  }

  function Turns(fails: nat -> bool, event: Envelope, maxRetries: u8, queue: seq<Envelope>, n: nat): Loop {
    if n == 0 then Loop(0, [], None, queue)
    else Turn(Turns(fails, event, maxRetries, queue, n - 1), fails, event, maxRetries)
  }

  /** Another retry is allowed after `n` failures. */
  predicate MayRetry(maxRetries: u8, n: nat) { maxRetries == 255 || n <= maxRetries }

  /** Where the loop is after `n` turns. */
  ghost predicate TurnedOut(
    l: Loop, fails: nat -> bool, event: Envelope, maxRetries: u8, queue: seq<Envelope>, n: nat)
  {
    match l.outcome
    case None =>
      AllFail(fails, n) && MayRetry(maxRetries, n) && l == Loop(AttemptAfter(n), WrappedSleeps(n), None, queue)
    case Some(Delivered(k)) =>
      && 1 <= k <= n && AllFail(fails, k - 1) && !fails(k - 1) && MayRetry(maxRetries, k - 1)
      && l.sleeps == WrappedSleeps(k - 1) && l.dlq == queue
    case Some(DeadLettered(k)) =>
      && maxRetries < 255 && k == maxRetries + 1 <= n && AllFail(fails, k)
      && l.sleeps == WrappedSleeps(maxRetries) && l.dlq == LastN(queue + [event], DLQ_CAPACITY)
    case Some(Overflowed(_)) => false
  }

  lemma TurnKept(l: Loop, fails: nat -> bool, event: Envelope, maxRetries: u8, queue: seq<Envelope>, n: nat)
    requires TurnedOut(l, fails, event, maxRetries, queue, n)
    ensures TurnedOut(Turn(l, fails, event, maxRetries), fails, event, maxRetries, queue, n + 1)
  {
    AttemptSaturates(n);
    AttemptSaturates(n + 1);
    if l.outcome.None? && fails(n) {
      assert AllFail(fails, n + 1);
    }
  }

  /** In a release build, for every failure pattern and any number of turns. */
  lemma {:induction false} ReleaseRun(fails: nat -> bool, event: Envelope, maxRetries: u8, queue: seq<Envelope>, n: nat)
    ensures TurnedOut(Turns(fails, event, maxRetries, queue, n), fails, event, maxRetries, queue, n)
  {
    if n > 0 {
      ReleaseRun(fails, event, maxRetries, queue, n - 1);
      TurnKept(Turns(fails, event, maxRetries, queue, n - 1), fails, event, maxRetries, queue, n - 1);
    }
  }

  /** It dead-letters exactly when `maxRetries + 1` attempts fail, unless that is 256: then it never does. */
  lemma GivesUp(fails: nat -> bool, event: Envelope, maxRetries: u8, queue: seq<Envelope>, n: nat)
    ensures var outcome := Turns(fails, event, maxRetries, queue, n).outcome;
            outcome == Some(DeadLettered(maxRetries + 1)) <==>
              maxRetries < 255 && n > maxRetries && AllFail(fails, maxRetries + 1)
    ensures maxRetries == 255 && AllFail(fails, n) ==> Turns(fails, event, maxRetries, queue, n).outcome.None?
  {
    ReleaseRun(fails, event, maxRetries, queue, n);
  }

  // ---------------------------------------------------------------------------------------
  // The sleeps one by one
  // ---------------------------------------------------------------------------------------

  /** The first sleep is 50 ms, and each doubles the one before up to two seconds. */
  lemma SleepsDouble(attempt: nat)
    requires attempt >= 1
    ensures Sleep(1) == 50
    ensures Sleep(attempt + 1) == if 2 * Sleep(attempt) <= 2000 then 2 * Sleep(attempt) else 2000
  {
    assert Pow2(0) == 1;
    assert Backoff(attempt + 1) == 2 * Backoff(attempt);
  }
}
