/** Waiting for a launched bastion to connect: a retry loop whose delays decay. Durations are reals, in seconds. */
module Connect {

  const CONNECT_WAIT_TIMEOUT: real := 60.0
  const CONNECT_WAIT_DECAY: real := 0.1
  const CONNECT_ATTEMPTS: nat := 50
  const SHORTEST_WAIT: real := 5.0

  function Pow(x: real, n: nat): real {
    if n == 0 then 1.0 else x * Pow(x, n - 1)
  }

  /** The delay after a failed attempt. */
  function Decay(attempt: nat): real {
    var d := CONNECT_WAIT_TIMEOUT * Pow(1.0 - CONNECT_WAIT_DECAY, attempt);
    if d < SHORTEST_WAIT then SHORTEST_WAIT else d
  }

  /** The delays after the first `n` attempts. */
  function TotalSleep(n: nat): real {
    if n == 0 then 0.0 else TotalSleep(n - 1) + Decay(n)
  }

  datatype Outcome = Connected | TimedOut

  /** `answer(k)` is whether the k-th poll finds the bastion active and its checker registered. The loop polls at most
      fifty times, stops at the first positive answer, and sleeps after every negative one. */
  method WaitConnect(answer: nat -> bool) returns (outcome: Outcome, polls: nat, slept: real)
    ensures 1 <= polls <= 50
    ensures forall k | 1 <= k < polls :: !answer(k)
    ensures outcome.Connected? <==> answer(polls)
    ensures outcome.TimedOut? ==> polls == 50
    ensures slept == TotalSleep(if outcome.Connected? then polls - 1 else polls)
  {
    var attempts := 1;
    polls, slept := 0, 0.0;
    while true
      invariant 1 <= attempts <= CONNECT_ATTEMPTS + 1 && polls == attempts - 1
      invariant forall k | 1 <= k < attempts :: !answer(k)
      invariant slept == TotalSleep(attempts - 1)
      decreases CONNECT_ATTEMPTS + 1 - attempts
    {
      if attempts > CONNECT_ATTEMPTS {
        return TimedOut, polls, slept;
      }
      polls := polls + 1;
      if answer(attempts) {
        return Connected, polls, slept;
      }
      slept := slept + Decay(attempts);
      attempts := attempts + 1;
    }
  }

  lemma {:induction false} PowShrinks(n: nat)
    ensures 0.0 < Pow(0.9, n + 1) <= Pow(0.9, n) <= 1.0
  {
    if n == 0 {
    } else {
      PowShrinks(n - 1);
    }
  }

  /** Delays never grow and never go below five seconds. */
  lemma {:induction false} DelaysNeverGrow(m: nat, n: nat)
    requires m <= n
    ensures 5.0 <= Decay(n) <= Decay(m) <= 60.0
    decreases n - m
  {
    assert 1.0 - CONNECT_WAIT_DECAY == 0.9;
    PowShrinks(m);
    if m < n {
      DelaysNeverGrow(m + 1, n);
    }
  }

  /** For every number of attempts, the sum of the delays is at most that of the geometric series plus five seconds for
      each attempt. */
  lemma {:induction false} TotalSleepBound(n: nat)
    ensures TotalSleep(n) <= 540.0 * (1.0 - Pow(0.9, n)) + 5.0 * (n as real)
  {
    assert 1.0 - CONNECT_WAIT_DECAY == 0.9;
    if n == 0 {
    } else {
      TotalSleepBound(n - 1);
      PowShrinks(n);
      assert Pow(0.9, n) == 0.9 * Pow(0.9, n - 1);
      assert Decay(n) <= 60.0 * Pow(0.9, n) + 5.0;
    }
  }

  lemma {:induction false} PowAdd(m: nat, n: nat)
    ensures Pow(0.9, m + n) == Pow(0.9, m) * Pow(0.9, n)
  {
    if m == 0 {
    } else {
      PowAdd(m - 1, n);
      assert Pow(0.9, m + n) == 0.9 * Pow(0.9, m - 1 + n);
    }
  }

  lemma PowersOfNineTenths()
    ensures 0.0794 < Pow(0.9, 24) < 0.08 && Pow(0.9, 23) > 0.088
  {
    assert Pow(0.9, 2) == 0.81 by { assert Pow(0.9, 1) == 0.9; }
    PowAdd(2, 2);
    PowAdd(4, 4);
    PowAdd(8, 8);
    PowAdd(16, 8);
    assert Pow(0.9, 4) == 0.6561 && Pow(0.9, 8) == 0.43046721;
    assert Pow(0.9, 24) == 0.43046721 * 0.43046721 * 0.43046721;
    assert Pow(0.9, 24) == 0.9 * Pow(0.9, 23);
  }

  /** Before the floor is reached the delays are the geometric series exactly; from the 24th attempt on each is five. */
  lemma {:induction false} SleepBeforeFloor(n: nat)
    requires n <= 23
    ensures TotalSleep(n) == 540.0 * (1.0 - Pow(0.9, n))
  {
    assert 1.0 - CONNECT_WAIT_DECAY == 0.9;
    if n == 0 {
    } else {
      SleepBeforeFloor(n - 1);
      assert Pow(0.9, n) == 0.9 * Pow(0.9, n - 1);
      PowersOfNineTenths();
      PowBetween(n, 23);
    }
  }

  lemma {:induction false} PowBetween(m: nat, n: nat)
    requires m <= n
    ensures Pow(0.9, n) <= Pow(0.9, m)
    decreases n - m
  {
    PowShrinks(m);
    if m < n {
      PowBetween(m + 1, n);
    }
  }

  lemma {:induction false} SleepAfterFloor(n: nat)
    requires n >= 23
    ensures TotalSleep(n) == TotalSleep(23) + 5.0 * ((n - 23) as real)
  {
    assert 1.0 - CONNECT_WAIT_DECAY == 0.9;
    if n == 23 {
    } else {
      SleepAfterFloor(n - 1);
      PowersOfNineTenths();
      PowBetween(24, n);
    }
  }

  /** A launch that times out has slept less than eleven minutes. */
  lemma TimeoutIsUnderElevenMinutes()
    ensures TotalSleep(50) < 11.0 * 60.0
  {
    SleepBeforeFloor(23);
    SleepAfterFloor(CONNECT_ATTEMPTS);
    PowersOfNineTenths();
  }
}
