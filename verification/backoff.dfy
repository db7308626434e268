/**
 * The reconnect backoff of the collector: the delay starts at 5 seconds,
 * doubles after each failed connect, is capped at 60 and returns to 5 on a
 * successful connection.
 */
module Backoff {

  const InitialDelay: int := 5
  const MaxDelay: int := 60

  /** `min(delay * 2, max_reconnect_delay)`. */
  function NextDelay(delay: int): (next: int)
    ensures next <= MaxDelay
    ensures next == 2 * delay || next == MaxDelay
    ensures next <= 2 * delay
    ensures delay <= MaxDelay && delay >= 0 ==> delay <= next
  {
    if delay * 2 < MaxDelay then delay * 2 else MaxDelay
  }

  /** The delay after `failures` consecutive failed connects, starting from `delay`. */
  function DelayAfter(delay: int, failures: nat): int
    decreases failures
  {
    if failures == 0 then delay else DelayAfter(NextDelay(delay), failures - 1)
  }

  /** The sleeps taken by `failures` consecutive failed connects, starting from `delay`. */
  function Sleeps(delay: int, failures: nat): (s: seq<int>)
    ensures |s| == failures
    decreases failures
  {
    if failures == 0 then [] else [delay] + Sleeps(NextDelay(delay), failures - 1)
  }

  /** The delays that can ever be current when starting from the initial 5. */
  predicate Reachable(delay: int) {
    delay == 5 || delay == 10 || delay == 20 || delay == 40 || delay == 60
  }

  /** Backing off from a reachable delay stays reachable; so does any number of failures. */
  lemma {:induction false} ReachableClosed(delay: int, failures: nat)
    requires Reachable(delay)
    ensures Reachable(NextDelay(delay))
    ensures Reachable(DelayAfter(delay, failures))
    decreases failures
  {
    if failures > 0 {
      ReachableClosed(NextDelay(delay), failures - 1);
    }
  }

  /** The i-th sleep is the delay after i failures; the last failure leaves the next delay behind. */
  lemma {:induction false} SleepsAreDelays(delay: int, failures: nat)
    ensures forall i :: 0 <= i < failures ==> Sleeps(delay, failures)[i] == DelayAfter(delay, i)
    ensures failures > 0 ==> DelayAfter(delay, failures) == NextDelay(Sleeps(delay, failures)[failures - 1])
    decreases failures
  {
    if failures > 0 {
      SleepsAreDelays(NextDelay(delay), failures - 1);
      var s := Sleeps(delay, failures);
      forall i | 0 <= i < failures ensures s[i] == DelayAfter(delay, i) {
        if i > 0 { assert s[i] == Sleeps(NextDelay(delay), failures - 1)[i - 1]; }
      }
    }
  }

  /**
   * From any delay between 0 and 60, successive sleeps never decrease and never
   * exceed 60; from the first sleep on they are at least the starting delay.
   */
  lemma {:induction false} SleepsMonotoneAndCapped(delay: int, failures: nat)
    requires 0 <= delay <= MaxDelay
    ensures forall i :: 0 <= i < failures ==> delay <= Sleeps(delay, failures)[i] <= MaxDelay
    ensures forall i, j :: 0 <= i <= j < failures ==> Sleeps(delay, failures)[i] <= Sleeps(delay, failures)[j]
    decreases failures
  {
    if failures > 0 {
      var n := NextDelay(delay);
      SleepsMonotoneAndCapped(n, failures - 1);
      var s := Sleeps(delay, failures);
      var t := Sleeps(n, failures - 1);
      assert s == [delay] + t;
      assert delay <= n;
      forall i | 0 <= i < failures ensures delay <= s[i] <= MaxDelay {
        if i > 0 { assert s[i] == t[i - 1]; }
      }
      forall i, j | 0 <= i <= j < failures ensures s[i] <= s[j] {
        if i > 0 { assert s[i] == t[i - 1] && s[j] == t[j - 1]; }
        else if j > 0 { assert s[j] == t[j - 1]; }
      }
    }
  }

  /** An always-failing broker sees 5, 10, 20, 40, 60, 60 and the delay stays at 60. */
  lemma InitialSchedule()
    ensures Sleeps(InitialDelay, 6) == [5, 10, 20, 40, 60, 60]
    ensures DelayAfter(InitialDelay, 6) == MaxDelay
  {
    assert Sleeps(60, 1) == [60];
    assert Sleeps(40, 2) == [40, 60];
  }

  /** Once the cap is reached every further failure keeps it. */
  lemma {:induction false} CapIsStable(failures: nat)
    ensures DelayAfter(MaxDelay, failures) == MaxDelay
    ensures forall i :: 0 <= i < failures ==> Sleeps(MaxDelay, failures)[i] == MaxDelay
    decreases failures
  {
    if failures > 0 {
      CapIsStable(failures - 1);
      assert Sleeps(MaxDelay, failures) == [MaxDelay] + Sleeps(MaxDelay, failures - 1);
    }
  }

  /** One more failure appends the current delay to the sleeps and backs off once more. */
  lemma {:induction false} OneMoreFailure(delay: int, failures: nat)
    ensures Sleeps(delay, failures + 1) == Sleeps(delay, failures) + [DelayAfter(delay, failures)]
    ensures DelayAfter(delay, failures + 1) == NextDelay(DelayAfter(delay, failures))
    decreases failures
  {
    if failures > 0 {
      OneMoreFailure(NextDelay(delay), failures - 1);
    }
  }
}
