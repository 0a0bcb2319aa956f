/** `waitForResponseFinish(timeoutMs)` (content.js:518-558): poll the busy
    detector once a second and resolve once three readings in a row say idle,
    or reject with a timeout once the elapsed time passes `timeoutMs`.
    The polls are given as a sequence of readings, each the detector's answer
    and the milliseconds elapsed since the wait began (`Date.now() - start`). */
module ResponseWait {

  datatype Reading = Reading(busy: bool, elapsed: int)

  /** How the promise ends, with the value of `checkCount` when it does;
      `Pending` when the given readings run out before it settles. */
  datatype WaitResult = Resolved(checks: nat) | TimedOut(checks: nat) | Pending

  const DefaultTimeoutMs: int := 300000
  const IdleChecksNeeded: nat := 3

  /** One `tick` after `i` earlier ones, with `idle` consecutive idle
      readings counted so far, and the ticks after it. */
  function WaitFrom(rs: seq<Reading>, i: nat, idle: nat, timeoutMs: int): (r: WaitResult)
    requires i <= |rs|
    // a later tick settles it, on an idle reading if it resolves, past the limit if it times out
    ensures r.Resolved? || r.TimedOut? ==> i < r.checks <= |rs|
    ensures r.Resolved? ==> !rs[r.checks - 1].busy
    ensures r.TimedOut? ==> rs[r.checks - 1].elapsed > timeoutMs
    decreases |rs| - i
  {
    if i == |rs| then Pending
    else
      var idle' := if rs[i].busy then 0 else idle + 1;
      if !rs[i].busy && idle' >= IdleChecksNeeded then Resolved(i + 1)
      else if rs[i].elapsed > timeoutMs then TimedOut(i + 1)
      else WaitFrom(rs, i + 1, idle', timeoutMs)
  }

  /** The outcome of the whole wait: the first tick starts with no idle readings. */
  function WaitOutcome(rs: seq<Reading>, timeoutMs: int): (r: WaitResult)
    ensures r.Resolved? || r.TimedOut? ==> 1 <= r.checks <= |rs|
    ensures r.Resolved? ==> !rs[r.checks - 1].busy
  {
    WaitFrom(rs, 0, 0, timeoutMs)
  }

  /** The tick loop itself, with its two counters. */
  method WaitForResponseFinish(readings: seq<Reading>, timeoutMs: int) returns (result: WaitResult)
    ensures result == WaitOutcome(readings, timeoutMs)
    ensures result.Resolved? || result.TimedOut? ==> 1 <= result.checks <= |readings|
  {
    var consecutiveIdleChecks: nat := 0;
    var checkCount: nat := 0;
    while checkCount < |readings|
      invariant checkCount <= |readings|
      invariant WaitFrom(readings, checkCount, consecutiveIdleChecks, timeoutMs) == WaitOutcome(readings, timeoutMs)
      decreases |readings| - checkCount
    {
      var r := readings[checkCount];
      checkCount := checkCount + 1;
      if !r.busy {
        consecutiveIdleChecks := consecutiveIdleChecks + 1;
        if consecutiveIdleChecks >= IdleChecksNeeded {
          return Resolved(checkCount);
        }
      } else {
        consecutiveIdleChecks := 0;
      }
      if r.elapsed > timeoutMs {
        return TimedOut(checkCount);
      }
    }
    return Pending;
  }

  // ----- what the wait means, stated without the counter -----

  /** Readings `k - 2`, `k - 1` and `k` are all idle. */
  ghost predicate ThreeIdleAt(rs: seq<Reading>, k: int) {
    2 <= k < |rs| && !rs[k - 2].busy && !rs[k - 1].busy && !rs[k].busy
  }

  /** None of the first `n` readings ends the wait. */
  ghost predicate QuietBefore(rs: seq<Reading>, timeoutMs: int, n: int) {
    && 0 <= n <= |rs|
    && forall j :: 0 <= j < n ==> !ThreeIdleAt(rs, j) && rs[j].elapsed <= timeoutMs
  }

  /** The idle readings just before index `i`: what the counter holds. */
  ghost function TrailingIdle(rs: seq<Reading>, i: nat): nat
    requires i <= |rs|
  {
    if i == 0 || rs[i - 1].busy then 0 else TrailingIdle(rs, i - 1) + 1
  }

  lemma TrailingIdleTwo(rs: seq<Reading>, i: nat)
    requires i <= |rs|
    ensures TrailingIdle(rs, i) >= 2 <==> i >= 2 && !rs[i - 1].busy && !rs[i - 2].busy
  {
    if i >= 1 && !rs[i - 1].busy {
      assert TrailingIdle(rs, i) == TrailingIdle(rs, i - 1) + 1;
    }
  }

  lemma TrailingIdleBound(rs: seq<Reading>, timeoutMs: int, i: nat)
    requires i <= |rs| && QuietBefore(rs, timeoutMs, i)
    ensures TrailingIdle(rs, i) <= 2
  {
    if i >= 1 && !rs[i - 1].busy {
      TrailingIdleTwo(rs, i - 1);
      if TrailingIdle(rs, i - 1) >= 2 {
        assert ThreeIdleAt(rs, i - 1);
      }
    }
  }

  /** One tick in terms of the readings alone: with the counter equal to
      the trailing idle readings, the tick resolves on a third idle in a
      row, else times out past the limit, else goes on with the counter
      for the next index. */
  lemma TickStep(rs: seq<Reading>, timeoutMs: int, i: nat)
    requires i < |rs| && QuietBefore(rs, timeoutMs, i)
    ensures WaitFrom(rs, i, TrailingIdle(rs, i), timeoutMs) ==
      if ThreeIdleAt(rs, i) then Resolved(i + 1)
      else if rs[i].elapsed > timeoutMs then TimedOut(i + 1)
      else WaitFrom(rs, i + 1, TrailingIdle(rs, i + 1), timeoutMs)
  {
    TrailingIdleBound(rs, timeoutMs, i);
    TrailingIdleTwo(rs, i);
  }

  lemma {:induction false} WaitFromCharacterized(rs: seq<Reading>, timeoutMs: int, i: nat)
    requires i <= |rs| && QuietBefore(rs, timeoutMs, i)
    ensures var r := WaitFrom(rs, i, TrailingIdle(rs, i), timeoutMs);
      && (r.Resolved? ==> i < r.checks <= |rs| && ThreeIdleAt(rs, r.checks - 1) && QuietBefore(rs, timeoutMs, r.checks - 1))
      && (r.TimedOut? ==> i < r.checks <= |rs| && !ThreeIdleAt(rs, r.checks - 1) &&
                           rs[r.checks - 1].elapsed > timeoutMs && QuietBefore(rs, timeoutMs, r.checks - 1))
      && (r.Pending? ==> QuietBefore(rs, timeoutMs, |rs|))
    decreases |rs| - i
  {
    if i < |rs| {
      TickStep(rs, timeoutMs, i);
      if !ThreeIdleAt(rs, i) && rs[i].elapsed <= timeoutMs {
        assert QuietBefore(rs, timeoutMs, i + 1);
        WaitFromCharacterized(rs, timeoutMs, i + 1);
      }
    }
  }

  /** The wait resolves at check `k + 1` exactly when readings `k - 2..k` are
      idle and nothing settled it earlier; it times out at check `k + 1`
      exactly when reading `k` is past the limit, is not a third idle in a
      row, and nothing settled it earlier; it is still pending exactly when
      no reading settles it. The idle test comes first, so a third idle
      reading resolves even when it is taken after the limit. */
  lemma {:induction false} WaitOutcomeCharacterized(rs: seq<Reading>, timeoutMs: int, k: nat)
    requires k < |rs|
    ensures WaitOutcome(rs, timeoutMs) == Resolved(k + 1) <==>
      ThreeIdleAt(rs, k) && QuietBefore(rs, timeoutMs, k)
    ensures WaitOutcome(rs, timeoutMs) == TimedOut(k + 1) <==>
      !ThreeIdleAt(rs, k) && rs[k].elapsed > timeoutMs && QuietBefore(rs, timeoutMs, k)
    ensures WaitOutcome(rs, timeoutMs).Pending? <==> QuietBefore(rs, timeoutMs, |rs|)
  {
    WaitFromCharacterized(rs, timeoutMs, 0);

  }

  /** No busy reading is needed: three idle readings at the start, the
      first two within the limit, resolve the wait at the third check, so a
      wait that begins before the reply has started ends without ever
      seeing the chat busy. */
  lemma {:induction false} IdleStartResolves(rs: seq<Reading>, timeoutMs: int)
    requires 3 <= |rs| && !rs[0].busy && !rs[1].busy && !rs[2].busy
    requires rs[0].elapsed <= timeoutMs && rs[1].elapsed <= timeoutMs
    ensures WaitOutcome(rs, timeoutMs) == Resolved(3)
  {
    WaitOutcomeCharacterized(rs, timeoutMs, 2);
    assert QuietBefore(rs, timeoutMs, 2);
  }

  /** A busy reading puts resolution at least three checks further off: the
      wait cannot resolve at that reading or at either of the next two. */
  lemma {:induction false} BusyResetsCount(rs: seq<Reading>, timeoutMs: int, k: nat, c: nat)
    requires k < |rs| && rs[k].busy
    requires WaitOutcome(rs, timeoutMs) == Resolved(c)
    ensures c <= k || c > k + 3
  {
    WaitFromCharacterized(rs, timeoutMs, 0);
  }

  /** Rejection happens only on a reading taken after the limit. */
  lemma {:induction false} TimeoutOnlyPastLimit(rs: seq<Reading>, timeoutMs: int, c: nat)
    requires WaitOutcome(rs, timeoutMs) == TimedOut(c)
    ensures 1 <= c <= |rs| && rs[c - 1].elapsed > timeoutMs
  {
    WaitFromCharacterized(rs, timeoutMs, 0);
  }

  /** Once some reading is taken after the limit the wait has settled, one
      way or the other, by then. */
  lemma {:induction false} SettlesByLimit(rs: seq<Reading>, timeoutMs: int, k: nat)
    requires k < |rs| && rs[k].elapsed > timeoutMs
    ensures !WaitOutcome(rs, timeoutMs).Pending?
    ensures WaitOutcome(rs, timeoutMs).checks <= k + 1
  {
    WaitFromCharacterized(rs, timeoutMs, 0);
  }

  /** Readings busy, idle, busy, idle, idle, idle one second apart: the wait
      resolves at the sixth check and is still pending after each of the
      first five. */
  lemma DebounceExample()
    ensures var rs := [Reading(true, 0), Reading(false, 1000), Reading(true, 2000),
                       Reading(false, 3000), Reading(false, 4000), Reading(false, 5000)];
      && WaitOutcome(rs, DefaultTimeoutMs) == Resolved(6)
      && forall n :: 0 <= n < 6 ==> WaitOutcome(rs[..n], DefaultTimeoutMs) == Pending
  {
    var rs := [Reading(true, 0), Reading(false, 1000), Reading(true, 2000),
               Reading(false, 3000), Reading(false, 4000), Reading(false, 5000)];
    WaitOutcomeCharacterized(rs, DefaultTimeoutMs, 5);
    forall n | 0 <= n < 6 ensures WaitOutcome(rs[..n], DefaultTimeoutMs) == Pending {
      var p := rs[..n];
      WaitFromCharacterized(p, DefaultTimeoutMs, 0);
      assert forall j :: 0 <= j < n ==> p[j] == rs[j];
      assert QuietBefore(p, DefaultTimeoutMs, |p|);
    }
  }
}
