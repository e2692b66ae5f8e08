/**
 The wait after a return of a record to a URL it left (ADR 0083 section 5),
 in the 64-bit arithmetic of the node, and what it bounds over whole runs.
 */
module Cooldown {
  import opened Basics

  const I64_MIN: int := -0x8000_0000_0000_0000
  const I64_MAX: int := 0x7fff_ffff_ffff_ffff
  const U32_MAX: int := 0xffff_ffff

  type I64 = x: int | I64_MIN <= x <= I64_MAX

  const RETURN_WAIT_BASE_SECS: I64 := 3600
  const RETURN_WAIT_LIMIT_SECS: I64 := 604_800
  const RETURN_COUNT_RESET_SECS: I64 := 2_592_000

  /** The result of a saturating operation. */
  function Saturate(x: int): I64 {
    if x < I64_MIN then I64_MIN else if x > I64_MAX then I64_MAX else x
  }

  function Pow2(n: nat): nat {
    if n == 0 then 1 else 2 * Pow2(n - 1)
  }

  /** The 64-bit result of an operation that does not saturate. */
  function Wrap(x: int): I64 {
    var m := x % 0x1_0000_0000_0000_0000;
    if m > I64_MAX then m - 0x1_0000_0000_0000_0000 else m
  }

  /** `x << s` on an `i64`: the bits that leave the word are lost. */
  function ShiftLeft(x: I64, s: nat): I64 {
    Wrap(x * Pow2(s))
  }

  function Min(a: int, b: int): int {
    if a < b then a else b
  }

  // ── the node's functions ───────────────────────────────────────────────

  /** The count of returns and the time of the last one. */
  datatype ReturnClock = ReturnClock(count: I64, last: Option<I64>)

  function EffectiveReturnCount(c: ReturnClock, now: I64): I64 {
    match c.last
    case Some(last) =>
      if c.count > 0 && Saturate(now - last) < RETURN_COUNT_RESET_SECS then c.count else 0
    case None => 0
  }

  function ReturnCooldownEnd(c: ReturnClock, now: I64): Option<I64> {
    var effective := EffectiveReturnCount(c, now);
    if effective < 1 then None
    else
      var n := effective - 1;
      var shift := Min(if n <= U32_MAX then n else U32_MAX, 20);
      var wait := Min(ShiftLeft(RETURN_WAIT_BASE_SECS, shift), RETURN_WAIT_LIMIT_SECS);
      match c.last
      case Some(last) => Some(Saturate(last + wait))
      case None => None
  }

  predicate Waiting(c: ReturnClock, now: I64) {
    var end := ReturnCooldownEnd(c, now);
    end.Some? && end.value > now
  }

  /** The count and the time that a return stores. */
  function NextReturnValues(c: ReturnClock, now: I64): ReturnClock {
    ReturnClock(Saturate(EffectiveReturnCount(c, now) + 1), Some(now))
  }

  // ── the wait in unbounded arithmetic ───────────────────────────────────

  /** The table of ADR 0083 section 5: 1 hour, doubled, at most 7 days. */
  function IdealWait(count: nat): int
    requires count >= 1
  {
    Min(3600 * Pow2(count - 1), 604_800)
  }

  lemma {:induction false} Pow2Grows(m: nat, n: nat)
    requires m <= n
    ensures Pow2(m) <= Pow2(n)
    decreases n
  {
    if m < n { Pow2Grows(m, n - 1); }
  }

  lemma Pow2Known()
    ensures Pow2(7) == 128 && Pow2(8) == 256 && Pow2(20) == 0x10_0000
  {
    assert Pow2(4) == 16;
    assert Pow2(8) == 256;
    assert Pow2(12) == 4096;
    assert Pow2(16) == 65536;
  }

  lemma IdealWaitGrows(m: nat, n: nat)
    requires 1 <= m <= n
    ensures 3600 <= IdealWait(m) <= IdealWait(n) <= 604_800
  {
    Pow2Grows(0, m - 1);
    Pow2Grows(m - 1, n - 1);
  }

  lemma IdealWaitAtLimit(n: nat)
    requires n >= 9
    ensures IdealWait(n) == 604_800
  {
    Pow2Known();
    Pow2Grows(8, n - 1);
  }

  lemma ShiftFits(s: nat)
    requires s <= 20
    ensures ShiftLeft(RETURN_WAIT_BASE_SECS, s) == 3600 * Pow2(s)
  {
    hide Pow2;
    Pow2Known();
    Pow2Grows(s, 20);
  }

  /** The capped shift gives the wait of the table. */
  lemma WaitOfShift(n: nat)
    ensures Min(ShiftLeft(RETURN_WAIT_BASE_SECS, Min(if n <= U32_MAX then n else U32_MAX, 20)), RETURN_WAIT_LIMIT_SECS) ==
            IdealWait(n + 1)
  {
    hide Pow2, ShiftLeft;
    if n <= 20 {
      ShiftFits(n);
    } else {
      ShiftFits(20);
      Pow2Known();
      Pow2Grows(20, n);
    }
  }

  /**
   The cap of the shift at 20 changes no wait, and the shift never overflows:
   for every stored count the end of the wait is the table entry of ADR 0083
   added to the last return.
   */
  lemma CooldownEndExact(c: ReturnClock, now: I64)
    ensures EffectiveReturnCount(c, now) < 1 ==> ReturnCooldownEnd(c, now) == None
    ensures EffectiveReturnCount(c, now) >= 1 ==>
              && c.last.Some?
              && EffectiveReturnCount(c, now) == c.count
              && ReturnCooldownEnd(c, now) == Some(Saturate(c.last.value + IdealWait(c.count)))
  {
    hide ShiftLeft, IdealWait, Min, Saturate;
    if EffectiveReturnCount(c, now) >= 1 {
      WaitOfShift(c.count - 1);
    }
  }

  /** Exactly when a return goes on, with no saturation in the statement. */
  lemma ReturnAllowedExactly(c: ReturnClock, now: I64)
    ensures !Waiting(c, now) <==>
            || c.count <= 0
            || c.last.None?
            || now - c.last.value >= 2_592_000
            || now - c.last.value >= IdealWait(c.count)
            || now == I64_MAX
  {
    CooldownEndExact(c, now);
    if c.count > 0 { IdealWaitGrows(1, c.count); }
  }

  /**
   A return after an earlier return is strictly later, with no assumption on
   the clock, exactly when the earlier time is not the largest `i64`.
   */
  lemma ReturnStrictlyLater(c: ReturnClock, now: I64)
    requires c.count >= 1 && c.last.Some?
    requires !Waiting(c, now)
    ensures now > c.last.value <==> c.last.value < I64_MAX
  {
    ReturnAllowedExactly(c, now);
    IdealWaitGrows(1, c.count);
  }

  /** At the largest `i64` the addition saturates and no wait applies. */
  lemma NoWaitAtTheLastInstant(count: I64)
    requires count >= 1
    ensures !Waiting(ReturnClock(count, Some(I64_MAX)), I64_MAX)
    ensures NextReturnValues(ReturnClock(count, Some(I64_MAX)), I64_MAX).last == Some(I64_MAX)
  {
    CooldownEndExact(ReturnClock(count, Some(I64_MAX)), I64_MAX);
    IdealWaitGrows(1, count);
  }

  // ── runs of returns ────────────────────────────────────────────────────

  /** Each time of `times` is a return that goes on, in sequence from `c`. */
  predicate AcceptedReturns(c: ReturnClock, times: seq<I64>)
    decreases |times|
  {
    times == [] ||
    (!Waiting(c, times[0]) && AcceptedReturns(NextReturnValues(c, times[0]), times[1..]))
  }

  function AfterReturns(c: ReturnClock, times: seq<I64>): ReturnClock
    decreases |times|
  {
    if times == [] then c else AfterReturns(NextReturnValues(c, times[0]), times[1..])
  }

  /** The waits of the counts `k`, `k + 1`, …, `k + n - 1`. */
  function WaitSum(k: nat, n: nat): int
    requires k >= 1
    decreases n
  {
    if n == 0 then 0 else IdealWait(k) + WaitSum(k + 1, n - 1)
  }

  lemma {:induction false} WaitSumGrows(j: nat, k: nat, n: nat)
    requires 1 <= j <= k
    ensures WaitSum(j, n) <= WaitSum(k, n)
    decreases n
  {
    if n > 0 {
      IdealWaitGrows(j, k);
      WaitSumGrows(j + 1, k + 1, n - 1);
    }
  }

  lemma {:induction false} WaitSumAtLimit(k: nat, n: nat)
    requires k >= 9
    ensures WaitSum(k, n) == 604_800 * n
    decreases n
  {
    if n > 0 {
      IdealWaitAtLimit(k);
      WaitSumAtLimit(k + 1, n - 1);
    }
  }

  /** The first eleven waits together pass 30 days; the first ten do not. */
  lemma WaitSumOfEleven()
    ensures WaitSum(1, 11) == 2_732_400 > RETURN_COUNT_RESET_SECS > WaitSum(1, 10) == 2_127_600
  {
    Pow2Known();
    WaitSumAtLimit(9, 3);
    WaitSumAtLimit(9, 2);
    assert WaitSum(8, 4) == 460_800 + WaitSum(9, 3);
    assert WaitSum(8, 3) == 460_800 + WaitSum(9, 2);
    assert Pow2(4) == 16;
    assert WaitSum(5, 7) == 57_600 + 115_200 + 230_400 + WaitSum(8, 4);
    assert WaitSum(5, 6) == 57_600 + 115_200 + 230_400 + WaitSum(8, 3);
    assert WaitSum(1, 11) == 3600 + 7200 + 14_400 + 28_800 + WaitSum(5, 7);
    assert WaitSum(1, 10) == 3600 + 7200 + 14_400 + 28_800 + WaitSum(5, 6);
  }

  /** Two returns in sequence are less than 30 days apart. */
  predicate GapsBelowReset(times: seq<I64>) {
    forall i :: 1 <= i < |times| ==> times[i] - times[i - 1] < RETURN_COUNT_RESET_SECS
  }

  predicate BeforeTheLastInstant(times: seq<I64>) {
    forall i :: 0 <= i < |times| ==> times[i] < I64_MAX
  }

  /** A return adds one to the count, and starts it over when there was none in the 30 days before. */
  lemma NextCountExactly(c: ReturnClock, now: I64)
    ensures NextReturnValues(c, now).last == Some(now)
    ensures NextReturnValues(c, now).count ==
            if c.count <= 0 || c.last.None? || now - c.last.value >= 2_592_000 then 1
            else if c.count == I64_MAX then I64_MAX
            else c.count + 1
  {
  }

  lemma {:induction false} StreakGrows(c: ReturnClock, times: seq<I64>)
    requires c.count >= 1 && c.last.Some? && c.count + |times| <= I64_MAX
    requires GapsBelowReset([c.last.value] + times)
    ensures AfterReturns(c, times).count == c.count + |times|
    decreases |times|
  {
    if times != [] {
      var all := [c.last.value] + times;
      assert all[1] - all[0] < RETURN_COUNT_RESET_SECS;
      NextCountExactly(c, times[0]);
      assert [times[0]] + times[1..] == all[1..];
      StreakGrows(NextReturnValues(c, times[0]), times[1..]);
    }
  }

  /**
   The count of a clock is the number of its returns since the last gap of 30
   days: `k` is the first return after that gap, or the first of all.
   */
  lemma {:induction false} CountIsStreak(c: ReturnClock, times: seq<I64>, k: nat)
    requires k < |times| <= I64_MAX && GapsBelowReset(times[k..])
    requires k > 0 ==> times[k] as int - times[k - 1] >= 2_592_000
    requires k == 0 ==> c.count <= 0 || c.last.None? || times[0] - c.last.value >= 2_592_000
    ensures AfterReturns(c, times).count == |times| - k
    decreases k
  {
    var next := NextReturnValues(c, times[0]);
    NextCountExactly(c, times[0]);
    if k == 0 {
      assert [times[0]] + times[1..] == times[0..];
      StreakGrows(next, times[1..]);
    } else {
      assert times[1..][k - 1..] == times[k..];
      CountIsStreak(next, times[1..], k - 1);
    }
  }

  /** From a clock that holds a count, the returns span at least their waits. */
  lemma {:induction false} SpanFromClock(c: ReturnClock, times: seq<I64>)
    requires c.count >= 1 && c.last.Some?
    requires AcceptedReturns(c, times)
    requires GapsBelowReset([c.last.value] + times) && BeforeTheLastInstant(times)
    ensures times != [] ==> times[|times| - 1] - c.last.value >= WaitSum(c.count, |times|)
    decreases |times|
  {
    hide ReturnCooldownEnd, IdealWait, Pow2, EffectiveReturnCount, NextReturnValues;
    if times != [] {
      var all := [c.last.value] + times;
      assert all[1] - all[0] < RETURN_COUNT_RESET_SECS;
      ReturnAllowedExactly(c, times[0]);
      var next := NextReturnValues(c, times[0]);
      NextCountExactly(c, times[0]);
      assert [times[0]] + times[1..] == all[1..];
      SpanFromClock(next, times[1..]);
      if |times| > 1 {
        if c.count == I64_MAX {
          WaitSumAtLimit(I64_MAX, |times| - 1);
          WaitSumAtLimit(I64_MAX + 1, |times| - 1);
        }
        assert times[1..][|times| - 2] == times[|times| - 1];
      }
    }
  }

  /**
   The back-off bound: `n` returns in sequence, with each gap under 30 days,
   span at least the sum of the first `n - 1` waits of the table, whatever
   count the record had before them.
   */
  lemma ReturnsSpanTheirWaits(c: ReturnClock, times: seq<I64>)
    requires c.count >= 0
    requires AcceptedReturns(c, times) && times != []
    requires GapsBelowReset(times) && BeforeTheLastInstant(times)
    ensures times[|times| - 1] - times[0] >= WaitSum(1, |times| - 1)
  {
    var next := NextReturnValues(c, times[0]);
    assert [times[0]] + times[1..] == times;
    assert 1 <= next.count;
    SpanFromClock(next, times[1..]);
    WaitSumGrows(1, next.count, |times| - 1);
    if |times| > 1 {
      assert times[1..][|times| - 2] == times[|times| - 1];
    }
  }

  /** The times of a run of returns strictly increase. */
  lemma {:induction false} ReturnTimesIncrease(c: ReturnClock, times: seq<I64>, i: nat, j: nat)
    requires c.count >= 0
    requires AcceptedReturns(c, times) && BeforeTheLastInstant(times)
    requires i < j < |times|
    ensures times[i] < times[j]
    decreases j
  {
    var next := NextReturnValues(c, times[0]);
    if i > 0 {
      assert times[1..][i - 1] == times[i] && times[1..][j - 1] == times[j];
      ReturnTimesIncrease(next, times[1..], i - 1, j - 1);
    } else {
      assert times[1..][0] == times[1];
      ReturnStrictlyLater(next, times[1]);
      if j > 1 {
        assert times[1..][j - 1] == times[j];
        ReturnTimesIncrease(next, times[1..], 0, j - 1);
      }
    }
  }

  lemma {:induction false} AcceptedPrefix(c: ReturnClock, times: seq<I64>, n: nat)
    requires AcceptedReturns(c, times) && n <= |times|
    ensures AcceptedReturns(c, times[..n])
    decreases n
  {
    if n > 0 {
      assert times[..n][1..] == times[1..][..n - 1];
      AcceptedPrefix(NextReturnValues(c, times[0]), times[1..], n - 1);
    }
  }

  lemma {:induction false} AcceptedSuffix(c: ReturnClock, times: seq<I64>, n: nat)
    requires AcceptedReturns(c, times) && n <= |times| && c.count >= 0
    ensures AcceptedReturns(AfterReturns(c, times[..n]), times[n..])
    ensures AfterReturns(c, times[..n]).count >= 0
    decreases n
  {
    if n > 0 {
      assert times[..n][1..] == times[1..][..n - 1];
      assert times[1..][n - 1..] == times[n..];
      AcceptedSuffix(NextReturnValues(c, times[0]), times[1..], n - 1);
    } else {
      assert times[..0] == [] && times[0..] == times;
    }
  }

  /**
   Any half-open window of 30 days holds at most 11 returns of a run of
   returns: twelve returns `i`, …, `i + 11` are at least 30 days apart.
   */
  lemma AtMostElevenReturnsInThirtyDays(c: ReturnClock, times: seq<I64>, i: nat)
    requires c.count >= 0
    requires AcceptedReturns(c, times) && BeforeTheLastInstant(times)
    requires i + 11 < |times|
    ensures times[i + 11] - times[i] >= RETURN_COUNT_RESET_SECS
  {
    if times[i + 11] - times[i] < RETURN_COUNT_RESET_SECS {
      AcceptedSuffix(c, times, i);
      var c' := AfterReturns(c, times[..i]);
      AcceptedPrefix(c', times[i..], 12);
      var window := times[i..][..12];
      forall k | 1 <= k < 12
        ensures window[k] - window[k - 1] < RETURN_COUNT_RESET_SECS
      {
        assert window[k] == times[i + k] && window[k - 1] == times[i + k - 1];
        if k > 1 { ReturnTimesIncrease(c, times, i, i + k - 1); }
        if k < 11 { ReturnTimesIncrease(c, times, i + k, i + 11); }
      }
      assert BeforeTheLastInstant(window);
      assert window[11] == times[i + 11] && window[0] == times[i];
      ReturnsSpanTheirWaits(c', window);
      WaitSumOfEleven();
    }
  }

  /** Returns at the earliest times that the waits permit, after one at `t`. */
  lemma {:induction false} EarliestReturns(count: nat, t: nat, n: nat) returns (times: seq<I64>)
    requires 1 <= count && count + n <= 100 && t + 604_800 * n <= 1_000_000_000
    ensures |times| == n && AcceptedReturns(ReturnClock(count, Some(t)), times)
    ensures n > 0 ==> times[n - 1] == t + WaitSum(count, n)
    decreases n
  {
    if n == 0 {
      times := [];
    } else {
      IdealWaitGrows(1, count);
      var next := t + IdealWait(count);
      var c := ReturnClock(count, Some(t));
      ReturnAllowedExactly(c, next);
      assert NextReturnValues(c, next) == ReturnClock(count + 1, Some(next));
      var rest := EarliestReturns(count + 1, next, n - 1);
      times := [next] + rest;
      assert times[1..] == rest;
    }
  }

  /** The bound is tight: eleven returns fit in one window of 30 days. */
  lemma ElevenReturnsCanFit() returns (times: seq<I64>)
    ensures |times| == 11
    ensures AcceptedReturns(ReturnClock(0, None), times)
    ensures times[10] - times[0] < RETURN_COUNT_RESET_SECS
  {
    var rest := EarliestReturns(1, 0, 10);
    WaitSumOfEleven();
    times := [0] + rest;
    assert times[1..] == rest;
  }
}
