/** The transport clock of the filter graph: the shared play head that every node reads,
    the timer period derived from the tempo, and the sub-tick decimation that advances the
    musical position once every eleven timer callbacks. */
module Transport {

  /** The shared play-head object's fields that the graph writes. */
  datatype PlayHead = PlayHead(isPlaying: bool, bpm: int, timeInSeconds: int, ppqPosition: int)

  /** The timer period in milliseconds for a tempo, `100 * (60 / bpm)` taken in integers:
      the largest whole number of milliseconds not above 6000 / bpm. */
  function TimerInterval(bpm: int): (ms: int)
    requires bpm > 0
    ensures ms >= 0
    ensures ms * bpm <= 6000 < (ms + 1) * bpm
  {
    6000 / bpm
  }

  /** The callback's `subTicks = (subTicks > 9 ? 0 : subTicks + 1)`. */
  function NextSubTick(s: int): (r: int)
    requires 0 <= s <= 10
    ensures 0 <= r <= 10
    ensures r == (s + 1) % 11
  {
    if s > 9 then 0 else s + 1
  }

  /** The sub-tick counter after `n` callbacks starting from `s`. */
  function SubTicksAfter(s: int, n: nat): (r: int)
    requires 0 <= s <= 10
    ensures 0 <= r <= 10
  {
    if n == 0 then s else NextSubTick(SubTicksAfter(s, n - 1))
  }

  /** How many of `n` successive callbacks, starting from sub-tick `s`, see a sub-tick of 0
      and so advance `ppqPosition`. */
  function PpqAdvances(s: int, n: nat): nat
    requires 0 <= s <= 10
  {
    if n == 0 then 0 else PpqAdvances(s, n - 1) + (if SubTicksAfter(s, n - 1) == 0 then 1 else 0)
  }

  lemma {:induction false} SubTicksAfterSplit(s: int, a: nat, b: nat)
    requires 0 <= s <= 10
    ensures SubTicksAfter(s, a + b) == SubTicksAfter(SubTicksAfter(s, a), b)
    decreases b
  {
    if b > 0 {
      SubTicksAfterSplit(s, a, b - 1);
    }
  }

  lemma {:induction false} PpqAdvancesSplit(s: int, a: nat, b: nat)
    requires 0 <= s <= 10
    ensures PpqAdvances(s, a + b) == PpqAdvances(s, a) + PpqAdvances(SubTicksAfter(s, a), b)
    decreases b
  {
    if b > 0 {
      PpqAdvancesSplit(s, a, b - 1);
      SubTicksAfterSplit(s, a, b - 1);
    }
  }

  /** Below the wrap point the counter simply counts up. */
  lemma {:induction false} SubTicksCountUp(s: int, n: nat)
    requires 0 <= s && s + n <= 10
    ensures SubTicksAfter(s, n) == s + n
  {
    if n > 0 {
      SubTicksCountUp(s, n - 1);
    }
  }

  lemma {:induction false} NoAdvanceBeforeWrap(s: int, n: nat)
    requires 1 <= s <= 10 && s + n <= 11
    ensures PpqAdvances(s, n) == 0
  {
    if n > 0 {
      NoAdvanceBeforeWrap(s, n - 1);
      SubTicksCountUp(s, n - 1);
    }
  }

  lemma {:induction false} OneAdvanceFromZero(n: nat)
    requires 1 <= n <= 11
    ensures PpqAdvances(0, n) == 1
  {
    if n > 1 {
      OneAdvanceFromZero(n - 1);
      SubTicksCountUp(0, n - 1);
    }
  }

  /** From any sub-tick, the counter is back after 11 callbacks and not before. */
  lemma SubTicksPeriod(s: int, n: nat)
    requires 0 <= s <= 10 && 0 < n <= 11
    ensures SubTicksAfter(s, n) == s <==> n == 11
  {
    if s + n <= 10 {
      SubTicksCountUp(s, n);
    } else {
      SubTicksCountUp(s, 10 - s);
      SubTicksAfterSplit(s, 10 - s, 1);
      SubTicksAfterSplit(s, 11 - s, n - (11 - s));
      SubTicksCountUp(0, n - (11 - s));
    }
  }

  /** Any 11 consecutive callbacks advance the musical position exactly once. */
  lemma OneAdvancePerPeriod(s: int)
    requires 0 <= s <= 10
    ensures PpqAdvances(s, 11) == 1
  {
    if s == 0 {
      OneAdvanceFromZero(11);
    } else {
      NoAdvanceBeforeWrap(s, 11 - s);
      SubTicksCountUp(s, 10 - s);
      SubTicksAfterSplit(s, 10 - s, 1);
      PpqAdvancesSplit(s, 11 - s, s);
      OneAdvanceFromZero(s);
    }
  }

  /** Over `11 * k` callbacks the position advances `k` times and the sub-tick returns. */
  lemma {:induction false} AdvancesOverPeriods(s: int, k: nat)
    requires 0 <= s <= 10
    ensures SubTicksAfter(s, 11 * k) == s
    ensures PpqAdvances(s, 11 * k) == k
  {
    if k > 0 {
      AdvancesOverPeriods(s, k - 1);
      SubTicksAfterSplit(s, 11 * (k - 1), 11);
      PpqAdvancesSplit(s, 11 * (k - 1), 11);
      SubTicksPeriod(s, 11);
      OneAdvancePerPeriod(s);
    }
  }
}
