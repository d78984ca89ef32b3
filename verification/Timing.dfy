/** Timing arithmetic: the bus timeout exponent and the accumulation of a
    performance counter. */
module Timing {
  import opened Pm4

  // ---- AHB timeout ----

  const HZ_PER_MHZ: nat := 1_000_000
  const ADRENO_AHB_MIN_TIMEOUT_VAL_USEC: nat := 1000
  /** The largest value of the timeout's five bits. */
  const MAX_TIMEOUT_VAL: nat := 31

  function Pow2(k: nat): (p: nat)
    ensures p > k
  {
    if k == 0 then 1 else 2 * Pow2(k - 1)
  }

  /** Position of the highest one bit; all ones, like the kernel's, for 0. */
  function Ilog2(n: nat): nat {
    if n == 0 then TWO32 - 1 else HighBit(n)
  }

  function HighBit(n: nat): (k: nat)
    requires n > 0
    ensures Pow2(k) <= n < Pow2(k + 1) && k < n
  {
    if n == 1 then 0 else HighBit(n / 2) + 1
  }

  predicate IsPowerOf2(n: nat) { n != 0 && Pow2(HighBit(n)) == n }

  lemma {:induction false} Pow2Grows(a: nat, b: nat)
    requires a < b
    ensures 2 * Pow2(a) <= Pow2(b)
    decreases b
  {
    if a < b - 1 { Pow2Grows(a, b - 1); }
  }

  /** `2^k` is the largest power of two below `n`. */
  predicate LargestBelow(k: nat, n: nat) { Pow2(k) < n <= Pow2(k + 1) }

  lemma LargestBelowUnique(j: nat, k: nat, n: nat)
    requires LargestBelow(j, n) && LargestBelow(k, n)
    ensures j == k
  {
    if j < k { Pow2Grows(j, k); }
    if k < j { Pow2Grows(k, j); }
  }

  /** The exponent the calculation arrives at. */
  lemma ExponentBelow(cycles: nat)
    requires 2 <= cycles
    ensures var n := if IsPowerOf2(cycles) then cycles - 1 else cycles;
            n > 0 && LargestBelow(HighBit(n), cycles)
  {
    var h := HighBit(cycles);
    if IsPowerOf2(cycles) {
      var n := cycles - 1;
      if HighBit(n) < h { Pow2Grows(HighBit(n), h); }
      if HighBit(n) > h { Pow2Grows(h, HighBit(n)); }
      if HighBit(n) + 1 < h { Pow2Grows(HighBit(n) + 1, h); }
    }
  }

  /** The timeout, 2^k cycles, fits its field and is long enough. */
  predicate Usable(k: nat, mhz: nat) {
    k <= MAX_TIMEOUT_VAL && ADRENO_AHB_MIN_TIMEOUT_VAL_USEC * mhz <= Pow2(k)
  }

  /** A product of 64-bit unsigned numbers. */
  function Wrap64(n: nat): u64 { n % (TWO32 * TWO32) }

  /** A value `r` is programmed for a timeout of 2^(r+1) cycles.  It is found
      exactly if the largest power of two below the NOC timeout is usable, and
      then the timeout is that power; otherwise the result is 0. */
  method AhbTimeoutVal(hubClkFreq: u64, nocTimeoutUs: u32) returns (r: u32)
    ensures var mhz := hubClkFreq / HZ_PER_MHZ; var cycles := Wrap64(mhz * nocTimeoutUs);
            && (r > 0 ==> LargestBelow(r + 1, cycles) && Usable(r + 1, mhz))
            && (forall k :: 0 < k && LargestBelow(k, cycles) && Usable(k, mhz) ==> r == k - 1 > 0)
  {
    if nocTimeoutUs == 0 {
      NoTimeout(hubClkFreq / HZ_PER_MHZ);
      return 0;
    }
    var mhz := hubClkFreq / HZ_PER_MHZ;
    var cycles := Wrap64(mhz * nocTimeoutUs);
    ghost var all := cycles;
    if IsPowerOf2(cycles) { cycles := cycles - 1; }
    var timeoutVal := Ilog2(cycles);
    if all >= 2 { ExponentBelow(all); } else { TooShort(all); }
    UsableIsLong(mhz, nocTimeoutUs);
    forall k | LargestBelow(k, all) && all >= 2 ensures k == HighBit(cycles) {
      LargestBelowUnique(k, HighBit(cycles), all);
    }
    if timeoutVal > MAX_TIMEOUT_VAL || ADRENO_AHB_MIN_TIMEOUT_VAL_USEC * mhz > Pow2(timeoutVal) {
      return 0;
    }
    return timeoutVal - 1;
  }

  lemma NoTimeout(mhz: nat)
    ensures Wrap64(mhz * 0) == 0 && forall k :: !LargestBelow(k, 0)
  {
  }

  lemma TooShort(cycles: nat)
    requires cycles < 2
    ensures (forall k :: !LargestBelow(k, cycles)) && (cycles == 1 ==> IsPowerOf2(cycles))
  {
  }

  lemma UsableIsLong(mhz: nat, us: nat)
    ensures Wrap64(mhz * us) > 0 ==> mhz > 0
    ensures forall k :: mhz > 0 && Usable(k, mhz) ==> k > 1
  {
    assert Pow2(0) == 1 && Pow2(1) == 2;
  }

  // ---- Counter accumulation ----

  const UINT_MAX: u32 := TWO32 - 1

  /** Ticks since the last reading, as the driver counts them. */
  function Delta(counter: u32, val: u32): u32 {
    if counter == 0 then 0
    else if val >= counter then val - counter
    else UINT_MAX - counter + val
  }

  class Counter {
    var last: u32

    constructor ()
      ensures last == 0
    {
      last := 0;
    }

    /** Ticks since the last reading; `val` is what the register reads, if there
        is a register. */
    method CounterDelta(hasReg: bool, val: u32) returns (r: u32)
      modifies this
      ensures !hasReg ==> r == 0 && last == old(last)
      ensures hasReg ==> r == Delta(old(last), val) && last == val
    {
      if !hasReg { return 0; }
      r := 0;
      if last != 0 {
        if val >= last {
          r := val - last;
        } else {
          r := UINT_MAX - last + val;
        }
      }
      last := val;
    }
  }

  /** What the register reads when the count since power-up is `ticks`. */
  function Reading(ticks: nat): u32 { ticks % TWO32 }

  /** One reading: the count is right exactly without a wrap, and after a reading
      that was not 0. */
  lemma DeltaRightExactly(before: nat, now: nat)
    requires before <= now < before + TWO32
    ensures Delta(Reading(before), Reading(now)) == now - before <==>
              Reading(now) >= Reading(before) && (Reading(before) != 0 || now == before)
  {
    WrapOnce(before, now);
  }

  lemma WrapOnce(before: nat, now: nat)
    requires before <= now < before + TWO32
    ensures Reading(now) == Reading(before) + (now - before) - if Reading(now) < Reading(before) then TWO32 else 0
  {
    var q, e := before / TWO32, now - before;
    var s := Reading(before) + e;
    assert before == q * TWO32 + Reading(before) && now == q * TWO32 + s;
    if s < TWO32 {
      assert now / TWO32 == q;
    } else {
      assert now / TWO32 == q + 1;
    }
  }

  /** The readings at the counts `ticks`: at most one wrap between neighbours, and
      none of them 0. */
  predicate WellRead(ticks: seq<nat>) {
    && (forall i :: 0 <= i < |ticks| ==> Reading(ticks[i]) != 0)
    && (forall i :: 0 <= i < |ticks| - 1 ==> ticks[i] <= ticks[i + 1] < ticks[i] + TWO32)
  }

  /** Sum of the deltas over the readings. */
  function Counted(ticks: seq<nat>): nat {
    if |ticks| <= 1 then 0 else
    var n := |ticks| - 1;
    Counted(ticks[..n]) + Delta(Reading(ticks[n - 1]), Reading(ticks[n]))
  }

  function Wraps(ticks: seq<nat>): nat {
    if |ticks| <= 1 then 0 else
    var n := |ticks| - 1;
    Wraps(ticks[..n]) + if Reading(ticks[n]) < Reading(ticks[n - 1]) then 1 else 0
  }

  /** Over any readings the driver counts every tick, but one less for each wrap. */
  lemma {:induction false} OneTickLostPerWrap(ticks: seq<nat>)
    requires ticks != [] && WellRead(ticks)
    ensures ticks[|ticks| - 1] == ticks[0] + Counted(ticks) + Wraps(ticks)
  {
    if |ticks| > 1 {
      var n := |ticks| - 1;
      assert WellRead(ticks[..n]) by {
        assert forall i :: 0 <= i < n ==> ticks[..n][i] == ticks[i];
      }
      OneTickLostPerWrap(ticks[..n]);
      WrapOnce(ticks[n - 1], ticks[n]);
    }
  }
}
