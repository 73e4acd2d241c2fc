/** Ticks and nanoseconds. */
module Clock {
  import opened Words

  // ----- a counter that states its own rate -----

  /** A product over a divisor, at 128 bits. */
  function Ratio(a: nat, b: nat, c: nat): nat
    requires c > 0
  {
    a * b / c
  }

  function DirectNs(start: u64, num: u64, den: u64, ticks: u64): u64
    requires den > 0
  {
    Ratio(if ticks <= start then 0 else ticks - start, num, den) % U64_SPAN
  }

  function DirectTicks(start: u64, num: u64, den: u64, ns: u64): u64
    requires num > 0
  {
    SaturatingAdd(start, Ratio(ns, den, num) % U64_SPAN)
  }

  lemma RatioBounds(a: nat, b: nat, c: nat)
    requires c > 0
    ensures Ratio(a, b, c) * c <= a * b < Ratio(a, b, c) * c + c
  {
    var p := a * b;
    assert p == c * (p / c) + p % c;
  }

  lemma MoreTimes(a: nat, b: nat, n: nat)
    requires a <= b
    ensures a * n <= b * n
  {
    assert b * n == a * n + (b - a) * n;
  }

  /** Multiplying by a positive number reflects the order. */
  lemma TimesOrder(a: nat, b: nat, n: nat)
    requires n > 0 && a * n < b * n + n
    ensures a <= b
  {
    if a > b {
      MoreTimes(b + 1, a, n);
      assert false;
    }
  }

  lemma Difference(a: nat, b: nat, n: nat)
    requires b <= a
    ensures (a - b) * n == a * n - b * n
  {
  }

  /** Two truncating divisions in a row lose less than one unit each. */
  lemma TwoDivisions(ns: nat, num: nat, den: nat)
    requires num > 0 && den > 0
    ensures var back := Ratio(Ratio(ns, den, num), num, den);
            back <= ns && (ns - back) * den < num + den
  {
    RatioBounds(ns, den, num);
    RatioBounds(Ratio(ns, den, num), num, den);
    hide Ratio;
    var back := Ratio(Ratio(ns, den, num), num, den);
    TimesOrder(back, ns, den);
    Difference(ns, back, den);
  }

  /**
   The round trip of the self-describing clock, when neither the truncation to 64 bits nor the saturation bites:
   it never exceeds the target and falls short by less than `num / den + 1` nanoseconds.
   */
  lemma DirectRoundTrip(start: u64, num: u64, den: u64, ns: u64)
    requires num > 0 && den > 0
    requires start + Ratio(ns, den, num) <= U64_MAX
    ensures var back := DirectNs(start, num, den, DirectTicks(start, num, den, ns));
            back <= ns && (ns - back) * den < num + den
  {
    TwoDivisions(ns, num, den);
    hide Ratio;
    SmallMod(Ratio(ns, den, num), U64_SPAN);
    SmallMod(Ratio(Ratio(ns, den, num), num, den), U64_SPAN);
  }

  lemma SmallMod(a: nat, n: nat)
    requires a < n
    ensures a % n == a
  {
  }

  /** A counter no faster than a gigahertz is never truncated: its ticks are no more than the nanoseconds. */
  lemma SlowCounterIsNotTruncated(num: u64, den: u64, ns: u64)
    requires 0 < den <= num
    ensures Ratio(ns, den, num) <= ns
  {
    RatioBounds(ns, den, num);
    MoreTimes(den, num, ns);
    hide Ratio;
    assert ns * den <= ns * num;
    TimesOrder(Ratio(ns, den, num), ns, num);
  }

  /** A faster one is truncated exactly when the target is too far off for 64 bits of ticks. */
  lemma TruncatedIff(num: u64, den: u64, ns: u64)
    requires num > 0
    ensures Ratio(ns, den, num) % U64_SPAN != Ratio(ns, den, num) <==> ns * den >= U64_SPAN * num
  {
    RatioBounds(ns, den, num);
    hide Ratio;
    var d := Ratio(ns, den, num);
    if ns * den >= U64_SPAN * num {
      TimesOrder(U64_SPAN, d, num);
    } else {
      if d >= U64_SPAN {
        MoreTimes(U64_SPAN, d, num);
      }
      SmallMod(d, U64_SPAN);
    }
  }

  /** A quotient cut to 64 bits, and how many times it wrapped: not at all exactly when the product fits. */
  lemma CutRatio(product: nat, q: nat, divisor: nat) returns (wraps: nat)
    requires divisor > 0 && q * divisor <= product < q * divisor + divisor
    ensures q == q % U64_SPAN + wraps * U64_SPAN
    ensures wraps == 0 <==> product < U64_SPAN * divisor
  {
    wraps := q / U64_SPAN;
    if q < U64_SPAN {
      MoreTimes(q + 1, U64_SPAN, divisor);
    } else {
      MoreTimes(U64_SPAN, q, divisor);
    }
  }

  /**
   Ticks to nanoseconds by products: the floor of the elapsed ticks times the rate, less 2^64 as often as it does not
   fit, which is never exactly while the product is below 2^64 times the denominator. Before the start it is zero.
   */
  lemma DirectIsFloor(start: u64, num: u64, den: u64, ticks: u64) returns (wraps: nat)
    requires den > 0
    ensures ticks <= start ==> DirectNs(start, num, den, ticks) == 0
    ensures ticks > start ==>
              var product, ns := (ticks - start) * num, DirectNs(start, num, den, ticks) + wraps * U64_SPAN;
              && ns * den <= product < ns * den + den
              && (wraps == 0 <==> product < U64_SPAN * den)
  {
    if ticks <= start {
      wraps := 0;
      RatioBounds(0, num, den);
    } else {
      var d: nat := ticks - start;
      RatioBounds(d, num, den);
      wraps := CutRatio(d * num, Ratio(d, num, den), den);
      hide Ratio;
    }
  }

  /** Nanoseconds to ticks by products: the floor again, wrapped likewise, added to the start but no further than the last tick. */
  lemma DirectTicksIsFloor(start: u64, num: u64, den: u64, ns: u64) returns (elapsed: nat, wraps: nat)
    requires num > 0
    ensures elapsed * num <= ns * den < elapsed * num + num
    ensures wraps == 0 <==> ns * den < U64_SPAN * num
    ensures var cut := elapsed - wraps * U64_SPAN;
            && 0 <= cut < U64_SPAN
            && DirectTicks(start, num, den, ns) == if start + cut <= 0xFFFF_FFFF_FFFF_FFFF then start + cut else 0xFFFF_FFFF_FFFF_FFFF
  {
    elapsed := Ratio(ns, den, num);
    RatioBounds(ns, den, num);
    wraps := CutRatio(ns * den, elapsed, num);
    hide Ratio;
  }

  // ----- a measured counter -----

  /** What the time library gives: never backwards, and zero at the anchor. */
  ghost predicate Conversion(ns: u64 -> u64, start: u64) {
    ns(start) == 0 && forall a: u64, b: u64 :: a <= b ==> ns(a) <= ns(b)
  }

  /** `t` is the first tick, from the anchor on, whose nanoseconds reach the target. */
  ghost predicate IsLeast(ns: u64 -> u64, start: u64, target: u64, t: u64) {
    && start <= t && ns(t) >= target
    && forall a: u64 :: start <= a < t ==> ns(a) < target
  }

  function Power(k: nat): (p: nat)
    ensures p > 0
  {
    if k == 0 then 1 else 2 * Power(k - 1)
  }

  /** The farthest tick the doubling reaches. */
  function Reach(start: u64): u64 {
    SaturatingAdd(start, 0x8000_0000_0000_0000)
  }

  lemma {:induction false} PowerIsMonotone(j: nat, k: nat)
    requires j <= k
    ensures Power(j) <= Power(k)
    decreases k
  {
    if j < k {
      PowerIsMonotone(j, k - 1);
    }
  }

  lemma PowerStarts()
    ensures Power(0) == 1
  {
  }

  lemma PowerDoubles(k: nat)
    ensures Power(k + 1) == 2 * Power(k)
  {
  }

  lemma EightDoublings(k: nat)
    ensures Power(k + 8) == 256 * Power(k)
  {
    assert Power(k + 1) == 2 * Power(k) && Power(k + 2) == 4 * Power(k);
    assert Power(k + 3) == 8 * Power(k) && Power(k + 4) == 16 * Power(k);
    assert Power(k + 5) == 32 * Power(k) && Power(k + 6) == 64 * Power(k);
    assert Power(k + 7) == 128 * Power(k);
  }

  lemma TopPowers()
    ensures Power(64) == U64_SPAN && Power(63) == 0x8000_0000_0000_0000
  {
    EightDoublings(0);
    EightDoublings(8);
    EightDoublings(16);
    EightDoublings(24);
    EightDoublings(32);
    EightDoublings(40);
    EightDoublings(48);
    EightDoublings(56);
    assert Power(64) == 2 * Power(63);
  }

  /** A power of two within 64 bits is at most 2^63, and is 2^63 when doubling it overflows. */
  lemma DoublingStops(k: nat)
    requires Power(k) <= U64_MAX
    ensures Power(k) <= 0x8000_0000_0000_0000
    ensures 2 * Power(k) > U64_MAX ==> Power(k) == 0x8000_0000_0000_0000
  {
    TopPowers();
    if k >= 64 {
      PowerIsMonotone(64, k);
    } else {
      PowerIsMonotone(k, 63);
      if k < 63 {
        PowerIsMonotone(k + 1, 63);
      }
    }
  }

  method Bisect(ns: u64 -> u64, start: u64, target: u64, from: u64, to: u64) returns (ticks: u64)
    requires Conversion(ns, start) && start <= from <= to && ns(to) >= target
    requires forall a: u64 :: start <= a < from ==> ns(a) < target
    ensures ticks <= to && IsLeast(ns, start, target, ticks)
  {
    var lo, hi := from, to;
    while lo < hi
      invariant start <= lo <= hi <= to
      invariant ns(hi) >= target && forall a: u64 :: start <= a < lo ==> ns(a) < target
    {
      var mid := lo + (hi - lo) / 2;
      if ns(mid) < target {
        lo := mid + 1;
      } else {
        hi := mid;
      }
    }
    return lo;
  }

  /**
   The measured half of `ticks_from_ns`: double a span until its end reaches the target, then bisect its upper
   half. The answer is the least tick that reaches the target when one lies within 2^63 ticks of the anchor,
   and the largest tick otherwise.
   */
  method TicksFromNs(ns: u64 -> u64, start: u64, target: u64) returns (ticks: u64)
    requires Conversion(ns, start)
    ensures ns(Reach(start)) >= target ==> IsLeast(ns, start, target, ticks)
    ensures ns(Reach(start)) < target ==> ticks == U64_MAX
    ensures IsLeast(ns, start, target, ticks) <==> ns(Reach(start)) >= target || IsLeast(ns, start, target, U64_MAX)
  {
    var span: u64 := 1;
    ghost var k := 0;
    hide Power;
    PowerStarts();
    while ns(SaturatingAdd(start, span)) < target
      invariant span == Power(k)
      invariant span > 1 ==> ns(SaturatingAdd(start, span / 2)) < target
      decreases U64_MAX - span
    {
      if 2 * span > U64_MAX {
        DoublingStops(k);
        return U64_MAX;
      }
      PowerDoubles(k);
      span := 2 * span;
      k := k + 1;
    }
    DoublingStops(k);
    ticks := Bisect(ns, start, target, SaturatingAdd(start, span / 2), SaturatingAdd(start, span));
  }
}
