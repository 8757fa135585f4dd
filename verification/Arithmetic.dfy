/** Exact-decimal inequalities used by the risk and position components. */
module Arithmetic {

  lemma MulMonotone(a: real, b: real, c: real)
    requires a <= b && c >= 0.0
    ensures a * c <= b * c && c * a <= c * b
  {
  }

  lemma MulAtMost(a: int, b: int, d: int)
    requires a <= b && d >= 0
    ensures a * d <= b * d
  {
  }

  lemma MulStrict(a: real, b: real, c: real)
    requires a < b && c > 0.0
    ensures a * c < b * c && c * a < c * b
  {
  }

  lemma QuotientTimes(a: real, b: real)
    requires b > 0.0
    ensures (a / b) * b == a
  {
  }

  lemma QuotientIsPositive(a: real, b: real)
    requires a > 0.0 && b > 0.0
    ensures a / b > 0.0
  {
    QuotientTimes(a, b);
  }

  lemma Commute3(a: real, b: real, c: real)
    ensures (a * b) * c == (a * c) * b
  {
  }

  lemma ShareIsBounded(share: real, base: real, fraction: real, ceiling: real)
    requires base >= 0.0 && 0.0 <= fraction <= ceiling && share == base * fraction
    ensures 0.0 <= share <= ceiling * base
  {
    MulMonotone(fraction, ceiling, base);
    MulMonotone(0.0, fraction, base);
  }

  lemma ShareIsPositive(share: real, base: real, fraction: real)
    requires base > 0.0 && fraction > 0.0 && share == base * fraction
    ensures share > 0.0
  {
  }

  lemma ShareIsMonotone(share: real, larger: real, base: real, top: real, fraction: real)
    requires base <= top && fraction >= 0.0 && share == base * fraction && larger == top * fraction
    ensures share <= larger
  {
    MulMonotone(base, top, fraction);
  }

  /** A ratio inside a window puts the numerator inside the scaled window. */
  lemma RatioWindow(d: real, unit: real, lo: real, hi: real)
    requires unit > 0.0 && lo <= d / unit <= hi
    ensures lo * unit <= d <= hi * unit
  {
    QuotientTimes(d, unit);
    MulMonotone(lo, d / unit, unit);
    MulMonotone(d / unit, hi, unit);
  }

  /** Being at most a scaled share of a budget is costing at most the scaled budget. */
  lemma ScaledShare(quantity: real, budget: real, unit: real, scale: real)
    requires unit > 0.0
    ensures quantity <= budget / unit * scale <==> quantity * unit <= budget * scale
  {
    var share := budget / unit;
    QuotientTimes(budget, unit);
    Commute3(share, scale, unit);
    if quantity <= share * scale {
      MulMonotone(quantity, share * scale, unit);
    } else {
      MulStrict(share * scale, quantity, unit);
    }
  }

  /** A whole number of steps. */
  function Steps(n: int, step: real): real { n as real * step }

  function FloorTo(raw: real, step: real): real
    requires step > 0.0
  {
    Steps((raw / step).Floor, step)
  }

  /** With `raw` as `ratio` steps: `n` steps fit below it, and `x` steps fit only if they fit below `n`. */
  lemma AroundTheFloor(raw: real, step: real, ratio: real, n: real, x: real)
    requires step > 0.0 && ratio * step == raw && n <= ratio && (x <= n || ratio < x)
    ensures n * step <= raw
    ensures x * step <= raw ==> x * step <= n * step
  {
    MulMonotone(n, ratio, step);
    if x <= n {
      MulMonotone(x, n, step);
    } else {
      MulStrict(ratio, x, step);
    }
  }

  /** Every whole number is at most the floor or strictly above the number floored. */
  lemma FloorSplits(ratio: real, k: int)
    ensures ratio.Floor as real <= ratio
    ensures k as real <= ratio.Floor as real || ratio < k as real
  {
    var n := ratio.Floor;
    assert ratio < n as real + 1.0;
    if k > n {
      assert (n + 1) as real == n as real + 1.0;
      assert (n + 1) as real <= k as real;
    }
  }

  lemma StepsAroundTheFloor(raw: real, step: real, ratio: real, n: int, k: int)
    requires step > 0.0 && ratio * step == raw
    requires n as real <= ratio && (k as real <= n as real || ratio < k as real)
    ensures Steps(n, step) <= raw
    ensures Steps(k, step) <= raw ==> Steps(k, step) <= Steps(n, step)
  {
    AroundTheFloor(raw, step, ratio, n as real, k as real);
  }

  /** Flooring to a step gives the largest multiple of the step that is not above the input. */
  lemma FloorToStep(raw: real, step: real, k: int)
    requires step > 0.0
    ensures FloorTo(raw, step) <= raw
    ensures Steps(k, step) <= raw ==> Steps(k, step) <= FloorTo(raw, step)
  {
    QuotientTimes(raw, step);
    FloorSplits(raw / step, k);
    StepsAroundTheFloor(raw, step, raw / step, (raw / step).Floor, k);
  }

  /** Rounding up to a step gives a multiple of the step that is not below the input. */
  lemma CeilingToStep(raw: real, step: real)
    requires step > 0.0
    ensures Ceiling(raw / step) as real * step >= raw
  {
    QuotientTimes(raw, step);
    MulMonotone(raw / step, Ceiling(raw / step) as real, step);
  }

  lemma CeilingIsLeastWhole(x: real, k: int)
    requires x <= k as real
    ensures Ceiling(x) <= k
  {
  }

  lemma QuotientAtMost(raw: real, step: real, ratio: real, k: real)
    requires step > 0.0 && ratio * step == raw && raw <= k * step
    ensures ratio <= k
  {
    if k < ratio {
      MulStrict(k, ratio, step);
    }
  }

  /** No smaller multiple of the step reaches the input. */
  lemma CeilingIsLeast(raw: real, step: real, k: int)
    requires step > 0.0
    ensures raw <= Steps(k, step) ==> Steps(Ceiling(raw / step), step) <= Steps(k, step)
  {
    if raw <= Steps(k, step) {
      QuotientTimes(raw, step);
      QuotientAtMost(raw, step, raw / step, k as real);
      CeilingIsLeastWhole(raw / step, k);
      MulMonotone(Ceiling(raw / step) as real, k as real, step);
    }
  }

  function Ceiling(x: real): (r: int)
    ensures x <= r as real < x + 1.0
  {
    if x.Floor as real == x then x.Floor else x.Floor + 1
  }
}
