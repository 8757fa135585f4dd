/** What a regime is, read off the prices: no averages in the statements. */
module RegimeMeaning {
  import opened Common
  import opened Arithmetic
  import opened Regime

  /** The last `n` prices at or before `k`. */
  function Last(v: seq<real>, n: nat, k: nat): seq<real>
    requires n <= k + 1 <= |v|
  {
    v[k + 1 - n..k + 1]
  }

  /** Moving a window on by one price trades its oldest for the newest. */
  lemma WindowSlides(v: seq<real>, n: nat, k: nat)
    requires 0 < n <= k < |v|
    ensures Sum(Last(v, n, k)) - Sum(Last(v, n, k - 1)) == v[k] - v[k - n]
  {
    var long := v[k - n..k + 1];
    assert long == [v[k - n]] + Last(v, n, k);
    assert long == Last(v, n, k - 1) + [v[k]];
    SumConcat([v[k - n]], Last(v, n, k));
    SumConcat(Last(v, n, k - 1), [v[k]]);
  }

  lemma QuotientsCompare(a: real, b: real, n: real)
    requires n > 0.0
    ensures a / n > b / n <==> a > b
  {
    QuotientTimes(a, n);
    QuotientTimes(b, n);
    if a / n > b / n {
      MulStrict(b / n, a / n, n);
    } else {
      MulMonotone(a / n, b / n, n);
    }
  }

  lemma MeanIs(v: seq<real>, n: nat, k: nat)
    requires 0 < n <= k + 1 <= |v|
    ensures Mean(v, n, k) == Sum(Last(v, n, k)) / n as real
  {
  }

  /** An average rises exactly when the newest price is above the one it replaces. */
  lemma MeanRisesIff(v: seq<real>, n: nat, k: nat)
    requires 0 < n <= k < |v|
    ensures Mean(v, n, k) > Mean(v, n, k - 1) <==> v[k] > v[k - n]
    ensures Mean(v, n, k) < Mean(v, n, k - 1) <==> v[k] < v[k - n]
  {
    WindowSlides(v, n, k);
    MeanIs(v, n, k);
    MeanIs(v, n, k - 1);
    QuotientsCompare(Sum(Last(v, n, k)), Sum(Last(v, n, k - 1)), n as real);
    QuotientsCompare(Sum(Last(v, n, k - 1)), Sum(Last(v, n, k)), n as real);
  }

  lemma SharesCompare(a: real, b: real)
    ensures a / 70.0 > b / 200.0 <==> 20.0 * a > 7.0 * b
    ensures a / 70.0 < b / 200.0 <==> 20.0 * a < 7.0 * b
  {
  }

  lemma MiddleAgainstSlow(v: seq<real>, k: nat)
    requires 200 <= k < |v|
    ensures Mean(v, 70, k) > Mean(v, 200, k) <==> 20.0 * Sum(Last(v, 70, k)) > 7.0 * Sum(Last(v, 200, k))
    ensures Mean(v, 70, k) < Mean(v, 200, k) <==> 20.0 * Sum(Last(v, 70, k)) < 7.0 * Sum(Last(v, 200, k))
  {
    MeanIs(v, 70, k);
    MeanIs(v, 200, k);
    SharesCompare(Sum(Last(v, 70, k)), Sum(Last(v, 200, k)));
  }

  /** Up by the three readings, in prices. */
  predicate Rising(v: seq<real>, k: nat)
    requires 200 <= k < |v|
  {
    v[k] > v[k - 200] && v[k] > v[k - 70] && 20.0 * Sum(Last(v, 70, k)) > 7.0 * Sum(Last(v, 200, k))
  }

  predicate Falling(v: seq<real>, k: nat)
    requires 200 <= k < |v|
  {
    v[k] < v[k - 200] && v[k] < v[k - 70] && 20.0 * Sum(Last(v, 70, k)) < 7.0 * Sum(Last(v, 200, k))
  }

  /** The regime is 0 until there are 200 closes before it, then 1 exactly when the price is above those 70
      and 200 closes back and the last 70 average above the last 200, and -1 exactly when all three are
      reversed. */
  lemma RegimeIs(v: seq<real>, k: nat)
    requires k < |v|
    ensures k < 200 ==> RegimeOf(v, k) == 0
    ensures k >= 200 ==> (RegimeOf(v, k) == 1 <==> Rising(v, k)) && (RegimeOf(v, k) == -1 <==> Falling(v, k))
    ensures RegimeOf(v, k) == 0 || RegimeOf(v, k) == 1 || RegimeOf(v, k) == -1
  {
    if k >= 200 {
      MeanRisesIff(v, 200, k);
      MeanRisesIff(v, 70, k);
      MiddleAgainstSlow(v, k);
    }
  }

  // ---- Rising, falling, and turned upside down ----

  lemma {:induction false} SumAtLeast(s: seq<real>, m: real)
    requires forall i :: 0 <= i < |s| ==> s[i] >= m
    ensures Sum(s) >= |s| as real * m
  {
    if s != [] {
      SumAtLeast(s[1..], m);
      assert |s| as real == |s[1..]| as real + 1.0;
      OneMore(|s[1..]| as real, m);
    }
  }

  lemma {:induction false} SumBelow(s: seq<real>, m: real)
    requires forall i :: 0 <= i < |s| ==> s[i] < m
    ensures Sum(s) <= |s| as real * m && (s != [] ==> Sum(s) < |s| as real * m)
  {
    if s != [] {
      SumBelow(s[1..], m);
      assert |s| as real == |s[1..]| as real + 1.0;
      OneMore(|s[1..]| as real, m);
    }
  }

  lemma OneMore(n: real, m: real)
    ensures (n + 1.0) * m == n * m + m
  {
  }

  predicate StrictlyUp(v: seq<real>, k: nat)
    requires 200 <= k < |v|
  {
    forall i, j :: k - 200 <= i < j <= k ==> v[i] < v[j]
  }

  lemma RecentAboveOlder(v: seq<real>, k: nat)
    requires 200 <= k < |v| && StrictlyUp(v, k)
    ensures 20.0 * Sum(Last(v, 70, k)) > 7.0 * Sum(Last(v, 200, k))
  {
    var m, older, recent := v[k - 69], v[k - 199..k - 69], Last(v, 70, k);
    assert Last(v, 200, k) == older + recent;
    SumConcat(older, recent);
    SumBelow(older, m);
    SumAtLeast(recent, m);
    assert |older| as real == 130.0 && |recent| as real == 70.0;
  }

  /** Closes that rise strictly over the last 201 read 1. */
  lemma RisingReadsUp(v: seq<real>, k: nat)
    requires 200 <= k < |v| && StrictlyUp(v, k)
    ensures RegimeOf(v, k) == 1
  {
    RecentAboveOlder(v, k);
    RegimeIs(v, k);
  }

  function Negated(v: seq<real>): seq<real> { seq(|v|, i requires 0 <= i < |v| => -v[i]) }

  lemma {:induction false} SumNegated(v: seq<real>)
    ensures Sum(Negated(v)) == -Sum(v)
  {
    if v != [] {
      assert Negated(v)[1..] == Negated(v[1..]);
      SumNegated(v[1..]);
    }
  }

  /** Turning every price upside down turns the regime. */
  lemma NegatedReadsOpposite(v: seq<real>, k: nat)
    requires k < |v|
    ensures RegimeOf(Negated(v), k) == -RegimeOf(v, k)
  {
    RegimeIs(v, k);
    RegimeIs(Negated(v), k);
    if k >= 200 {
      assert Last(Negated(v), 70, k) == Negated(Last(v, 70, k));
      assert Last(Negated(v), 200, k) == Negated(Last(v, 200, k));
      SumNegated(Last(v, 70, k));
      SumNegated(Last(v, 200, k));
      assert Rising(Negated(v), k) <==> Falling(v, k);
      assert Falling(Negated(v), k) <==> Rising(v, k);
    }
  }

  /** And so closes that fall strictly read -1. */
  lemma FallingReadsDown(v: seq<real>, k: nat)
    requires 200 <= k < |v| && forall i, j :: k - 200 <= i < j <= k ==> v[i] > v[j]
    ensures RegimeOf(v, k) == -1
  {
    var n := Negated(v);
    assert StrictlyUp(n, k);
    RisingReadsUp(n, k);
    NegatedReadsOpposite(v, k);
  }

  // ---- The veto on a series that only rises ----

  predicate ClosesRise(bars: seq<Bar>) { forall i, j :: 0 <= i < j < |bars| ==> bars[i].close < bars[j].close }

  lemma HigherClosesRise(bars: seq<Bar>, step: int)
    requires step > 0 && ClosesRise(bars)
    ensures ClosesRise(HigherFrame(bars, step))
  {
    var closes := HigherFrame(bars, step);
    forall i, j | 0 <= i < j < |closes|
      ensures closes[i].close < closes[j].close
    {
      EndsAscend(i, j, step);
      WholeBuckets(j, |bars|, step);
    }
  }

  /** On bars that only rise, once 201 buckets are whole, the veto lets longs through and refuses shorts. */
  lemma RisingBarsVetoShorts(bars: seq<Bar>, step: int, cut: nat)
    requires VetoStep(step) && Ascending(bars) && ClosesRise(bars)
    requires cut < |bars| && (cut + 1) / step > 200
    ensures !Vetoed(bars, step, bars[cut].time, 1) && Vetoed(bars, step, bars[cut].time, -1)
  {
    NoLookAhead(bars, step, cut);
    HigherClosesRise(bars, step);
    var closes := HigherFrame(bars, step);
    RisingReadsUp(Prices(closes), (cut + 1) / step - 1);
  }
}
