/** The higher-frame veto: bucketed closes, moving averages, and a binary search at a decision bar. */
module Regime {
  import opened Common
  import opened Arithmetic

  datatype Bar = Bar(time: int, close: real)

  datatype Reading = Reading(time: int, value: int)

  const MIDDLE := 70
  const LONGEST := 200

  /** No bar below this one is ever decided on. */
  const WINDOW := 600

  predicate Ascending(bars: seq<Bar>) { forall i, j :: 0 <= i < j < |bars| ==> bars[i].time < bars[j].time }

  // ---- Buckets ----

  function EndOf(k: int, step: int): int { (k + 1) * step - 1 }

  /** The k-th bucket ends inside the first `m` bars exactly when it is one of their whole buckets. */
  lemma WholeBuckets(k: int, m: int, step: int)
    requires step > 0 && m >= 0
    ensures k < m / step <==> EndOf(k, step) < m
  {
    var q := m / step;
    assert q * step <= m < (q + 1) * step;
    if k < q {
      MulAtMost(k + 1, q, step);
    } else {
      MulAtMost(q + 1, k + 1, step);
    }
  }

  lemma EndsAscend(j: int, k: int, step: int)
    requires step > 0 && 0 <= j < k
    ensures 0 <= EndOf(j, step) < EndOf(k, step)
  {
    MulAtMost(j + 2, k + 1, step);
    MulAtMost(1, j + 1, step);
  }

  /** The last bar of each whole bucket; a partial bucket at the end is dropped. */
  function HigherFrame(bars: seq<Bar>, step: int): seq<Bar>
    requires step > 0
  {
    seq(|bars| / step, k requires 0 <= k < |bars| / step =>
      WholeBuckets(k, |bars|, step);
      EndIsIndex(k, step);
      bars[EndOf(k, step)])
  }

  lemma EndIsIndex(k: int, step: int)
    requires step > 0 && k >= 0
    ensures EndOf(k, step) >= 0
  {
    MulAtMost(1, k + 1, step);
  }

  lemma NextEnd(k: int, step: int)
    ensures EndOf(0, step) == step - 1 && EndOf(k + 1, step) == EndOf(k, step) + step
  {
  }

  method CloseHigherFrame(bars: seq<Bar>, step: int) returns (closes: seq<Bar>)
    requires step > 0
    ensures closes == HigherFrame(bars, step)
  {
    closes := [];
    var start := 0;
    NextEnd(0, step);
    ghost var all := HigherFrame(bars, step);
    while start < |bars| - step + 1
      invariant start + step - 1 == EndOf(|closes|, step) && 0 <= start
      invariant |closes| <= |all| && closes == all[..|closes|]
      decreases |bars| - start
    {
      WholeBuckets(|closes|, |bars|, step);
      NextEnd(|closes|, step);
      closes := closes + [bars[start + step - 1]];
      start := start + step;
    }
    WholeBuckets(|closes|, |bars|, step);
  }

  // ---- Averages and regimes ----

  function Prices(closes: seq<Bar>): seq<real> { seq(|closes|, k requires 0 <= k < |closes| => closes[k].close) }

  function Mean(values: seq<real>, period: int, at: int): real
    requires 0 < period && period - 1 <= at < |values|
  {
    Sum(values[at - period + 1..at + 1]) / period as real
  }

  /** +1 rising, -1 falling, 0 neither, from values at or before `k`. */
  function RegimeOf(values: seq<real>, k: int): int
    requires 0 <= k < |values|
  {
    if k < LONGEST then 0
    else
      var middle, slow := Mean(values, MIDDLE, k), Mean(values, LONGEST, k);
      var middleBefore, slowBefore := Mean(values, MIDDLE, k - 1), Mean(values, LONGEST, k - 1);
      if slow > slowBefore && middle > slow && middle > middleBefore then 1
      else if slow < slowBefore && middle < slow && middle < middleBefore then -1
      else 0
  }

  function Regimes(closes: seq<Bar>): seq<Reading> {
    seq(|closes|, k requires 0 <= k < |closes| => Reading(closes[k].time, RegimeOf(Prices(closes), k)))
  }

  method ReadRegimes(closes: seq<Bar>) returns (readings: seq<Reading>)
    ensures readings == Regimes(closes)
  {
    var values := Prices(closes);
    readings := [];
    for index := 0 to |values|
      invariant readings == Regimes(closes)[..index]
    {
      if index < LONGEST {
        readings := readings + [Reading(closes[index].time, 0)];
      } else {
        var middle, slow := Mean(values, MIDDLE, index), Mean(values, LONGEST, index);
        var middleBefore, slowBefore := Mean(values, MIDDLE, index - 1), Mean(values, LONGEST, index - 1);
        var value := 0;
        if slow > slowBefore && middle > slow && middle > middleBefore {
          value := 1;
        } else if slow < slowBefore && middle < slow && middle < middleBefore {
          value := -1;
        }
        readings := readings + [Reading(closes[index].time, value)];
      }
    }
  }

  // ---- Looking a regime up ----

  predicate ReadingsAscend(readings: seq<Reading>) {
    forall i, j :: 0 <= i < j < |readings| ==> readings[i].time < readings[j].time
  }

  /** The reference: scan back from the end for the last reading at or before the moment. */
  function Scan(readings: seq<Reading>, moment: int): int {
    if readings == [] then 0
    else if readings[|readings| - 1].time <= moment then readings[|readings| - 1].value
    else Scan(readings[..|readings| - 1], moment)
  }

  lemma {:induction false} ScanIs(readings: seq<Reading>, moment: int, n: nat)
    requires n <= |readings|
    requires n > 0 ==> readings[n - 1].time <= moment
    requires forall k :: n <= k < |readings| ==> moment < readings[k].time
    ensures Scan(readings, moment) == if n == 0 then 0 else readings[n - 1].value
  {
    if n < |readings| {
      ScanIs(readings[..|readings| - 1], moment, n);
    }
  }

  /** The binary search finds what the scan finds. */
  method RegimeAt(readings: seq<Reading>, moment: int) returns (value: int)
    requires ReadingsAscend(readings)
    ensures value == Scan(readings, moment)
  {
    var low, high := 0, |readings|;
    while low < high
      invariant 0 <= low <= high <= |readings|
      invariant forall k :: 0 <= k < low ==> readings[k].time <= moment
      invariant forall k :: high <= k < |readings| ==> moment < readings[k].time
    {
      var middle := (low + high) / 2;
      if readings[middle].time <= moment {
        forall k | 0 <= k <= middle
          ensures readings[k].time <= moment
        {
          assert k < middle ==> readings[k].time < readings[middle].time;
        }
        low := middle + 1;
      } else {
        forall k | middle <= k < |readings|
          ensures moment < readings[k].time
        {
          assert middle < k ==> readings[middle].time < readings[k].time;
        }
        high := middle;
      }
    }
    ScanIs(readings, moment, low);
    value := if low > 0 then readings[low - 1].value else 0;
  }

  // ---- No look-ahead ----

  lemma HigherFrameAscends(bars: seq<Bar>, step: int)
    requires step > 0 && Ascending(bars)
    ensures ReadingsAscend(Regimes(HigherFrame(bars, step)))
  {
    var closes := HigherFrame(bars, step);
    forall i, j | 0 <= i < j < |closes|
      ensures closes[i].time < closes[j].time
    {
      EndsAscend(i, j, step);
      WholeBuckets(j, |bars|, step);
    }
  }

  lemma HigherFramePrefix(bars: seq<Bar>, m: nat, step: int)
    requires step > 0 && m <= |bars|
    ensures m / step <= |bars| / step
    ensures HigherFrame(bars[..m], step) == HigherFrame(bars, step)[..m / step]
  {
    forall k | 0 <= k < m / step
      ensures k < |bars| / step && EndOf(k, step) < m
    {
      WholeBuckets(k, m, step);
      WholeBuckets(k, |bars|, step);
    }
    assert m / step <= |bars| / step by {
      if m / step > 0 {
        WholeBuckets(m / step - 1, m, step);
        WholeBuckets(m / step - 1, |bars|, step);
      }
    }
  }

  lemma RegimePrefix(values: seq<real>, n: nat, k: nat)
    requires k < n <= |values|
    ensures RegimeOf(values[..n], k) == RegimeOf(values, k)
  {
    if k >= LONGEST {
      assert values[..n][k - MIDDLE + 1..k + 1] == values[k - MIDDLE + 1..k + 1];
      assert values[..n][k - LONGEST + 1..k + 1] == values[k - LONGEST + 1..k + 1];
      assert values[..n][k - MIDDLE..k] == values[k - MIDDLE..k];
      assert values[..n][k - LONGEST..k] == values[k - LONGEST..k];
    }
  }

  lemma RegimesPrefix(closes: seq<Bar>, n: nat)
    requires n <= |closes|
    ensures Regimes(closes[..n]) == Regimes(closes)[..n]
  {
    assert Prices(closes[..n]) == Prices(closes)[..n];
    forall k | 0 <= k < n
      ensures RegimeOf(Prices(closes[..n]), k) == RegimeOf(Prices(closes), k)
    {
      RegimePrefix(Prices(closes), n, k);
    }
  }

  /** The regime in force at a decision bar, over a given series. */
  function RegimeInForce(bars: seq<Bar>, step: int, moment: int): int
    requires step > 0
  {
    Scan(Regimes(HigherFrame(bars, step)), moment)
  }

  lemma ClosedByIff(bars: seq<Bar>, step: int, cut: nat, k: nat)
    requires step > 0 && Ascending(bars) && cut < |bars| && k < |bars| / step
    ensures HigherFrame(bars, step)[k].time <= bars[cut].time <==> k < (cut + 1) / step
  {
    WholeBuckets(k, cut + 1, step);
    WholeBuckets(k, |bars|, step);
    EndIsIndex(k, step);
    var end := EndOf(k, step);
    assert cut < end ==> bars[cut].time < bars[end].time;
    assert end < cut ==> bars[end].time < bars[cut].time;
  }

  /** The readings at or before bar `cut` are those of the buckets whole by then. */
  lemma ReadingsInForce(bars: seq<Bar>, step: int, cut: nat)
    requires step > 0 && Ascending(bars) && cut < |bars|
    ensures var readings := Regimes(HigherFrame(bars, step));
            var n := (cut + 1) / step;
            && n <= |readings|
            && (forall k :: 0 <= k < n ==> readings[k].time <= bars[cut].time)
            && (forall k :: n <= k < |readings| ==> bars[cut].time < readings[k].time)
  {
    HigherFramePrefix(bars, cut + 1, step);
    forall k | 0 <= k < |bars| / step
      ensures Regimes(HigherFrame(bars, step))[k].time <= bars[cut].time <==> k < (cut + 1) / step
    {
      ClosedByIff(bars, step, cut, k);
    }
  }

  /** Main result. The regime found at a decision bar is the one of the last bucket whole by then,
      and is the one the series cut at that bar would give: nothing after it matters. */
  lemma NoLookAhead(bars: seq<Bar>, step: int, cut: nat)
    requires step > 0 && Ascending(bars) && cut < |bars|
    ensures RegimeInForce(bars, step, bars[cut].time) == RegimeInForce(bars[..cut + 1], step, bars[cut].time)
    ensures var closes := HigherFrame(bars, step);
            var n := (cut + 1) / step;
            && n <= |closes|
            && RegimeInForce(bars, step, bars[cut].time) == if n == 0 then 0 else RegimeOf(Prices(closes), n - 1)
  {
    var moment, n := bars[cut].time, (cut + 1) / step;
    var closes := HigherFrame(bars, step);
    ReadingsInForce(bars, step, cut);
    ScanIs(Regimes(closes), moment, n);
    HigherFramePrefix(bars, cut + 1, step);
    RegimesPrefix(closes, n);
    ScanIs(Regimes(closes)[..n], moment, n);
  }

  /** Two series that agree up to the decision bar agree on the regime there. */
  lemma FutureBarsDoNotMatter(bars: seq<Bar>, other: seq<Bar>, step: int, cut: nat)
    requires step > 0 && Ascending(bars) && Ascending(other) && cut < |bars| && cut < |other|
    requires bars[..cut + 1] == other[..cut + 1]
    ensures RegimeInForce(bars, step, bars[cut].time) == RegimeInForce(other, step, bars[cut].time)
  {
    assert bars[..cut + 1][cut] == other[..cut + 1][cut];
    NoLookAhead(bars, step, cut);
    NoLookAhead(other, step, cut);
  }

  /** The veto as the replay applies it: only when the series has any higher-frame reading at all. */
  predicate Vetoed(bars: seq<Bar>, step: int, moment: int, wanted: int)
    requires step > 0
  {
    Regimes(HigherFrame(bars, step)) != [] && RegimeInForce(bars, step, moment) != wanted
  }

  /** There is a reading as soon as there is a whole bucket. */
  lemma AnyReadingIff(bars: seq<Bar>, step: int)
    requires step > 0
    ensures Regimes(HigherFrame(bars, step)) != [] <==> step <= |bars|
  {
    WholeBuckets(0, |bars|, step);
  }

  lemma SilentBeforeTheFirstBucket(bars: seq<Bar>, step: int, cut: nat)
    requires step > 0 && Ascending(bars) && cut < |bars| && cut + 1 < step
    ensures RegimeInForce(bars, step, bars[cut].time) == 0
  {
    NoLookAhead(bars, step, cut);
    WholeBuckets(0, cut + 1, step);
  }

  /** Whether cutting the series at the decision bar could change the veto: it cannot, if and only if a
      bucket is whole by that bar or none ever is. */
  lemma VetoSettledIff(bars: seq<Bar>, step: int, cut: nat, wanted: int)
    requires step > 0 && Ascending(bars) && cut < |bars| && (wanted == 1 || wanted == -1)
    ensures Vetoed(bars, step, bars[cut].time, wanted) == Vetoed(bars[..cut + 1], step, bars[cut].time, wanted)
            <==> step <= cut + 1 || |bars| < step
  {
    AnyReadingIff(bars, step);
    AnyReadingIff(bars[..cut + 1], step);
    if cut + 1 < step {
      SilentBeforeTheFirstBucket(bars, step, cut);
    } else {
      NoLookAhead(bars, step, cut);
    }
  }

  /** The steps a veto can be asked for: an hour or a day of five-minute bars. */
  predicate VetoStep(step: int) { step == 12 || step == 288 }

  /** Main result. The veto has no look-ahead: no bar below the window is ever decided on, and by then
      a bucket of either step is whole, so the veto is the one the series cut at the bar would give. */
  lemma VetoHasNoLookAhead(bars: seq<Bar>, step: int, cut: nat, wanted: int)
    requires VetoStep(step) && Ascending(bars) && WINDOW <= cut < |bars| && (wanted == 1 || wanted == -1)
    ensures Vetoed(bars, step, bars[cut].time, wanted) == Vetoed(bars[..cut + 1], step, bars[cut].time, wanted)
  {
    VetoSettledIff(bars, step, cut, wanted);
  }

  /** Two series that agree up to the decision bar veto alike there, whatever comes after. */
  lemma LaterBarsDoNotVeto(bars: seq<Bar>, other: seq<Bar>, step: int, cut: nat, wanted: int)
    requires VetoStep(step) && Ascending(bars) && Ascending(other) && (wanted == 1 || wanted == -1)
    requires WINDOW <= cut < |bars| && cut < |other| && bars[..cut + 1] == other[..cut + 1]
    ensures Vetoed(bars, step, bars[cut].time, wanted) == Vetoed(other, step, bars[cut].time, wanted)
  {
    assert bars[..cut + 1][cut] == other[..cut + 1][cut];
    VetoHasNoLookAhead(bars, step, cut, wanted);
    VetoHasNoLookAhead(other, step, cut, wanted);
  }

  /** The whole path from bars to regime, read at a decision bar over the whole series: bucketing,
      averaging and the binary search together give the regime of the series cut at that bar. */
  method RegimeAtBar(bars: seq<Bar>, step: int, cut: nat) returns (regime: int)
    requires step > 0 && Ascending(bars) && cut < |bars|
    ensures regime == RegimeInForce(bars[..cut + 1], step, bars[cut].time)
  {
    var closes := CloseHigherFrame(bars, step);
    var readings := ReadRegimes(closes);
    HigherFrameAscends(bars, step);
    regime := RegimeAt(readings, bars[cut].time);
    NoLookAhead(bars, step, cut);
  }

  /** The veto as the loop takes it, with the readings of the whole series at hand. */
  method DecideVeto(bars: seq<Bar>, step: int, cut: nat, side: Side) returns (vetoed: bool)
    requires VetoStep(step) && Ascending(bars) && WINDOW <= cut < |bars|
    ensures vetoed <==> Vetoed(bars[..cut + 1], step, bars[cut].time, if side == Buy then 1 else -1)
  {
    var closes := CloseHigherFrame(bars, step);
    var readings := ReadRegimes(closes);
    HigherFrameAscends(bars, step);
    var wanted := if side == Buy then 1 else -1;
    VetoHasNoLookAhead(bars, step, cut, wanted);
    vetoed := false;
    if readings != [] {
      var regime := RegimeAt(readings, bars[cut].time);
      vetoed := regime != wanted;
    }
  }
}
