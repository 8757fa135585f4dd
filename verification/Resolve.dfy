/** Walking a trade forward until its stop or target is touched, with an optional break-even move
    and an optional add. The harness charges no fees. */
module Resolve {
  import opened Common

  datatype Bar = Bar(high: real, low: real, close: real) {
    predicate Valid() { low <= close <= high }
  }

  datatype Plan = Plan(
    side: Side,
    entry: real,
    stop: real,
    target: real,
    breakevenAt: Option<real>,
    addAt: Option<real>,
    atr: Option<real>)
  {
    function Risk(): real { Gain(side, stop, entry) }

    function Reward(): real { Gain(side, entry, target) }
  }

  datatype Walk = Walk(best: real, worst: real, units: real, weighted: real, stop: real, added: bool, moved: bool)

  datatype Outcome = Loss | Win | Scratch

  /** The returned tuple, with whether the stop had moved by the end. */
  datatype Closing = Closing(
    outcome: Outcome, index: int, best: real, worst: real, units: real, realised: real, moved: bool)

  datatype Step = Closed(outcome: Outcome, walk: Walk, price: real) | Open(walk: Walk)

  /** How far `to` is in front of `from`. */
  function Gain(side: Side, from: real, to: real): real { if side == Buy then to - from else from - to }

  function Realised(side: Side, w: Walk, price: real): real { Gain(side, w.weighted, price) * w.units }

  function Start(p: Plan): Walk { Walk(0.0, 0.0, 1.0, p.entry, p.stop, false, false) }

  /** The add, if its trigger is reached: same size, stop to the weighted entry. */
  function AfterAdd(p: Plan, w: Walk, b: Bar): Walk {
    if w.added || p.addAt.None? || p.atr.None? then w
    else if p.side == Buy then
      var trigger := p.entry + p.addAt.value * p.atr.value;
      if b.high >= trigger then
        var weighted := (p.entry + trigger) / 2.0;
        w.(weighted := weighted, stop := Max(w.stop, weighted), units := 2.0, added := true, moved := true)
      else w
    else
      var trigger := p.entry - p.addAt.value * p.atr.value;
      if b.low <= trigger then
        var weighted := (p.entry + trigger) / 2.0;
        w.(weighted := weighted, stop := Min(w.stop, weighted), units := 2.0, added := true, moved := true)
      else w
  }

  /** The break-even move, if nothing moved the stop before it. */
  function AfterBreakEven(p: Plan, w: Walk, b: Bar): Walk {
    if w.moved || p.breakevenAt.None? || p.Risk() <= 0.0 then w
    else if p.side == Buy then
      if b.high - p.entry >= p.breakevenAt.value * p.Risk() then w.(stop := Max(w.stop, p.entry), moved := true) else w
    else
      if p.entry - b.low >= p.breakevenAt.value * p.Risk() then w.(stop := Min(w.stop, p.entry), moved := true) else w
  }

  /** The bar trades through a price on the losing side, or on the winning side. */
  predicate Stopped(side: Side, b: Bar, stop: real) { if side == Buy then b.low <= stop else b.high >= stop }

  predicate Filled(side: Side, b: Bar, target: real) { if side == Buy then b.high >= target else b.low <= target }

  function Extremes(p: Plan, w: Walk, b: Bar): Walk {
    if p.side == Buy then w.(best := Max(w.best, b.high - p.entry), worst := Min(w.worst, b.low - p.entry))
    else w.(best := Max(w.best, p.entry - b.low), worst := Min(w.worst, p.entry - b.high))
  }

  /** One bar: stop before target, then add, then break-even, then the moved stop on the same bar. */
  function StepBar(p: Plan, w: Walk, b: Bar): Step {
    var seen := Extremes(p, w, b);
    if Stopped(p.side, b, seen.stop) then Closed(Loss, seen, seen.stop)
    else if Filled(p.side, b, p.target) then Closed(Win, seen, p.target)
    else
      var moved := AfterBreakEven(p, AfterAdd(p, seen, b), b);
      if moved.moved && Stopped(p.side, b, moved.stop) then Closed(Loss, moved, moved.stop) else Open(moved)
  }

  function Close(p: Plan, outcome: Outcome, index: int, w: Walk, price: real): Closing {
    Closing(outcome, index, w.best, w.worst, w.units, Realised(p.side, w, price), w.moved)
  }

  /** Python indexing: a negative index counts from the end. */
  function At(bars: seq<Bar>, i: int): Bar
    requires -|bars| <= i < |bars|
  {
    if i >= 0 then bars[i] else bars[|bars| + i]
  }

  function Limit(bars: seq<Bar>, start: int, horizon: nat): int {
    if start + 1 + horizon <= |bars| then start + 1 + horizon else |bars|
  }

  /** Where an unresolved walk is marked. */
  function LastIndex(bars: seq<Bar>, start: int, horizon: nat): int {
    if start + horizon <= |bars| - 1 then start + horizon else |bars| - 1
  }

  /** The walk from bar `i`, as a recursion. */
  function WalkFrom(p: Plan, bars: seq<Bar>, start: int, horizon: nat, i: int, w: Walk): Closing
    requires bars != [] && start >= -1 && i >= 0
    decreases Limit(bars, start, horizon) - i
  {
    if i >= Limit(bars, start, horizon) then
      var last := LastIndex(bars, start, horizon);
      Close(p, Scratch, last, w, At(bars, last).close)
    else
      match StepBar(p, w, bars[i])
      case Closed(outcome, after, price) => Close(p, outcome, i, after, price)
      case Open(after) => WalkFrom(p, bars, start, horizon, i + 1, after)
  }

  function ResolvedBy(p: Plan, bars: seq<Bar>, start: int, horizon: nat): Closing
    requires bars != [] && start >= -1
  {
    WalkFrom(p, bars, start, horizon, start + 1, Start(p))
  }

  /** The loop as it is written. */
  method ResolveTrade(p: Plan, bars: seq<Bar>, start: int, horizon: nat) returns (r: Closing)
    requires bars != [] && start >= -1
    ensures r == ResolvedBy(p, bars, start, horizon)
  {
    var best, worst, units, weighted, stop := 0.0, 0.0, 1.0, p.entry, p.stop;
    var added, moved := false, false;
    var i := start + 1;
    while i < Limit(bars, start, horizon)
      invariant i >= 0
      invariant WalkFrom(p, bars, start, horizon, i, Walk(best, worst, units, weighted, stop, added, moved))
             == ResolvedBy(p, bars, start, horizon)
      decreases Limit(bars, start, horizon) - i
    {
      var b := bars[i];
      var seen := Extremes(p, Walk(best, worst, units, weighted, stop, added, moved), b);
      best, worst := seen.best, seen.worst;
      if Stopped(p.side, b, stop) {
        return Close(p, Loss, i, seen, stop);
      }
      if Filled(p.side, b, p.target) {
        return Close(p, Win, i, seen, p.target);
      }
      var after := AfterBreakEven(p, AfterAdd(p, seen, b), b);
      units, weighted, stop, added, moved := after.units, after.weighted, after.stop, after.added, after.moved;
      if moved && Stopped(p.side, b, stop) {
        return Close(p, Loss, i, after, stop);
      }
      i := i + 1;
    }
    var last := LastIndex(bars, start, horizon);
    r := Close(p, Scratch, last, Walk(best, worst, units, weighted, stop, added, moved), At(bars, last).close);
  }

  // ---- What a walk keeps ----

  /** One unit at the entry until an add; two units at a mean whose second fill was short of the
      target after it; and a stop that has only ever moved to the mean or better. */
  predicate Sound(p: Plan, w: Walk) {
    && (!w.added ==> w.units == 1.0 && w.weighted == p.entry)
    && (w.added ==> w.moved && w.units == 2.0 && Gain(p.side, 2.0 * w.weighted - p.entry, p.target) > 0.0)
    && (!w.moved ==> w.stop == p.stop)
    && (w.moved ==> Gain(p.side, w.weighted, w.stop) >= 0.0)
  }

  lemma AddIsSound(p: Plan, w: Walk, b: Bar)
    requires Sound(p, w) && !Filled(p.side, b, p.target)
    ensures Sound(p, AfterAdd(p, w, b))
  {
  }

  lemma BreakEvenIsSound(p: Plan, w: Walk, b: Bar)
    requires Sound(p, w)
    ensures Sound(p, AfterBreakEven(p, w, b))
  {
  }

  lemma StepIsSound(p: Plan, w: Walk, b: Bar)
    requires Sound(p, w)
    ensures Sound(p, StepBar(p, w, b).walk)
    ensures StepBar(p, w, b).Open? ==> !Stopped(p.side, b, StepBar(p, w, b).walk.stop)
    ensures StepBar(p, w, b).Closed? && StepBar(p, w, b).outcome == Loss ==>
              StepBar(p, w, b).price == StepBar(p, w, b).walk.stop
    ensures StepBar(p, w, b).Closed? ==> StepBar(p, w, b).outcome != Scratch
    ensures StepBar(p, w, b).Closed? && StepBar(p, w, b).outcome == Win ==> StepBar(p, w, b).price == p.target
  {
    var seen := Extremes(p, w, b);
    if !Stopped(p.side, b, seen.stop) && !Filled(p.side, b, p.target) {
      AddIsSound(p, seen, b);
      BreakEvenIsSound(p, AfterAdd(p, seen, b), b);
    }
  }

  /** What the result of a walk guarantees. */
  predicate Bounded(p: Plan, c: Closing) {
    && (c.outcome == Loss && !c.moved ==> c.realised == -p.Risk())
    && (c.outcome == Loss && c.moved ==> c.realised >= 0.0)
    && (c.outcome == Win ==> c.realised >= p.Reward())
    && (c.outcome == Win && c.units == 2.0 ==> c.realised > p.Reward())
    && (c.outcome == Scratch && !c.moved ==> c.realised > -p.Risk())
    && (c.outcome == Scratch && c.moved ==> c.realised > 0.0)
  }

  lemma UnitsTimes(gain: real, units: real)
    requires units == 1.0 || units == 2.0
    ensures units == 1.0 ==> gain * units == gain
    ensures units == 2.0 ==> gain * units == gain + gain
  {
  }

  lemma CloseIsBounded(p: Plan, outcome: Outcome, index: int, w: Walk, price: real)
    requires Sound(p, w)
    requires outcome == Loss ==> price == w.stop
    requires outcome == Win ==> price == p.target
    requires outcome == Scratch ==> Gain(p.side, w.stop, price) > 0.0
    ensures Bounded(p, Close(p, outcome, index, w, price))
  {
    UnitsTimes(Gain(p.side, w.weighted, price), w.units);
  }

  lemma {:induction false} WalkIsBounded(p: Plan, bars: seq<Bar>, start: int, horizon: nat, i: int, w: Walk)
    requires bars != [] && start >= -1 && start + 1 <= i <= Limit(bars, start, horizon)
    requires forall k :: 0 <= k < |bars| ==> bars[k].Valid()
    requires Sound(p, w)
    requires i == Limit(bars, start, horizon) ==> i > start + 1 && !Stopped(p.side, bars[i - 1], w.stop)
    ensures Bounded(p, WalkFrom(p, bars, start, horizon, i, w))
    decreases Limit(bars, start, horizon) - i
  {
    if i == Limit(bars, start, horizon) {
      var last := LastIndex(bars, start, horizon);
      assert last == i - 1 && bars[last].Valid();
      CloseIsBounded(p, Scratch, last, w, At(bars, last).close);
    } else {
      StepIsSound(p, w, bars[i]);
      var step := StepBar(p, w, bars[i]);
      if step.Closed? {
        CloseIsBounded(p, step.outcome, i, step.walk, step.price);
      } else {
        WalkIsBounded(p, bars, start, horizon, i + 1, step.walk);
      }
    }
  }

  /** There is a bar to walk. */
  predicate Walks(bars: seq<Bar>, start: int, horizon: nat) { start + 1 < |bars| && horizon >= 1 }

  /** Main result. With a bar to walk, whatever the break-even and add settings: a stop-out at the
      original stop realises exactly minus the initial risk, any other stop-out or unresolved walk
      more than that and never a loss once the stop has moved, and a win at least the plain reward. */
  lemma ResolveIsBounded(p: Plan, bars: seq<Bar>, start: int, horizon: nat)
    requires bars != [] && start >= -1 && Walks(bars, start, horizon)
    requires forall k :: 0 <= k < |bars| ==> bars[k].Valid()
    ensures Bounded(p, ResolvedBy(p, bars, start, horizon))
  {
    WalkIsBounded(p, bars, start, horizon, start + 1, Start(p));
  }

  /** For a trade with something to risk and something to gain, the result is never below minus the
      risk, and is exactly that if and only if the original stop was hit unmoved. */
  lemma FullLossIffOriginalStop(p: Plan, bars: seq<Bar>, start: int, horizon: nat)
    requires bars != [] && start >= -1 && Walks(bars, start, horizon)
    requires forall k :: 0 <= k < |bars| ==> bars[k].Valid()
    requires p.Risk() > 0.0 && p.Reward() > 0.0
    ensures var c := ResolvedBy(p, bars, start, horizon);
            && c.realised >= -p.Risk()
            && (c.realised == -p.Risk() <==> c.outcome == Loss && !c.moved)
  {
    ResolveIsBounded(p, bars, start, horizon);
  }

  /** With no bar to walk the trade is marked at the last close, and only then can it show more than
      its risk: exactly when that close is beyond the stop. */
  lemma NoBarToWalk(p: Plan, bars: seq<Bar>, start: int, horizon: nat)
    requires bars != [] && start >= -1 && !Walks(bars, start, horizon)
    ensures var c := ResolvedBy(p, bars, start, horizon);
            var mark := At(bars, LastIndex(bars, start, horizon)).close;
            && c.outcome == Scratch && c.realised == Gain(p.side, p.entry, mark)
            && (c.realised < -p.Risk() <==> Gain(p.side, p.stop, mark) < 0.0)
  {
    UnitsTimes(Gain(p.side, p.entry, At(bars, LastIndex(bars, start, horizon)).close), 1.0);
  }

  /** A long filled at its level on the last bar, whose close is already past the stop: nothing is left
      to walk, and the mark shows more than the risk. */
  lemma LastBarShowsMoreThanTheRisk() returns (p: Plan, bars: seq<Bar>, start: int)
    ensures bars != [] && start == |bars| - 1 && bars[start].Valid() && bars[start].low <= p.entry <= bars[start].high
    ensures p.Risk() > 0.0 && p.Reward() > 0.0
    ensures forall horizon: nat :: ResolvedBy(p, bars, start, horizon).realised < -p.Risk()
  {
    p := Plan(Buy, 100.0, 95.0, 110.0, None, None, None);
    bars := [Bar(101.0, 93.0, 94.0)];
    start := 0;
    forall horizon: nat
      ensures ResolvedBy(p, bars, start, horizon).realised < -p.Risk()
    {
      NoBarToWalk(p, bars, start, horizon);
    }
  }

  // ---- Buying and selling are mirror images ----

  function NegateBar(b: Bar): Bar { Bar(-b.low, -b.high, -b.close) }

  function NegateBars(bars: seq<Bar>): seq<Bar> { seq(|bars|, i requires 0 <= i < |bars| => NegateBar(bars[i])) }

  function NegatePlan(p: Plan): Plan { p.(side := Flip(p.side), entry := -p.entry, stop := -p.stop, target := -p.target) }

  function NegateWalk(w: Walk): Walk { w.(weighted := -w.weighted, stop := -w.stop) }

  function NegateStep(s: Step): Step {
    match s
    case Closed(outcome, w, price) => Closed(outcome, NegateWalk(w), -price)
    case Open(w) => Open(NegateWalk(w))
  }

  lemma AddMirrors(p: Plan, w: Walk, b: Bar)
    ensures AfterAdd(NegatePlan(p), NegateWalk(w), NegateBar(b)) == NegateWalk(AfterAdd(p, w, b))
  {
  }

  lemma BreakEvenMirrors(p: Plan, w: Walk, b: Bar)
    ensures AfterBreakEven(NegatePlan(p), NegateWalk(w), NegateBar(b)) == NegateWalk(AfterBreakEven(p, w, b))
  {
    assert NegatePlan(p).Risk() == p.Risk();
  }

  /** Each bar is handled alike on both sides. */
  lemma StepMirrors(p: Plan, w: Walk, b: Bar)
    ensures StepBar(NegatePlan(p), NegateWalk(w), NegateBar(b)) == NegateStep(StepBar(p, w, b))
  {
    var seen := Extremes(p, w, b);
    AddMirrors(p, seen, b);
    BreakEvenMirrors(p, AfterAdd(p, seen, b), b);
    assert Extremes(NegatePlan(p), NegateWalk(w), NegateBar(b)) == NegateWalk(seen);
  }

  lemma CloseMirrors(p: Plan, outcome: Outcome, index: int, w: Walk, price: real)
    ensures Close(NegatePlan(p), outcome, index, NegateWalk(w), -price) == Close(p, outcome, index, w, price)
  {
  }

  lemma MarkMirrors(p: Plan, bars: seq<Bar>, start: int, horizon: nat, w: Walk)
    requires bars != [] && start >= -1
    ensures var last := LastIndex(bars, start, horizon);
            Close(NegatePlan(p), Scratch, last, NegateWalk(w), At(NegateBars(bars), last).close)
            == Close(p, Scratch, last, w, At(bars, last).close)
  {
    var last := LastIndex(bars, start, horizon);
    CloseMirrors(p, Scratch, last, w, At(bars, last).close);
  }

  lemma {:induction false} WalkMirrors(p: Plan, bars: seq<Bar>, start: int, horizon: nat, i: int, w: Walk)
    requires bars != [] && start >= -1 && i >= 0
    ensures WalkFrom(NegatePlan(p), NegateBars(bars), start, horizon, i, NegateWalk(w))
            == WalkFrom(p, bars, start, horizon, i, w)
    decreases Limit(bars, start, horizon) - i
  {
    if i >= Limit(bars, start, horizon) {
      MarkMirrors(p, bars, start, horizon, w);
    } else {
      StepMirrors(p, w, bars[i]);
      match StepBar(p, w, bars[i]) {
        case Closed(outcome, after, price) => CloseMirrors(p, outcome, i, after, price);
        case Open(after) => WalkMirrors(p, bars, start, horizon, i + 1, after);
      }
    }
  }

  /** Main result. Resolving one side is resolving the other over price-negated bars: the same
      outcome, index, extremes, units and realised result. */
  lemma ResolveMirrors(p: Plan, bars: seq<Bar>, start: int, horizon: nat)
    requires bars != [] && start >= -1
    ensures ResolvedBy(NegatePlan(p), NegateBars(bars), start, horizon) == ResolvedBy(p, bars, start, horizon)
  {
    WalkMirrors(p, bars, start, horizon, start + 1, Start(p));
  }

  // ---- No look-ahead ----

  /** The two series agree up to and including `last`. */
  predicate AgreeTo(a: seq<Bar>, b: seq<Bar>, last: int) {
    last < |a| && last < |b| && forall k :: 0 <= k <= last ==> a[k] == b[k]
  }

  lemma {:induction false} WalkIgnoresTheFuture(
      p: Plan, bars: seq<Bar>, other: seq<Bar>, start: int, horizon: nat, i: int, w: Walk)
    requires bars != [] && other != [] && start >= -1 && i >= start + 1
    requires var c := WalkFrom(p, bars, start, horizon, i, w);
             AgreeTo(bars, other, c.index) && (c.outcome == Scratch ==> c.index >= 0 && (c.index < start + horizon ==> |other| == |bars|))
    ensures WalkFrom(p, other, start, horizon, i, w) == WalkFrom(p, bars, start, horizon, i, w)
    decreases Limit(bars, start, horizon) - i
  {
    if i < Limit(bars, start, horizon) {
      ClosesNoEarlier(p, bars, start, horizon, i, w);
      if StepBar(p, w, bars[i]).Open? {
        WalkIgnoresTheFuture(p, bars, other, start, horizon, i + 1, StepBar(p, w, bars[i]).walk);
      }
    }
  }

  lemma {:induction false} ClosesNoEarlier(p: Plan, bars: seq<Bar>, start: int, horizon: nat, i: int, w: Walk)
    requires bars != [] && start >= -1 && start + 1 <= i < Limit(bars, start, horizon)
    ensures WalkFrom(p, bars, start, horizon, i, w).index >= i
    decreases Limit(bars, start, horizon) - i
  {
    var step := StepBar(p, w, bars[i]);
    if step.Open? && i + 1 < Limit(bars, start, horizon) {
      ClosesNoEarlier(p, bars, start, horizon, i + 1, step.walk);
    }
  }

  /** Main result. Nothing after the closing index matters: a resolved trade is the same on any
      series that agrees up to that index, and so is an unresolved one that used its whole horizon. One
      that ran out of bars first is the same on any such series of equal length. */
  lemma ResolveIgnoresTheFuture(p: Plan, bars: seq<Bar>, other: seq<Bar>, start: int, horizon: nat)
    requires bars != [] && other != [] && start >= -1
    requires var c := ResolvedBy(p, bars, start, horizon);
             AgreeTo(bars, other, c.index) && (c.outcome == Scratch ==> c.index >= 0 && (c.index < start + horizon ==> |other| == |bars|))
    ensures ResolvedBy(p, other, start, horizon) == ResolvedBy(p, bars, start, horizon)
  {
    WalkIgnoresTheFuture(p, bars, other, start, horizon, start + 1, Start(p));
  }

  // ---- What the walk reports, without walking ----

  function Favour(p: Plan, b: Bar): real { if p.side == Buy then b.high - p.entry else p.entry - b.low }

  function Adverse(p: Plan, b: Bar): real { if p.side == Buy then b.low - p.entry else p.entry - b.high }

  /** `best` and `worst` are the extremes of what came before and of the bars from `i` to the close. */
  ghost predicate Excursions(p: Plan, bars: seq<Bar>, i: int, best: real, worst: real, c: Closing) {
    && 0 <= i && c.index < |bars|
    && c.best >= best && c.worst <= worst
    && (forall k :: i <= k <= c.index ==> Adverse(p, bars[k]) >= c.worst && Favour(p, bars[k]) <= c.best)
    && (c.best == best || exists k :: i <= k <= c.index && Favour(p, bars[k]) == c.best)
    && (c.worst == worst || exists k :: i <= k <= c.index && Adverse(p, bars[k]) == c.worst)
  }

  lemma StepSees(p: Plan, w: Walk, b: Bar)
    ensures StepBar(p, w, b).walk.best == Max(w.best, Favour(p, b))
    ensures StepBar(p, w, b).walk.worst == Min(w.worst, Adverse(p, b))
  {
  }

  lemma ExcursionsExtend(p: Plan, bars: seq<Bar>, i: int, best: real, worst: real, c: Closing)
    requires 0 <= i < |bars| && i <= c.index
    requires Excursions(p, bars, i + 1, Max(best, Favour(p, bars[i])), Min(worst, Adverse(p, bars[i])), c)
    ensures Excursions(p, bars, i, best, worst, c)
  {
  }

  lemma {:induction false} WalkExcursions(p: Plan, bars: seq<Bar>, start: int, horizon: nat, i: int, w: Walk)
    requires bars != [] && start >= -1 && start + 1 <= i <= Limit(bars, start, horizon)
    ensures Excursions(p, bars, i, w.best, w.worst, WalkFrom(p, bars, start, horizon, i, w))
    decreases Limit(bars, start, horizon) - i
  {
    if i < Limit(bars, start, horizon) {
      StepSees(p, w, bars[i]);
      var step := StepBar(p, w, bars[i]);
      if step.Open? {
        WalkExcursions(p, bars, start, horizon, i + 1, step.walk);
        ClosesNoEarlier(p, bars, start, horizon, i, w);
      }
      ExcursionsExtend(p, bars, i, w.best, w.worst, WalkFrom(p, bars, start, horizon, i, w));
    }
  }

  /** The reported extremes are exactly the furthest the walked bars went either way from the entry,
      the closing bar included, and never on the wrong side of it. */
  lemma ExcursionsAreExact(p: Plan, bars: seq<Bar>, start: int, horizon: nat)
    requires bars != [] && start >= -1 && Walks(bars, start, horizon)
    ensures Excursions(p, bars, start + 1, 0.0, 0.0, ResolvedBy(p, bars, start, horizon))
  {
    WalkExcursions(p, bars, start, horizon, start + 1, Start(p));
  }

  predicate Touches(p: Plan, b: Bar) { Stopped(p.side, b, p.stop) || Filled(p.side, b, p.target) }

  /** The plain trade settles on the first bar from `i` on that touches either price, as a loss
      whenever that bar touches the stop. */
  predicate FirstTouch(p: Plan, bars: seq<Bar>, i: int, limit: int, c: Closing) {
    && 0 <= i && limit <= |bars|
    && (c.outcome == Scratch <==> forall k :: i <= k < limit ==> !Touches(p, bars[k]))
    && (c.outcome != Scratch ==>
          && i <= c.index < limit && Touches(p, bars[c.index])
          && (forall k :: i <= k < c.index ==> !Touches(p, bars[k]))
          && (c.outcome == Loss <==> Stopped(p.side, bars[c.index], p.stop)))
  }

  lemma PlainStep(p: Plan, w: Walk, b: Bar)
    requires p.breakevenAt.None? && p.addAt.None? && w.stop == p.stop && !w.moved
    ensures var s := StepBar(p, w, b);
            && (s.Open? <==> !Touches(p, b))
            && (s.Open? ==> s.walk.stop == p.stop && !s.walk.moved)
            && (s.Closed? ==> (s.outcome == Loss <==> Stopped(p.side, b, p.stop)) && s.outcome != Scratch)
  {
  }

  lemma {:induction false} PlainWalk(p: Plan, bars: seq<Bar>, start: int, horizon: nat, i: int, w: Walk)
    requires bars != [] && start >= -1 && start + 1 <= i <= Limit(bars, start, horizon)
    requires p.breakevenAt.None? && p.addAt.None? && w.stop == p.stop && !w.moved
    ensures FirstTouch(p, bars, i, Limit(bars, start, horizon), WalkFrom(p, bars, start, horizon, i, w))
    decreases Limit(bars, start, horizon) - i
  {
    if i < Limit(bars, start, horizon) {
      PlainStep(p, w, bars[i]);
      var step := StepBar(p, w, bars[i]);
      if step.Open? {
        PlainWalk(p, bars, start, horizon, i + 1, step.walk);
      }
    }
  }

  /** Without a break-even move or an add, resolving is finding the first touch. */
  lemma PlainIsFirstTouch(p: Plan, bars: seq<Bar>, start: int, horizon: nat)
    requires bars != [] && start >= -1 && Walks(bars, start, horizon)
    requires p.breakevenAt.None? && p.addAt.None?
    ensures FirstTouch(p, bars, start + 1, Limit(bars, start, horizon), ResolvedBy(p, bars, start, horizon))
  {
    PlainWalk(p, bars, start, horizon, start + 1, Start(p));
  }
}
