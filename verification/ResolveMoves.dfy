/** When a walked trade moves its stop or adds, and what it then realises: read off the bars and the plan,
    with no walk in the statements. */
module ResolveMoves {
  import opened Common
  import opened Resolve

  /** How far a price lies in front of the entry. */
  function Ahead(p: Plan, price: real): real { if p.side == Buy then price - p.entry else p.entry - price }

  /** The add's distance from the entry. */
  function Lead(p: Plan): real { if p.addAt.Some? && p.atr.Some? then p.addAt.value * p.atr.value else 0.0 }

  /** A bar goes far enough for the add, or for the break-even move. */
  predicate AddHit(p: Plan, b: Bar) { p.addAt.Some? && p.atr.Some? && Favour(p, b) >= Lead(p) }

  predicate EvenHit(p: Plan, b: Bar) {
    p.breakevenAt.Some? && p.Risk() > 0.0 && Favour(p, b) >= p.breakevenAt.value * p.Risk()
  }

  /** A bar that touches neither the original stop nor the target. */
  predicate Between(p: Plan, b: Bar) { !Stopped(p.side, b, p.stop) && !Filled(p.side, b, p.target) }

  function Tighter(side: Side, a: real, b: real): real { if side == Buy then Max(a, b) else Min(a, b) }

  /** The price halfway to the add: where two equal units average. */
  function Midpoint(p: Plan): real { if p.side == Buy then p.entry + Lead(p) / 2.0 else p.entry - Lead(p) / 2.0 }

  /** A bar touches a stop once its worst goes as far as it, and a target once its best does. */
  lemma TouchIff(p: Plan, b: Bar, price: real)
    ensures Stopped(p.side, b, price) <==> Adverse(p, b) <= Ahead(p, price)
    ensures Filled(p.side, b, price) <==> Favour(p, b) >= Ahead(p, price)
  {
  }

  // ---- One bar ----

  /** The walk's own figures agree with each other. */
  predicate Consistent(p: Plan, w: Walk) {
    && (w.added ==> w.moved && p.addAt.Some? && p.atr.Some?)
    && w.units == (if w.added then 2.0 else 1.0)
    && w.weighted == (if w.added then Midpoint(p) else p.entry)
    && w.stop == Tighter(p.side, p.stop, w.stop)
    && (!w.moved ==> w.stop == p.stop)
    && (w.moved && !w.added ==> p.Risk() > 0.0 && w.stop == p.entry)
    && (w.added ==> w.stop == Midpoint(p) || (w.stop == Tighter(p.side, w.stop, Midpoint(p)) &&
                                              (w.stop == p.stop || (p.Risk() > 0.0 && w.stop == p.entry))))
  }

  lemma AddIs(p: Plan, w: Walk, b: Bar)
    requires Consistent(p, w)
    ensures var a := AfterAdd(p, w, b);
            && Consistent(p, a)
            && (a.added <==> w.added || AddHit(p, b))
            && (a.moved <==> w.moved || AddHit(p, b))
  {
  }

  lemma EvenIs(p: Plan, w: Walk, b: Bar)
    requires Consistent(p, w)
    ensures var a := AfterBreakEven(p, w, b);
            && Consistent(p, a)
            && a.added == w.added
            && (a.moved <==> w.moved || EvenHit(p, b))
  {
  }

  lemma SeenIs(p: Plan, w: Walk, b: Bar)
    requires Consistent(p, w)
    ensures var seen := Extremes(p, w, b);
            Consistent(p, seen) && seen.added == w.added && seen.moved == w.moved && seen.stop == w.stop
  {
  }

  /** A bar read at the stop in force: closed there as it stands, or moved by what it hits. */
  lemma StepIs(p: Plan, w: Walk, b: Bar)
    requires Consistent(p, w)
    ensures var s := StepBar(p, w, b);
            var closes := Stopped(p.side, b, w.stop) || Filled(p.side, b, p.target);
            && Consistent(p, s.walk)
            && (closes ==> s.Closed? && s.walk.added == w.added && s.walk.moved == w.moved)
            && (!closes ==>
                  && (s.walk.added <==> w.added || AddHit(p, b))
                  && (s.walk.moved <==> w.moved || AddHit(p, b) || EvenHit(p, b)))
            && (s.Closed? && s.outcome == Loss ==> s.price == s.walk.stop)
            && (s.Closed? && s.outcome == Win ==> s.price == p.target)
            && (s.Closed? ==> s.outcome != Scratch)
  {
    SeenIs(p, w, b);
    AddIs(p, Extremes(p, w, b), b);
    EvenIs(p, AfterAdd(p, Extremes(p, w, b), b), b);
  }

  // ---- The bars walked so far ----

  predicate EvenBefore(p: Plan, bars: seq<Bar>, first: nat, k: nat) {
    exists j :: first <= j < k && j < |bars| && EvenHit(p, bars[j])
  }

  /** A bar that moves the stop: it touches neither stop nor target, and goes far enough for either move. */
  predicate Moves(p: Plan, b: Bar) { Between(p, b) && (AddHit(p, b) || EvenHit(p, b)) }

  /** A bar that adds: short of the target and of the stop in force, which is the entry once an earlier bar
      has gone far enough for break-even. */
  predicate Adds(p: Plan, bars: seq<Bar>, first: nat, k: nat) {
    && k < |bars| && AddHit(p, bars[k]) && Between(p, bars[k])
    && (EvenBefore(p, bars, first, k) ==> !Stopped(p.side, bars[k], p.entry))
  }

  /** What the walk knows before bar `i`. */
  ghost predicate Tracked(p: Plan, bars: seq<Bar>, first: nat, i: nat, w: Walk) {
    && first <= i <= |bars| && Consistent(p, w)
    && (forall j :: first <= j < i ==> Between(p, bars[j]))
    && (forall j :: first <= j < i && (AddHit(p, bars[j]) || EvenHit(p, bars[j])) ==> w.moved)
    && (forall j :: first <= j < i && AddHit(p, bars[j]) ==> w.added)
    && (w.moved ==> exists j :: first <= j < i && Moves(p, bars[j]))
    && (w.added ==> exists j :: first <= j < i && Adds(p, bars, first, j))
  }

  /** What the closing says of the bars from `first` to its index. */
  ghost predicate Told(p: Plan, bars: seq<Bar>, first: nat, moved: bool, units: real, index: int) {
    && 0 <= index < |bars|
    && (moved <==> exists k :: first <= k <= index && Moves(p, bars[k]))
    && (units == 2.0 <==> exists k :: first <= k <= index && Adds(p, bars, first, k))
    && (units == 1.0 || units == 2.0)
  }

  /** The stop in force before a bar, as long as nothing was added. */
  lemma StopInForce(p: Plan, bars: seq<Bar>, first: nat, i: nat, w: Walk)
    requires Tracked(p, bars, first, i, w) && !w.added
    ensures w.moved <==> EvenBefore(p, bars, first, i)
    ensures w.stop == if EvenBefore(p, bars, first, i) then p.entry else p.stop
  {
  }

  lemma TighterStops(p: Plan, w: Walk, b: Bar)
    requires Consistent(p, w) && !Stopped(p.side, b, w.stop)
    ensures !Stopped(p.side, b, p.stop)
  {
  }

  /** A bar that does not close at the stop in force adds exactly when it goes far enough. */
  lemma OpenBarAdds(p: Plan, bars: seq<Bar>, first: nat, i: nat, w: Walk)
    requires Tracked(p, bars, first, i, w) && i < |bars| && !w.added
    requires !Stopped(p.side, bars[i], w.stop) && !Filled(p.side, bars[i], p.target)
    ensures Between(p, bars[i])
    ensures AddHit(p, bars[i]) <==> Adds(p, bars, first, i)
  {
    TighterStops(p, w, bars[i]);
    StopInForce(p, bars, first, i, w);
  }

  lemma ClosingBarDoesNotAdd(p: Plan, bars: seq<Bar>, first: nat, i: nat, w: Walk)
    requires Tracked(p, bars, first, i, w) && i < |bars| && !w.added
    requires Stopped(p.side, bars[i], w.stop) || Filled(p.side, bars[i], p.target)
    ensures !Adds(p, bars, first, i)
    ensures !w.moved ==> !Moves(p, bars[i])
  {
    StopInForce(p, bars, first, i, w);
  }

  /** The bar read: what the walk knows after it if it stays open, and what it can tell if it closes. */
  lemma StepTracks(p: Plan, bars: seq<Bar>, first: nat, i: nat, w: Walk)
    requires Tracked(p, bars, first, i, w) && i < |bars|
    ensures var s := StepBar(p, w, bars[i]);
            && (s.Open? ==> Tracked(p, bars, first, i + 1, s.walk))
            && (s.Closed? ==> Told(p, bars, first, s.walk.moved, s.walk.units, i))
  {
    StepIs(p, w, bars[i]);
    var s := StepBar(p, w, bars[i]);
    if Stopped(p.side, bars[i], w.stop) || Filled(p.side, bars[i], p.target) {
      if !w.added {
        ClosingBarDoesNotAdd(p, bars, first, i, w);
      }
    } else {
      TighterStops(p, w, bars[i]);
      if !w.added {
        OpenBarAdds(p, bars, first, i, w);
      }
    }
  }

  // ---- What is realised ----

  /** Two units at two prices, or one at the entry. */
  lemma RealisedIs(p: Plan, w: Walk, price: real)
    requires Consistent(p, w)
    ensures Realised(p.side, w, price) == if w.added then 2.0 * Ahead(p, price) - Lead(p) else Ahead(p, price)
  {
  }

  /** What the units make at a price. */
  function Made(p: Plan, units: real, price: real): real {
    if units == 2.0 then 2.0 * Ahead(p, price) - Lead(p) else Ahead(p, price)
  }

  /** The result of a closing: the units at the target, at the last close, or at the stop it was left with. */
  predicate Pays(p: Plan, bars: seq<Bar>, c: Closing)
    requires 0 <= c.index < |bars|
  {
    && (c.outcome == Win ==> c.realised == Made(p, c.units, p.target))
    && (c.outcome == Scratch ==> c.realised == Made(p, c.units, bars[c.index].close))
    && (c.outcome == Loss && !c.moved ==> c.realised == Ahead(p, p.stop))
    && (c.outcome == Loss && c.moved && c.units == 1.0 ==> c.realised == 0.0)
    && (c.outcome == Loss && c.units == 2.0 && p.Risk() >= 0.0 && Lead(p) >= 0.0 ==> c.realised == 0.0)
  }

  lemma StopPays(p: Plan, w: Walk)
    requires Consistent(p, w)
    ensures !w.moved ==> Realised(p.side, w, w.stop) == Ahead(p, p.stop)
    ensures w.moved && !w.added ==> Realised(p.side, w, w.stop) == 0.0
    ensures w.added && p.Risk() >= 0.0 && Lead(p) >= 0.0 ==> Realised(p.side, w, w.stop) == 0.0
  {
    RealisedIs(p, w, w.stop);
  }

  lemma {:induction false} WalkTells(p: Plan, bars: seq<Bar>, start: int, horizon: nat, i: int, w: Walk)
    requires bars != [] && start >= -1 && start + 1 <= i <= Limit(bars, start, horizon)
    requires Tracked(p, bars, start + 1, i, w) && (i == Limit(bars, start, horizon) ==> i > start + 1)
    ensures var c := WalkFrom(p, bars, start, horizon, i, w);
            Told(p, bars, start + 1, c.moved, c.units, c.index) && Pays(p, bars, c)
    decreases Limit(bars, start, horizon) - i
  {
    if i == Limit(bars, start, horizon) {
      RealisedIs(p, w, bars[i - 1].close);
    } else {
      StepTracks(p, bars, start + 1, i, w);
      StepIs(p, w, bars[i]);
      var s := StepBar(p, w, bars[i]);
      if s.Open? {
        WalkTells(p, bars, start, horizon, i + 1, s.walk);
      } else {
        StopPays(p, s.walk);
        RealisedIs(p, s.walk, s.price);
      }
    }
  }

  /** Main result. Of every walked trade, whatever its settings: its stop was moved if and only if some bar
      up to the close, touching neither the original stop nor the target, went far enough for the add or for
      break-even; it holds two units if and only if one went far enough for the add, short of the stop in
      force; and what it realises is what those units make at the target, at the last close, or at the stop:
      nothing once break-even or a forward add had moved it, and minus the risk if nothing had. */
  lemma MovesAndPays(p: Plan, bars: seq<Bar>, start: int, horizon: nat)
    requires bars != [] && start >= -1 && Walks(bars, start, horizon)
    ensures var c := ResolvedBy(p, bars, start, horizon);
            Told(p, bars, start + 1, c.moved, c.units, c.index) && Pays(p, bars, c)
  {
    WalkTells(p, bars, start, horizon, start + 1, Start(p));
  }
}
