/** Managing a short is managing a long reflected about the initial entry price. */
module PositionMirror {
  import opened Common
  import opened Arithmetic
  import opened ManagedPosition
  import opened PositionRuns

  function Mirror(entry: real, price: real): real { 2.0 * entry - price }

  function MirrorMaybe(entry: real, price: Option<real>): Option<real> {
    if price.Some? then Some(Mirror(entry, price.value)) else None
  }

  function MirrorPosition(p: Position): Position {
    p.(side := Flip(p.side),
       averageEntry := Mirror(p.initialEntry, p.averageEntry),
       initialStop := Mirror(p.initialEntry, p.initialStop),
       activeStop := MirrorMaybe(p.initialEntry, p.activeStop))
  }

  function MirrorFacts(entry: real, f: Facts): Facts {
    f.(price := Mirror(entry, f.price),
       fib25 := MirrorMaybe(entry, f.fib25),
       fib50 := MirrorMaybe(entry, f.fib50),
       fib66 := MirrorMaybe(entry, f.fib66))
  }

  function MirrorAction(entry: real, a: Action): Action {
    a.(stop := MirrorMaybe(entry, a.stop), average := MirrorMaybe(entry, a.average))
  }

  function MirrorActions(entry: real, actions: seq<Action>): seq<Action> {
    seq(|actions|, i requires 0 <= i < |actions| => MirrorAction(entry, actions[i]))
  }

  /** A weighted mean of reflected prices is the reflected weighted mean. */
  lemma WeightedMirrors(entry: real, average: real, held: real, price: real, added: real)
    requires held + added > 0.0
    ensures Weighted(Mirror(entry, average), held, Mirror(entry, price), added)
            == Mirror(entry, Weighted(average, held, price, added))
  {
    var total := held + added;
    var cost := average * held + price * added;
    assert Mirror(entry, average) * held + Mirror(entry, price) * added == 2.0 * entry * total - cost by {
      assert (2.0 * entry - average) * held == 2.0 * entry * held - average * held;
      assert (2.0 * entry - price) * added == 2.0 * entry * added - price * added;
      assert 2.0 * entry * total == 2.0 * entry * held + 2.0 * entry * added;
    }
    SplitQuotient(2.0 * entry, total, cost);
  }

  lemma SplitQuotient(a: real, total: real, cost: real)
    requires total > 0.0
    ensures (a * total - cost) / total == a - cost / total
  {
    QuotientTimes(cost, total);
    QuotientIs(a * total - cost, total, a - cost / total);
  }

  lemma QuotientIs(a: real, b: real, q: real)
    requires b > 0.0 && q * b == a
    ensures a / b == q
  {
  }

  lemma StopMirrors(side: Side, entry: real, current: Option<real>, average: real, offset: real)
    ensures NonWidening(Flip(side), MirrorMaybe(entry, current), BreakEvenStop(Flip(side), Mirror(entry, average), offset))
            == Mirror(entry, NonWidening(side, current, BreakEvenStop(side, average, offset)))
  {
  }

  lemma AddMirrors(p: Position, f: Facts)
    requires p.Valid() && f.Valid() && MirrorPosition(p).Valid() && MirrorFacts(p.initialEntry, f).Valid()
    ensures AddAction(MirrorPosition(p), MirrorFacts(p.initialEntry, f)).Some? <==> AddAction(p, f).Some?
    ensures AddAction(p, f).Some? ==>
              AddAction(MirrorPosition(p), MirrorFacts(p.initialEntry, f)).value
              == MirrorAction(p.initialEntry, AddAction(p, f).value)
  {
    var e, g := p.initialEntry, MirrorFacts(p.initialEntry, f);
    assert BreakEvenOffset(g) == BreakEvenOffset(f);
    AddIsNeverRefusedForRisk(p, f);
    AddIsNeverRefusedForRisk(MirrorPosition(p), g);
    WeightedMirrors(e, p.averageEntry, p.remaining, f.price, p.initialQuantity);
    StopMirrors(
      p.side, e, p.activeStop, Weighted(p.averageEntry, p.remaining, f.price, p.initialQuantity), BreakEvenOffset(f));
  }

  lemma BreakEvenMirrors(p: Position, f: Facts)
    requires p.Valid() && f.Valid() && MirrorPosition(p).Valid() && MirrorFacts(p.initialEntry, f).Valid()
    ensures BreakEvenAction(MirrorPosition(p), MirrorFacts(p.initialEntry, f)).Some? <==> BreakEvenAction(p, f).Some?
    ensures BreakEvenAction(p, f).Some? ==>
              BreakEvenAction(MirrorPosition(p), MirrorFacts(p.initialEntry, f)).value
              == MirrorAction(p.initialEntry, BreakEvenAction(p, f).value)
  {
    var e, g := p.initialEntry, MirrorFacts(p.initialEntry, f);
    assert BreakEvenOffset(g) == BreakEvenOffset(f);
    StopMirrors(p.side, e, p.activeStop, p.averageEntry, BreakEvenOffset(f));
    if BreakEvenAction(p, f).Some? {
      BreakEvenRisksNothing(p, f);
      BreakEvenRisksNothing(MirrorPosition(p), g);
    }
  }

  lemma MirrorJoins(entry: real, a: seq<Action>, b: seq<Action>)
    ensures MirrorActions(entry, a + b) == MirrorActions(entry, a) + MirrorActions(entry, b)
  {
  }

  lemma MirrorOfOne(entry: real, a: Action)
    ensures MirrorActions(entry, [a]) == [MirrorAction(entry, a)]
  {
  }

  /** Actions that carry no price reflect to themselves. */
  lemma MarksReflectToThemselves(entry: real, p: Position, at25: bool, at50: bool, at12R: bool, at15R: bool)
    ensures MirrorActions(entry, Marks(p, at25, at50, at12R, at15R)) == Marks(p, at25, at50, at12R, at15R)
  {
    var marks := Marks(p, at25, at50, at12R, at15R);
    assert forall i :: 0 <= i < |marks| ==> marks[i].stop.None? && marks[i].average.None?;
    assert forall i :: 0 <= i < |marks| ==> MirrorAction(entry, marks[i]) == marks[i];
  }

  lemma GuardsMirror(p: Position, f: Facts, mode: Mode, multiple: real)
    ensures InFront(MirrorPosition(p), MirrorFacts(p.initialEntry, f), mode, multiple) == InFront(p, f, mode, multiple)
  {
  }

  lemma ObservationsMirror(p: Position, f: Facts, mode: Mode)
    ensures Observations(MirrorPosition(p), MirrorFacts(p.initialEntry, f), mode)
            == MirrorActions(p.initialEntry, Observations(p, f, mode))
  {
    var at25, at50 := Reached(p.side, f.price, f.fib25), Reached(p.side, f.price, f.fib50);
    var at12R, at15R := InFront(p, f, mode, 1.2), InFront(p, f, mode, 1.5);
    GuardsMirror(p, f, mode, 1.2);
    GuardsMirror(p, f, mode, 1.5);
    MarksReflectToThemselves(p.initialEntry, p, at25, at50, at12R, at15R);
    assert Marks(MirrorPosition(p), at25, at50, at12R, at15R) == Marks(p, at25, at50, at12R, at15R);
  }

  /** Main result. Reflecting the position and the facts about the initial entry reflects the
      decision: the same actions in the same order, with stop and average reflected. */
  lemma ManagingMirrors(p: Position, f: Facts, mode: Mode)
    requires p.Valid() && f.Valid() && MirrorPosition(p).Valid() && MirrorFacts(p.initialEntry, f).Valid()
    ensures Manage(MirrorPosition(p), MirrorFacts(p.initialEntry, f), mode)
            == MirrorActions(p.initialEntry, Manage(p, f, mode))
  {
    var e, p', f' := p.initialEntry, MirrorPosition(p), MirrorFacts(p.initialEntry, f);
    assert ExitKind(p', f') == ExitKind(p, f);
    AddMirrors(p, f);
    if ExitKind(p, f).None? && p.activeStop.Some? && AddAction(p, f).None? {
      BreakEvenMirrors(p, f);
      ObservationsMirror(p, f, mode);
      if BreakEvenAction(p, f).Some? {
        MirrorOfOne(e, BreakEvenAction(p, f).value);
        MirrorJoins(e, [BreakEvenAction(p, f).value], Observations(p, f, mode));
      } else {
        assert Manage(p, f, mode) == Observations(p, f, mode);
        assert Manage(p', f', mode) == Observations(p', f', mode);
      }
    }
  }

  // ---- Whole runs ----

  function MirrorHolding(h: Holding): Holding {
    if h.Held? then Held(MirrorPosition(h.position)) else h
  }

  function MirrorInputs(entry: real, inputs: seq<Input>): seq<Input>
    decreases |inputs|
  {
    if inputs == [] then []
    else [Input(MirrorFacts(entry, inputs[0].facts), inputs[0].mode)] + MirrorInputs(entry, inputs[1..])
  }

  /** An action whose kind needs a stop or an average carries it. */
  predicate Complete(a: Action) {
    && (a.kind.ActivateInitialStop? || a.kind.AddAndMoveStop? || a.kind.MoveStopToBreakEven? ==> a.stop.Some?)
    && (a.kind.AddAndMoveStop? ==> a.average.Some?)
  }

  lemma ApplyMirrors(p: Position, a: Action)
    requires Complete(a)
    ensures Apply(MirrorPosition(p), MirrorAction(p.initialEntry, a)) == MirrorHolding(Apply(p, a))
    ensures Apply(p, a).Held? ==> Apply(p, a).position.initialEntry == p.initialEntry
  {
    if IsTelemetry(a.kind) {
      MarkMirrors(p, a);
    }
  }

  lemma MarkMirrors(p: Position, a: Action)
    requires IsTelemetry(a.kind)
    ensures Apply(MirrorPosition(p), MirrorAction(p.initialEntry, a)) == MirrorHolding(Apply(p, a))
  {
  }

  lemma {:induction false} ApplyAllMirrors(p: Position, actions: seq<Action>)
    requires forall k :: 0 <= k < |actions| ==> Complete(actions[k])
    ensures ApplyAll(Held(MirrorPosition(p)), MirrorActions(p.initialEntry, actions))
            == MirrorHolding(ApplyAll(Held(p), actions))
    decreases |actions|
  {
    if actions != [] {
      ApplyMirrors(p, actions[0]);
      var h := Apply(p, actions[0]);
      assert MirrorActions(p.initialEntry, actions)[1..] == MirrorActions(p.initialEntry, actions[1..]);
      if h.Held? {
        ApplyAllMirrors(h.position, actions[1..]);
      }
    }
  }

  lemma DecisionsAreComplete(p: Position, f: Facts, mode: Mode)
    requires p.Valid() && f.Valid()
    ensures forall k :: 0 <= k < |Manage(p, f, mode)| ==> Complete(Manage(p, f, mode)[k])
  {
    var marks := DecisionShape(p, f, mode);
    if Lead(p, f).Some? {
      LeadIsSound(p, f);
    }
  }

  lemma PassMirrors(p: Position, i: Input)
    requires p.Valid() && i.facts.Valid()
    requires MirrorPosition(p).Valid() && MirrorFacts(p.initialEntry, i.facts).Valid()
    ensures Pass(Held(MirrorPosition(p)), Input(MirrorFacts(p.initialEntry, i.facts), i.mode))
            == MirrorHolding(Pass(Held(p), i))
  {
    ManagingMirrors(p, i.facts, i.mode);
    DecisionsAreComplete(p, i.facts, i.mode);
    ApplyAllMirrors(p, Manage(p, i.facts, i.mode));
  }

  lemma UnrefusedPass(h: Holding, inputs: seq<Input>)
    requires inputs != [] && Run(h, inputs) != Refused && h.Held?
    ensures h.position.Valid() && inputs[0].facts.Valid()
  {
    if Pass(h, inputs[0]) == Refused {
      ClosedStaysClosed(Refused, inputs[1..]);
    }
  }

  /** The whole run of a short is the reflected run of the long, as long as neither is refused. */
  lemma {:induction false} RunsMirror(p: Position, inputs: seq<Input>)
    requires Run(Held(p), inputs) != Refused
    requires Run(Held(MirrorPosition(p)), MirrorInputs(p.initialEntry, inputs)) != Refused
    ensures Run(Held(MirrorPosition(p)), MirrorInputs(p.initialEntry, inputs)) == MirrorHolding(Run(Held(p), inputs))
    decreases |inputs|
  {
    if inputs != [] {
      var mirrored := MirrorInputs(p.initialEntry, inputs);
      UnrefusedPass(Held(p), inputs);
      UnrefusedPass(Held(MirrorPosition(p)), mirrored);
      PassMirrors(p, inputs[0]);
      assert mirrored[1..] == MirrorInputs(p.initialEntry, inputs[1..]);
      var h := Pass(Held(p), inputs[0]);
      if h.Held? {
        PassKeeps(p, inputs[0]);
        RunsMirror(h.position, inputs[1..]);
      } else {
        ClosedStaysClosed(h, inputs[1..]);
        ClosedStaysClosed(h, mirrored[1..]);
      }
    }
  }
}
