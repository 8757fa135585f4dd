/** Every run of the position manager.

    A pass decides on the current facts and applies the decided actions in order: stop, average,
    quantity and risk are taken from an order-carrying action, an add sets the add count, a
    break-even move sets its flag, and a telemetry action only records its mark. */
module PositionRuns {
  import opened Common
  import opened Arithmetic
  import opened ManagedPosition

  /** `Refused` is the manager raising on a position or facts it will not accept. */
  datatype Holding = Held(position: Position) | Flat | Refused

  datatype Input = Input(facts: Facts, mode: Mode)

  function Or<T>(x: Option<T>, otherwise: T): T { if x.Some? then x.value else otherwise }

  function Apply(p: Position, a: Action): Holding {
    match a.kind
    case ActivateInitialStop => Held(p.(activeStop := a.stop, worstRisk := a.resultingRisk))
    case AddAndMoveStop =>
      Held(p.(
           activeStop := a.stop,
           averageEntry := Or(a.average, p.averageEntry),
           remaining := p.remaining + Or(a.quantity, 0.0),
           worstRisk := a.resultingRisk,
           addCount := 1))
    case MoveStopToBreakEven => Held(p.(activeStop := a.stop, worstRisk := a.resultingRisk, breakEvenActive := true))
    case RecordFib25 => Held(p.(fib25 := true))
    case RecordFib50Research => Held(p.(fib50 := true))
    case ObservePartial12R => Held(p.(shadow12 := true))
    case ObservePartial15R => Held(p.(shadow15 := true))
    case _ => Flat
  }

  function ApplyAll(h: Holding, actions: seq<Action>): Holding
    decreases |actions|
  {
    if actions == [] || !h.Held? then h else ApplyAll(Apply(h.position, actions[0]), actions[1..])
  }

  function Pass(h: Holding, i: Input): Holding {
    if !h.Held? then h
    else if h.position.Valid() && i.facts.Valid() then ApplyAll(h, Manage(h.position, i.facts, i.mode))
    else Refused
  }

  function Run(h: Holding, inputs: seq<Input>): Holding
    decreases |inputs|
  {
    if inputs == [] then h else Run(Pass(h, inputs[0]), inputs[1..])
  }

  /** `later` is at least as protective a stop as `earlier`. */
  predicate NotWider(side: Side, earlier: real, later: real) {
    if side == Buy then earlier <= later else later <= earlier
  }

  /** What a position keeps of an earlier one. */
  predicate Kept(p: Position, q: Position) {
    && q.side == p.side && q.initialEntry == p.initialEntry && q.initialQuantity == p.initialQuantity
    && q.initialStop == p.initialStop && q.originalRisk == p.originalRisk
    && p.addCount <= q.addCount && (p.addCount <= 1 ==> q.addCount <= 1)
    && q.remaining == p.remaining + (if q.addCount > p.addCount then p.initialQuantity else 0.0)
    && (q.addCount == p.addCount ==> q.averageEntry == p.averageEntry)
    && (p.activeStop.Some? ==> q.activeStop.Some?)
    && NotWider(p.side, p.Stop(), q.Stop())
    && (0.0 <= p.worstRisk ==> 0.0 <= q.worstRisk <= p.worstRisk)
  }

  /** The recorded risk is what the position would lose at its stop. */
  predicate RiskIsTrue(p: Position) {
    p.worstRisk == WorstCase(p.side, p.averageEntry, p.Stop(), p.remaining)
  }

  /** What every decided action promises about the position it was decided for. */
  predicate Sound(p: Position, a: Action) {
    match a.kind
    case ActivateInitialStop => p.activeStop.None? && a.stop == Some(p.initialStop) && a.resultingRisk == p.worstRisk
    case AddAndMoveStop =>
      && p.addCount == 0 && a.quantity == Some(p.initialQuantity) && a.average.Some?
      && p.activeStop.Some? && a.stop.Some? && NotWider(p.side, p.Stop(), a.stop.value)
      && a.resultingRisk == 0.0
      && WorstCase(p.side, a.average.value, a.stop.value, p.remaining + p.initialQuantity) == 0.0
    case MoveStopToBreakEven =>
      && p.activeStop.Some? && a.stop.Some? && NotWider(p.side, p.Stop(), a.stop.value)
      && a.resultingRisk == 0.0
      && WorstCase(p.side, p.averageEntry, a.stop.value, p.remaining) == 0.0
    case _ => true
  }

  lemma ApplyKeeps(p: Position, a: Action)
    requires Sound(p, a) && Apply(p, a).Held? && !IsTelemetry(a.kind)
    ensures Kept(p, Apply(p, a).position)
  {
  }

  lemma ApplyKeepsRiskTrue(p: Position, a: Action)
    requires Sound(p, a) && Apply(p, a).Held? && !IsTelemetry(a.kind) && RiskIsTrue(p)
    ensures RiskIsTrue(Apply(p, a).position)
  {
  }

  lemma KeptTransitive(p: Position, q: Position, r: Position)
    requires Kept(p, q) && Kept(q, r) && 0 <= p.addCount <= 1
    ensures Kept(p, r)
  {
  }

  lemma AddIsSound(p: Position, f: Facts)
    requires p.Valid() && f.Valid() && p.activeStop.Some? && AddAction(p, f).Some?
    ensures Sound(p, AddAction(p, f).value)
  {
    AddIsNeverRefusedForRisk(p, f);
  }

  lemma BreakEvenIsSound(p: Position, f: Facts)
    requires p.Valid() && f.Valid() && p.activeStop.Some? && BreakEvenAction(p, f).Some?
    ensures Sound(p, BreakEvenAction(p, f).value)
  {
    BreakEvenRisksNothing(p, f);
  }

  predicate AllMarks(actions: seq<Action>) {
    forall i :: 0 <= i < |actions| ==> IsTelemetry(actions[i].kind)
  }

  lemma ObservationsAreMarks(p: Position, f: Facts, mode: Mode)
    ensures AllMarks(Observations(p, f, mode))
  {
  }

  /** The action a decision leads with: an exit, the initial stop, an add, a break-even move, or none. */
  function Lead(p: Position, f: Facts): Option<Action>
    requires p.Valid() && f.Valid()
  {
    if ExitKind(p, f).Some? then Some(FullExit(p, ExitKind(p, f).value, f.protectionFailed))
    else if p.activeStop.None? then Some(ActivateStop(p))
    else if AddAction(p, f).Some? then AddAction(p, f)
    else BreakEvenAction(p, f)
  }

  lemma LeadIsSound(p: Position, f: Facts)
    requires p.Valid() && f.Valid() && Lead(p, f).Some?
    ensures Sound(p, Lead(p, f).value) && !IsTelemetry(Lead(p, f).value.kind)
    ensures IsExit(Lead(p, f).value.kind) <==> ExitKind(p, f).Some?
  {
    if ExitKind(p, f).None? && p.activeStop.Some? {
      if AddAction(p, f).Some? {
        AddIsSound(p, f);
      } else {
        BreakEvenIsSound(p, f);
      }
    }
  }

  /** A decision is its leading action, if any, followed by marks. */
  lemma DecisionShape(p: Position, f: Facts, mode: Mode) returns (marks: seq<Action>)
    requires p.Valid() && f.Valid()
    ensures AllMarks(marks)
    ensures Manage(p, f, mode) == (if Lead(p, f).Some? then [Lead(p, f).value] else []) + marks
    ensures ExitKind(p, f).Some? ==> marks == []
  {
    ObservationsAreMarks(p, f, mode);
    marks := if ExitKind(p, f).Some? || p.activeStop.None? || AddAction(p, f).Some? then [] else Observations(p, f, mode);
  }

  /** The part of a position no mark touches is unchanged. */
  predicate SameBook(p: Position, q: Position) {
    q == p.(fib25 := q.fib25, fib50 := q.fib50, shadow12 := q.shadow12, shadow15 := q.shadow15)
  }

  lemma MarkKeepsBook(p: Position, a: Action)
    requires IsTelemetry(a.kind)
    ensures Apply(p, a).Held? && SameBook(p, Apply(p, a).position)
  {
  }

  lemma {:induction false} MarksKeep(p: Position, actions: seq<Action>)
    requires AllMarks(actions)
    ensures ApplyAll(Held(p), actions).Held? && SameBook(p, ApplyAll(Held(p), actions).position)
    decreases |actions|
  {
    if actions != [] {
      MarkKeepsBook(p, actions[0]);
      MarksKeep(Apply(p, actions[0]).position, actions[1..]);
    }
  }

  /** A pass ends as its leading action ends, up to marks. */
  lemma PassIsItsLead(p: Position, i: Input)
    requires p.Valid() && i.facts.Valid()
    ensures Pass(Held(p), i) != Refused
    ensures Pass(Held(p), i) == Flat <==> ExitKind(p, i.facts).Some?
    ensures Pass(Held(p), i).Held? ==>
              SameBook(
                if Lead(p, i.facts).Some? then Apply(p, Lead(p, i.facts).value).position else p,
                Pass(Held(p), i).position)
  {
    var marks := DecisionShape(p, i.facts, i.mode);
    var lead := Lead(p, i.facts);
    if lead.Some? {
      LeadIsSound(p, i.facts);
      var actions := Manage(p, i.facts, i.mode);
      assert actions[0] == lead.value && actions[1..] == marks;
      assert Pass(Held(p), i) == ApplyAll(Apply(p, lead.value), marks);
      if !IsExit(lead.value.kind) {
        MarksKeep(Apply(p, lead.value).position, marks);
      }
    } else {
      assert Manage(p, i.facts, i.mode) == marks;
      MarksKeep(p, marks);
    }
  }

  lemma PassKeeps(p: Position, i: Input)
    requires p.Valid() && i.facts.Valid() && Pass(Held(p), i).Held?
    ensures Kept(p, Pass(Held(p), i).position)
    ensures RiskIsTrue(p) ==> RiskIsTrue(Pass(Held(p), i).position)
  {
    PassIsItsLead(p, i);
    if Lead(p, i.facts).Some? {
      LeadIsSound(p, i.facts);
      ApplyKeeps(p, Lead(p, i.facts).value);
      if RiskIsTrue(p) {
        ApplyKeepsRiskTrue(p, Lead(p, i.facts).value);
      }
    }
  }

  lemma {:induction false} ClosedStaysClosed(h: Holding, inputs: seq<Input>)
    requires !h.Held?
    ensures Run(h, inputs) == h
    decreases |inputs|
  {
    if inputs != [] {
      ClosedStaysClosed(h, inputs[1..]);
    }
  }

  /** Main result. Over every run, the stop never widens, the position grows by one initial
      quantity at most once, worst-case risk never rises (so it stays at zero once zero), and a
      truthful record of that risk stays truthful. */
  lemma {:induction false} EveryRunKeeps(p: Position, inputs: seq<Input>)
    requires p.Valid() && Run(Held(p), inputs).Held?
    ensures Kept(p, Run(Held(p), inputs).position)
    ensures RiskIsTrue(p) ==> RiskIsTrue(Run(Held(p), inputs).position)
    decreases |inputs|
  {
    if inputs != [] {
      var h := Pass(Held(p), inputs[0]);
      if !h.Held? {
        ClosedStaysClosed(h, inputs[1..]);
      } else {
        PassKeeps(p, inputs[0]);
        if h.position.Valid() {
          EveryRunKeeps(h.position, inputs[1..]);
          KeptTransitive(p, h.position, Run(h, inputs[1..]).position);
        } else {
          InvalidIsRefused(h.position, inputs[1..]);
        }
      }
    }
  }

  lemma InvalidIsRefused(p: Position, inputs: seq<Input>)
    requires !p.Valid()
    ensures inputs != [] ==> Run(Held(p), inputs) == Refused
  {
    if inputs != [] {
      ClosedStaysClosed(Refused, inputs[1..]);
    }
  }

  // ---- Counting adds ----

  function AddsIn(actions: seq<Action>): nat {
    if actions == [] then 0 else (if actions[0].kind.AddAndMoveStop? then 1 else 0) + AddsIn(actions[1..])
  }

  function AddsOver(h: Holding, inputs: seq<Input>): nat
    decreases |inputs|
  {
    if inputs == [] || !h.Held? || !h.position.Valid() || !inputs[0].facts.Valid() then 0
    else AddsIn(Manage(h.position, inputs[0].facts, inputs[0].mode)) + AddsOver(Pass(h, inputs[0]), inputs[1..])
  }

  lemma {:induction false} MarksAddNothing(actions: seq<Action>)
    requires AllMarks(actions)
    ensures AddsIn(actions) == 0
  {
    if actions != [] {
      MarksAddNothing(actions[1..]);
    }
  }

  lemma AddsInOneDecision(p: Position, i: Input)
    requires p.Valid() && i.facts.Valid()
    ensures AddsIn(Manage(p, i.facts, i.mode))
            == if Lead(p, i.facts).Some? && Lead(p, i.facts).value.kind.AddAndMoveStop? then 1 else 0
  {
    var marks := DecisionShape(p, i.facts, i.mode);
    MarksAddNothing(marks);
    if Lead(p, i.facts).Some? {
      assert Manage(p, i.facts, i.mode)[1..] == marks;
    } else {
      assert Manage(p, i.facts, i.mode) == marks;
    }
  }

  lemma LeadAddCount(p: Position, f: Facts)
    requires p.Valid() && f.Valid() && Lead(p, f).Some? && Apply(p, Lead(p, f).value).Held?
    ensures Apply(p, Lead(p, f).value).position.addCount
            == p.addCount + if Lead(p, f).value.kind.AddAndMoveStop? then 1 else 0
    ensures Lead(p, f).value.kind.AddAndMoveStop? ==> p.addCount == 0
  {
    LeadIsSound(p, f);
  }

  lemma AddsInOnePass(p: Position, i: Input)
    requires p.Valid() && i.facts.Valid()
    ensures AddsIn(Manage(p, i.facts, i.mode)) <= 1 - p.addCount
    ensures Pass(Held(p), i).Held? ==>
              AddsIn(Manage(p, i.facts, i.mode)) == Pass(Held(p), i).position.addCount - p.addCount
  {
    AddsInOneDecision(p, i);
    PassIsItsLead(p, i);
    if Lead(p, i.facts).Some? {
      LeadIsSound(p, i.facts);
      if !IsExit(Lead(p, i.facts).value.kind) {
        LeadAddCount(p, i.facts);
      }
    }
  }

  /** Over every run at most one add is ever ordered, and none once one has been recorded. */
  lemma {:induction false} AtMostOneAdd(p: Position, inputs: seq<Input>)
    requires p.Valid()
    ensures AddsOver(Held(p), inputs) <= 1 - p.addCount
    decreases |inputs|
  {
    if inputs != [] && inputs[0].facts.Valid() {
      AddsInOnePass(p, inputs[0]);
      var h := Pass(Held(p), inputs[0]);
      if h.Held? && h.position.Valid() {
        AtMostOneAdd(h.position, inputs[1..]);
      }
    }
  }

  // ---- Exits ----

  /** The exit the most urgent of the facts calls for. */
  function UrgentExit(f: Facts): Kind {
    if f.protectionFailed then EmergencyExitFull
    else if f.mustBeFlat then ExitFullSessionClose
    else if f.blockingBigTrade then ExitFullBlockingBigTrade
    else if f.metodoExit then ExitFullMetodoCrossDown
    else ExitFullFib66
  }

  /** An exit is decided exactly on its facts, the 66 level among them once the price is at it or past it;
      it is the most urgent one's, stands alone, closes the whole remaining quantity and ends the position,
      and the account is halted exactly when protection failed. */
  lemma ExitClosesEverything(p: Position, i: Input)
    requires p.Valid() && i.facts.Valid()
    ensures Pass(Held(p), i) == Flat <==>
              || i.facts.protectionFailed || i.facts.mustBeFlat || i.facts.blockingBigTrade || i.facts.metodoExit
              || (i.facts.fib66.Some? && Favorable(p.side, i.facts.fib66.value, i.facts.price) >= 0.0)
    ensures Pass(Held(p), i) == Flat ==>
              var d := Manage(p, i.facts, i.mode);
              |d| == 1 && ClosesAll(p, d[0], UrgentExit(i.facts), i.facts.protectionFailed)
  {
    PassIsItsLead(p, i);
    ReachedIff(p.side, i.facts.price, i.facts.fib66);
    ExitsByPriority(p, i.facts, i.mode);
  }

  // ---- Which passes keep a position acceptable ----

  lemma WeightedIsPositive(average: real, held: real, price: real, added: real)
    requires average > 0.0 && held > 0.0 && price > 0.0 && added > 0.0
    ensures Weighted(average, held, price, added) > 0.0
  {
    MulStrict(0.0, average, held);
    MulStrict(0.0, price, added);
    QuotientIsPositive(average * held + price * added, held + added);
  }

  /** The average a pass would move its stop to break-even around, read off the triggers alone: the
      weighted average once the add triggers, the present one once break-even does, else none. */
  function MovedAround(p: Position, f: Facts): Option<real>
    requires p.remaining + p.initialQuantity > 0.0
  {
    if p.activeStop.None? then None
    else if AddTriggered(p, f) then Some(Weighted(p.averageEntry, p.remaining, f.price, p.initialQuantity))
    else if BreakEvenTriggered(p, f) then Some(p.averageEntry)
    else None
  }

  /** Whether the stop an action carries, if any, is a price the manager accepts. */
  lemma StopPositiveIff(side: Side, current: real, average: real, offset: real)
    requires current > 0.0 && average > 0.0 && offset > 0.0
    ensures NonWidening(side, Some(current), BreakEvenStop(side, average, offset)) > 0.0 <==> side == Buy || offset < average
  {
  }

  /** A pass leaves an acceptable position exactly when the position is long, or its stop is not
      moved, or the break-even offset is smaller than the average it is taken from. A short whose
      fees and slippage reach its average is given a stop at or below zero, and the next pass
      raises on it. */
  lemma PassStaysAcceptableIff(p: Position, i: Input)
    requires p.Valid() && i.facts.Valid() && Pass(Held(p), i).Held?
    ensures Pass(Held(p), i).position.Valid() <==>
              || p.side == Buy
              || MovedAround(p, i.facts).None?
              || BreakEvenOffset(i.facts) < MovedAround(p, i.facts).value
  {
    PassIsItsLead(p, i);
    LeadStaysAcceptableIff(p, i.facts);
  }

  lemma LeadStaysAcceptableIff(p: Position, f: Facts)
    requires p.Valid() && f.Valid() && ExitKind(p, f).None?
    ensures (Lead(p, f).Some? ==> Apply(p, Lead(p, f).value).position.Valid()) <==>
              || p.side == Buy
              || MovedAround(p, f).None?
              || BreakEvenOffset(f) < MovedAround(p, f).value
  {
    OffsetIsPositive(f);
    AddIsNeverRefusedForRisk(p, f);
    BreakEvenIff(p, f);
    if p.activeStop.Some? {
      if AddAction(p, f).Some? {
        var average := Weighted(p.averageEntry, p.remaining, f.price, p.initialQuantity);
        WeightedIsPositive(p.averageEntry, p.remaining, f.price, p.initialQuantity);
        StopPositiveIff(p.side, p.activeStop.value, average, BreakEvenOffset(f));
      } else if BreakEvenAction(p, f).Some? {
        BreakEvenRisksNothing(p, f);
        StopPositiveIff(p.side, p.activeStop.value, p.averageEntry, BreakEvenOffset(f));
      }
    }
  }

  /** A short with costs above its price: its break-even stop is negative, and the next pass raises. */
  lemma ShortCanBeRefused() returns (p: Position, i: Input)
    ensures p.Valid() && p.side == Sell && i.facts.Valid()
    ensures Run(Held(p), [i, i]) == Refused
  {
    p := Position(Sell, 100.0, 100.0, 1.0, 1.0, 110.0, Some(110.0), 10.0, 10.0, 1, false, false, false, false, false);
    i := Input(Facts(95.0, 5.0, 1.0, 60.0, 60.0, 0.0, true, None, None, None, false, false, false, false), Live);
    assert BreakEvenOffset(i.facts) == 121.0;
    PassIsItsLead(p, i);
    PassStaysAcceptableIff(p, i);
    assert [i, i][1..] == [i];
    InvalidIsRefused(Pass(Held(p), i).position, [i]);
  }

  /** A long is never refused: every run of valid facts over it ends held or flat. */
  lemma {:induction false} LongIsNeverRefused(p: Position, inputs: seq<Input>)
    requires p.Valid() && p.side == Buy
    requires forall k :: 0 <= k < |inputs| ==> inputs[k].facts.Valid()
    ensures Run(Held(p), inputs) != Refused
    decreases |inputs|
  {
    if inputs != [] {
      PassIsItsLead(p, inputs[0]);
      var h := Pass(Held(p), inputs[0]);
      if h.Held? {
        PassStaysAcceptableIff(p, inputs[0]);
        PassKeeps(p, inputs[0]);
        LongIsNeverRefused(h.position, inputs[1..]);
      } else {
        ClosedStaysClosed(h, inputs[1..]);
      }
    }
  }
}
