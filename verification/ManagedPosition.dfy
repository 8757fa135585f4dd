/** The position manager: a prioritised decision over immutable facts, and the runs it generates. */
module ManagedPosition {
  import opened Common
  import opened Arithmetic

  datatype Mode = Shadow | Paper | Live

  datatype Kind =
    | ActivateInitialStop
    | AddAndMoveStop
    | MoveStopToBreakEven
    | RecordFib25
    | RecordFib50Research
    | ObservePartial12R
    | ObservePartial15R
    | ExitFullFib66
    | ExitFullMetodoCrossDown
    | ExitFullBlockingBigTrade
    | ExitFullSessionClose
    | EmergencyExitFull

  /** The initial stop counts as active exactly when an active stop price is present. */
  datatype Position = Position(
    side: Side,
    initialEntry: real,
    averageEntry: real,
    initialQuantity: real,
    remaining: real,
    initialStop: real,
    activeStop: Option<real>,
    originalRisk: real,
    worstRisk: real,
    addCount: int,
    breakEvenActive: bool,
    fib25: bool,
    fib50: bool,
    shadow12: bool,
    shadow15: bool)
  {
    predicate Valid() {
      && initialEntry > 0.0 && averageEntry > 0.0 && initialQuantity > 0.0 && remaining > 0.0 && initialStop > 0.0
      && (activeStop.Some? ==> activeStop.value > 0.0)
      && 0 <= addCount <= 1
      && 0.0 <= worstRisk <= originalRisk
      && (side == Buy ==> initialStop < initialEntry)
      && (side == Sell ==> initialStop > initialEntry)
    }

    /** The stop that protects the position now, or will as soon as it is activated. */
    function Stop(): real { if activeStop.Some? then activeStop.value else initialStop }
  }

  datatype Facts = Facts(
    price: real,
    atr5m: real,
    tick: real,
    entryFee: real,
    exitFee: real,
    slippage: real,
    slippageSampled: bool,
    fib25: Option<real>,
    fib50: Option<real>,
    fib66: Option<real>,
    blockingBigTrade: bool,
    metodoExit: bool,
    protectionFailed: bool,
    mustBeFlat: bool)
  {
    predicate Valid() {
      && price > 0.0 && atr5m > 0.0 && tick > 0.0
      && entryFee >= 0.0 && exitFee >= 0.0 && slippage >= 0.0
      && (fib25.Some? ==> fib25.value > 0.0)
      && (fib50.Some? ==> fib50.value > 0.0)
      && (fib66.Some? ==> fib66.value > 0.0)
    }
  }

  datatype Action = Action(
    kind: Kind,
    market: bool,
    quantity: Option<real>,
    stop: Option<real>,
    average: Option<real>,
    resultingRisk: real,
    reduceOnly: bool,
    telemetryOnly: bool,
    accountHalt: bool)

  predicate IsExit(k: Kind) {
    k.ExitFullFib66? || k.ExitFullMetodoCrossDown? || k.ExitFullBlockingBigTrade? || k.ExitFullSessionClose?
    || k.EmergencyExitFull?
  }

  predicate IsTelemetry(k: Kind) {
    k.RecordFib25? || k.RecordFib50Research? || k.ObservePartial12R? || k.ObservePartial15R?
  }

  function Favorable(side: Side, entry: real, price: real): real {
    if side == Buy then price - entry else entry - price
  }

  predicate Reached(side: Side, price: real, target: Option<real>) {
    target.Some? && (if side == Buy then price >= target.value else price <= target.value)
  }

  /** Fees, slippage and one tick, rounded up to whole ticks. */
  function BreakEvenOffset(f: Facts): real
    requires f.tick > 0.0
  {
    Steps(Ceiling((f.entryFee + f.exitFee + f.slippage + f.tick) / f.tick), f.tick)
  }

  function BreakEvenStop(side: Side, entry: real, offset: real): real {
    if side == Buy then entry + offset else entry - offset
  }

  function NonWidening(side: Side, current: Option<real>, proposed: real): real {
    if current.None? then proposed
    else if side == Buy then Max(current.value, proposed)
    else Min(current.value, proposed)
  }

  function WorstCase(side: Side, average: real, stop: real, quantity: real): real {
    Max(if side == Buy then average - stop else stop - average, 0.0) * quantity
  }

  function Weighted(average: real, held: real, price: real, added: real): real
    requires held + added > 0.0
  {
    (average * held + price * added) / (held + added)
  }

  function AddAction(p: Position, f: Facts): Option<Action>
    requires p.Valid() && f.Valid()
  {
    var favorable := Favorable(p.side, p.initialEntry, f.price);
    var threshold := Max(p.initialEntry * 0.0010, f.atr5m * 0.35);
    if p.addCount != 0 || !f.slippageSampled || favorable < threshold || favorable <= 0.0 then None
    else
      var total := p.remaining + p.initialQuantity;
      var average := Weighted(p.averageEntry, p.remaining, f.price, p.initialQuantity);
      var stop := NonWidening(p.side, p.activeStop, BreakEvenStop(p.side, average, BreakEvenOffset(f)));
      var risk := WorstCase(p.side, average, stop, total);
      if risk > Min(p.worstRisk, p.originalRisk) then None
      else
        Some(Action(AddAndMoveStop, true, Some(p.initialQuantity), Some(stop), Some(average), risk, false, false, false))
  }

  function BreakEvenAction(p: Position, f: Facts): Option<Action>
    requires p.Valid() && f.Valid()
  {
    var initialR := Abs(p.initialEntry - p.initialStop);
    if p.breakEvenActive || !f.slippageSampled || Favorable(p.side, p.initialEntry, f.price) < initialR * 0.30 then None
    else
      var stop := NonWidening(p.side, p.activeStop, BreakEvenStop(p.side, p.averageEntry, BreakEvenOffset(f)));
      var risk := WorstCase(p.side, p.averageEntry, stop, p.remaining);
      Some(Action(MoveStopToBreakEven, false, None, Some(stop), Some(p.averageEntry), risk, false, false, false))
  }

  function Telemetry(p: Position, kind: Kind): Action {
    Action(kind, false, None, None, None, p.worstRisk, false, true, false)
  }

  function FullExit(p: Position, kind: Kind, halt: bool): Action {
    Action(kind, true, Some(p.remaining), None, None, 0.0, true, false, halt)
  }

  function ActivateStop(p: Position): Action {
    Action(ActivateInitialStop, false, None, Some(p.initialStop), Some(p.averageEntry), p.worstRisk, false, false, false)
  }

  function When(guard: bool, a: Action): seq<Action> { if guard then [a] else [] }

  /** Marks recorded once each, in a fixed order. */
  function Marks(p: Position, at25: bool, at50: bool, at12R: bool, at15R: bool): seq<Action> {
    When(!p.fib25 && at25, Telemetry(p, RecordFib25))
    + When(!p.fib50 && at50, Telemetry(p, RecordFib50Research))
    + When(!p.shadow12 && at12R, Telemetry(p, ObservePartial12R))
    + When(!p.shadow15 && at15R, Telemetry(p, ObservePartial15R))
  }

  /** Shadow mode has seen the price `multiple` initial risks in front. */
  predicate InFront(p: Position, f: Facts, mode: Mode, multiple: real) {
    mode == Shadow && Favorable(p.side, p.initialEntry, f.price) >= Abs(p.initialEntry - p.initialStop) * multiple
  }

  function Observations(p: Position, f: Facts, mode: Mode): seq<Action> {
    Marks(
      p, Reached(p.side, f.price, f.fib25), Reached(p.side, f.price, f.fib50), InFront(p, f, mode, 1.2),
      InFront(p, f, mode, 1.5))
  }

  /** The first five priorities: facts that close the whole position. */
  function ExitKind(p: Position, f: Facts): Option<Kind> {
    if f.protectionFailed then Some(EmergencyExitFull)
    else if f.mustBeFlat then Some(ExitFullSessionClose)
    else if f.blockingBigTrade then Some(ExitFullBlockingBigTrade)
    else if f.metodoExit then Some(ExitFullMetodoCrossDown)
    else if Reached(p.side, f.price, f.fib66) then Some(ExitFullFib66)
    else None
  }

  /** The decision, by falling priority. */
  function Manage(p: Position, f: Facts, mode: Mode): seq<Action>
    requires p.Valid() && f.Valid()
  {
    if ExitKind(p, f).Some? then [FullExit(p, ExitKind(p, f).value, f.protectionFailed)]
    else if p.activeStop.None? then [ActivateStop(p)]
    else if AddAction(p, f).Some? then [AddAction(p, f).value]
    else
      (if BreakEvenAction(p, f).Some? then [BreakEvenAction(p, f).value] else []) + Observations(p, f, mode)
  }

  datatype ManageError = InvalidPosition | InvalidFacts

  /** The manager as it is written: early returns, then a list that grows. */
  method ManageV6Position(p: Position, f: Facts, mode: Mode) returns (r: Result<seq<Action>, ManageError>)
    ensures r.Ok? <==> p.Valid() && f.Valid()
    ensures r.Ok? ==> r.value == Manage(p, f, mode)
  {
    if !p.Valid() {
      return Err(InvalidPosition);
    }
    if !f.Valid() {
      return Err(InvalidFacts);
    }
    if f.protectionFailed {
      return Ok([FullExit(p, EmergencyExitFull, true)]);
    }
    if f.mustBeFlat {
      return Ok([FullExit(p, ExitFullSessionClose, false)]);
    }
    if f.blockingBigTrade {
      return Ok([FullExit(p, ExitFullBlockingBigTrade, false)]);
    }
    if f.metodoExit {
      return Ok([FullExit(p, ExitFullMetodoCrossDown, false)]);
    }
    if Reached(p.side, f.price, f.fib66) {
      return Ok([FullExit(p, ExitFullFib66, false)]);
    }
    if p.activeStop.None? {
      return Ok([ActivateStop(p)]);
    }
    var add := AddAction(p, f);
    if add.Some? {
      return Ok([add.value]);
    }
    var actions := FollowUp(p, f, mode);
    r := Ok(actions);
  }

  /** The list that grows: the break-even move if there is one, then the marks. */
  method FollowUp(p: Position, f: Facts, mode: Mode) returns (actions: seq<Action>)
    requires p.Valid() && f.Valid()
    ensures actions ==
            (if BreakEvenAction(p, f).Some? then [BreakEvenAction(p, f).value] else []) + Observations(p, f, mode)
  {
    actions := [];
    var breakEven := BreakEvenAction(p, f);
    if breakEven.Some? {
      actions := actions + [breakEven.value];
    }
    var marks := ObserveMarks(p, f, mode);
    actions := actions + marks;
  }

  /** When each mark is due: reached, and not recorded before. */
  predicate Due(kind: Kind, p: Position, f: Facts, mode: Mode) {
    match kind
    case RecordFib25 => !p.fib25 && Reached(p.side, f.price, f.fib25)
    case RecordFib50Research => !p.fib50 && Reached(p.side, f.price, f.fib50)
    case ObservePartial12R => !p.shadow12 && InFront(p, f, mode, 1.2)
    case ObservePartial15R => !p.shadow15 && InFront(p, f, mode, 1.5)
    case _ => false
  }

  predicate Has(actions: seq<Action>, kind: Kind) { exists i :: 0 <= i < |actions| && actions[i].kind == kind }

  /** A mark moves nothing: no order, no quantity, no price, no halt, and the risk as it was. */
  predicate MarkOnly(p: Position, a: Action) {
    && a.telemetryOnly && !a.market && !a.reduceOnly && !a.accountHalt
    && a.quantity.None? && a.stop.None? && a.average.None? && a.resultingRisk == p.worstRisk
  }

  lemma HasJoin(a: seq<Action>, b: seq<Action>, kind: Kind)
    ensures Has(a + b, kind) <==> Has(a, kind) || Has(b, kind)
  {
    var joined := a + b;
    if Has(a, kind) {
      var i :| 0 <= i < |a| && a[i].kind == kind;
      assert joined[i].kind == kind;
    }
    if Has(b, kind) {
      var i :| 0 <= i < |b| && b[i].kind == kind;
      assert joined[|a| + i].kind == kind;
    }
  }

  /** Marks that move nothing, each kind at most once. */
  predicate MarksOnce(p: Position, actions: seq<Action>) {
    && (forall i, j :: 0 <= i < j < |actions| ==> actions[i].kind != actions[j].kind)
    && (forall i :: 0 <= i < |actions| ==> MarkOnly(p, actions[i]))
  }

  lemma MarksJoin(p: Position, a: seq<Action>, b: seq<Action>)
    requires MarksOnce(p, a) && MarksOnce(p, b) && forall kind :: !(Has(a, kind) && Has(b, kind))
    ensures MarksOnce(p, a + b)
    ensures forall kind :: Has(a + b, kind) <==> Has(a, kind) || Has(b, kind)
  {
    var joined := a + b;
    forall i, j | 0 <= i < j < |joined|
      ensures joined[i].kind != joined[j].kind
    {
      if i < |a| <= j {
        assert Has(a, a[i].kind) && Has(b, b[j - |a|].kind);
      }
    }
    forall kind
      ensures Has(joined, kind) <==> Has(a, kind) || Has(b, kind)
    {
      HasJoin(a, b, kind);
    }
  }

  /** A mark of one kind if its guard holds, and otherwise nothing. */
  predicate Single(p: Position, actions: seq<Action>, guard: bool, kind: Kind) {
    MarksOnce(p, actions) && forall k :: Has(actions, k) <==> guard && k == kind
  }

  lemma WhenIsSingle(p: Position, guard: bool, kind: Kind)
    ensures Single(p, When(guard, Telemetry(p, kind)), guard, kind)
  {
    assert guard ==> When(guard, Telemetry(p, kind))[0].kind == kind;
  }

  lemma FourSingles(
      p: Position, a: seq<Action>, b: seq<Action>, c: seq<Action>, d: seq<Action>,
      g25: bool, g50: bool, g12: bool, g15: bool)
    requires Single(p, a, g25, RecordFib25) && Single(p, b, g50, RecordFib50Research)
    requires Single(p, c, g12, ObservePartial12R) && Single(p, d, g15, ObservePartial15R)
    ensures MarksOnce(p, a + b + c + d)
    ensures forall k :: Has(a + b + c + d, k) <==> Has(a, k) || Has(b, k) || Has(c, k) || Has(d, k)
  {
    MarksJoin(p, a, b);
    MarksJoin(p, a + b, c);
    MarksJoin(p, a + b + c, d);
  }

  lemma ObservationsMean(p: Position, f: Facts, mode: Mode)
    ensures MarksOnce(p, Observations(p, f, mode))
    ensures forall kind :: Has(Observations(p, f, mode), kind) <==> Due(kind, p, f, mode)
  {
    var g25, g50 := Due(RecordFib25, p, f, mode), Due(RecordFib50Research, p, f, mode);
    var g12, g15 := Due(ObservePartial12R, p, f, mode), Due(ObservePartial15R, p, f, mode);
    WhenIsSingle(p, g25, RecordFib25);
    WhenIsSingle(p, g50, RecordFib50Research);
    WhenIsSingle(p, g12, ObservePartial12R);
    WhenIsSingle(p, g15, ObservePartial15R);
    FourSingles(
      p, When(g25, Telemetry(p, RecordFib25)), When(g50, Telemetry(p, RecordFib50Research)),
      When(g12, Telemetry(p, ObservePartial12R)), When(g15, Telemetry(p, ObservePartial15R)), g25, g50, g12, g15);
  }

  /** The list holds exactly the marks that are due, each once, and moves nothing. */
  method ObserveMarks(p: Position, f: Facts, mode: Mode) returns (actions: seq<Action>)
    ensures forall kind :: Has(actions, kind) <==> Due(kind, p, f, mode)
    ensures MarksOnce(p, actions)
    ensures actions == Observations(p, f, mode)
  {
    actions := When(!p.fib25 && Reached(p.side, f.price, f.fib25), Telemetry(p, RecordFib25));
    actions := actions + When(!p.fib50 && Reached(p.side, f.price, f.fib50), Telemetry(p, RecordFib50Research));
    actions := actions + When(!p.shadow12 && InFront(p, f, mode, 1.2), Telemetry(p, ObservePartial12R));
    actions := actions + When(!p.shadow15 && InFront(p, f, mode, 1.5), Telemetry(p, ObservePartial15R));
    ObservationsMean(p, f, mode);
  }

  // ---- One decision ----

  lemma OffsetIsPositive(f: Facts)
    requires f.Valid()
    ensures BreakEvenOffset(f) > 0.0
  {
    CeilingToStep(f.entryFee + f.exitFee + f.slippage + f.tick, f.tick);
  }

  lemma NothingAtRisk(loss: real, quantity: real)
    requires loss <= 0.0
    ensures Max(loss, 0.0) * quantity == 0.0
  {
  }

  /** A stop moved past its own average by a positive offset leaves nothing at risk, whatever it was before. */
  lemma MovedStopRisksNothing(side: Side, current: Option<real>, average: real, offset: real, quantity: real)
    requires offset > 0.0
    ensures WorstCase(side, average, NonWidening(side, current, BreakEvenStop(side, average, offset)), quantity) == 0.0
  {
    var stop := NonWidening(side, current, BreakEvenStop(side, average, offset));
    NothingAtRisk(if side == Buy then average - stop else stop - average, quantity);
  }

  /** The add's own trigger: none made yet, enough slippage samples, and far enough in front. */
  predicate AddTriggered(p: Position, f: Facts) {
    && p.addCount == 0 && f.slippageSampled
    && Favorable(p.side, p.initialEntry, f.price) >= Max(p.initialEntry * 0.0010, f.atr5m * 0.35)
  }

  /** The break-even trigger: none made yet, enough slippage samples, three tenths of R in front. */
  predicate BreakEvenTriggered(p: Position, f: Facts) {
    && !p.breakEvenActive && f.slippageSampled
    && Favorable(p.side, p.initialEntry, f.price) >= 0.30 * Abs(p.initialEntry - p.initialStop)
  }

  /** An add leaves exactly zero risk, so it is proposed on its triggers alone: the refusal on
      resulting risk never fires. */
  lemma AddIsNeverRefusedForRisk(p: Position, f: Facts)
    requires p.Valid() && f.Valid()
    ensures AddAction(p, f).Some? <==> AddTriggered(p, f)
    ensures AddAction(p, f).Some? ==> AddAction(p, f).value.resultingRisk == 0.0
  {
    OffsetIsPositive(f);
    MovedStopRisksNothing(
      p.side, p.activeStop, Weighted(p.averageEntry, p.remaining, f.price, p.initialQuantity), BreakEvenOffset(f),
      p.remaining + p.initialQuantity);
  }

  lemma BreakEvenRisksNothing(p: Position, f: Facts)
    requires p.Valid() && f.Valid() && BreakEvenAction(p, f).Some?
    ensures BreakEvenAction(p, f).value.resultingRisk == 0.0
  {
    OffsetIsPositive(f);
    MovedStopRisksNothing(p.side, p.activeStop, p.averageEntry, BreakEvenOffset(f), p.remaining);
  }

  function Costs(f: Facts): real { f.entryFee + f.exitFee + f.slippage }

  /** The offset is a whole number of ticks, covers every cost and a tick, and no smaller one does. */
  lemma OffsetIsTheLeastCover(f: Facts, k: int)
    requires f.Valid()
    ensures exists n :: BreakEvenOffset(f) == Steps(n, f.tick)
    ensures BreakEvenOffset(f) >= Costs(f) + f.tick
    ensures Steps(k, f.tick) >= Costs(f) + f.tick ==> BreakEvenOffset(f) <= Steps(k, f.tick)
  {
    var raw := f.entryFee + f.exitFee + f.slippage + f.tick;
    CeilingToStep(raw, f.tick);
    CeilingIsLeast(raw, f.tick, k);
  }

  /** Whichever action moves the stop, being stopped there gains every unit its fees, its slippage and
      a tick over the average it is moved around. */
  lemma MovedStopPaysItsCosts(p: Position, f: Facts)
    requires p.Valid() && f.Valid()
    ensures AddAction(p, f).Some? ==>
              var a := AddAction(p, f).value;
              a.stop.Some? && a.average.Some? && Favorable(p.side, a.average.value, a.stop.value) >= Costs(f) + f.tick
    ensures BreakEvenAction(p, f).Some? ==>
              var a := BreakEvenAction(p, f).value;
              a.stop.Some? && a.average == Some(p.averageEntry) &&
              Favorable(p.side, p.averageEntry, a.stop.value) >= Costs(f) + f.tick
  {
    OffsetIsTheLeastCover(f, 0);
  }

  /** The average of an add is the price at which the whole position cost what its parts did. */
  lemma AddConservesCost(p: Position, f: Facts)
    requires p.Valid() && f.Valid() && AddAction(p, f).Some?
    ensures var average := AddAction(p, f).value.average.value;
            average * (p.remaining + p.initialQuantity) == p.averageEntry * p.remaining + f.price * p.initialQuantity
  {
    QuotientTimes(p.averageEntry * p.remaining + f.price * p.initialQuantity, p.remaining + p.initialQuantity);
  }

  lemma BreakEvenIff(p: Position, f: Facts)
    requires p.Valid() && f.Valid()
    ensures BreakEvenAction(p, f).Some? <==> BreakEvenTriggered(p, f)
  {
  }

  // ---- What each decision says, fact by fact ----

  /** A price level counts as reached once the price stands at it or beyond it in the trade's favour. */
  lemma ReachedIff(side: Side, price: real, target: Option<real>)
    ensures Reached(side, price, target) <==> target.Some? && Favorable(side, target.value, price) >= 0.0
  {
  }

  /** The whole remaining quantity at market, reducing, with no stop left behind. */
  predicate ClosesAll(p: Position, a: Action, kind: Kind, halt: bool) {
    && a.kind == kind && a.market && a.reduceOnly && !a.telemetryOnly && a.accountHalt == halt
    && a.quantity == Some(p.remaining) && a.stop.None? && a.average.None? && a.resultingRisk == 0.0
  }

  /** The exits, each on its own fact and below the facts more urgent than it. */
  lemma ExitsByPriority(p: Position, f: Facts, mode: Mode)
    requires p.Valid() && f.Valid()
    ensures var d := Manage(p, f, mode);
            var reached := f.fib66.Some? && Favorable(p.side, f.fib66.value, f.price) >= 0.0;
            && (f.protectionFailed ==> |d| == 1 && ClosesAll(p, d[0], EmergencyExitFull, true))
            && (!f.protectionFailed && f.mustBeFlat ==> |d| == 1 && ClosesAll(p, d[0], ExitFullSessionClose, false))
            && (!f.protectionFailed && !f.mustBeFlat && f.blockingBigTrade ==>
                  |d| == 1 && ClosesAll(p, d[0], ExitFullBlockingBigTrade, false))
            && (!f.protectionFailed && !f.mustBeFlat && !f.blockingBigTrade && f.metodoExit ==>
                  |d| == 1 && ClosesAll(p, d[0], ExitFullMetodoCrossDown, false))
            && (!f.protectionFailed && !f.mustBeFlat && !f.blockingBigTrade && !f.metodoExit && reached ==>
                  |d| == 1 && ClosesAll(p, d[0], ExitFullFib66, false))
  {
    ReachedIff(p.side, f.price, f.fib66);
  }

  /** With no other exit fact, the position is closed at its 66 level if and only if the price is at it or
      past it in the trade's favour. */
  lemma Fib66ExitIff(p: Position, f: Facts, mode: Mode, level: real)
    requires p.Valid() && f.Valid() && f.fib66 == Some(level)
    requires !f.protectionFailed && !f.mustBeFlat && !f.blockingBigTrade && !f.metodoExit
    ensures Favorable(p.side, level, f.price) >= 0.0 <==>
              var d := Manage(p, f, mode);
              |d| == 1 && ClosesAll(p, d[0], ExitFullFib66, false)
  {
    ExitsByPriority(p, f, mode);
    ReachedIff(p.side, f.price, f.fib66);
    if !Reached(p.side, f.price, f.fib66) {
      NoExitKind(p, f, mode);
    }
  }

  /** Below every exit fact no decision closes anything. */
  lemma NoExitKind(p: Position, f: Facts, mode: Mode)
    requires p.Valid() && f.Valid() && ExitKind(p, f).None?
    ensures forall i :: 0 <= i < |Manage(p, f, mode)| ==> !IsExit(Manage(p, f, mode)[i].kind)
  {
    NoMarkExits(p, f, mode);
  }

  lemma NoMarkExits(p: Position, f: Facts, mode: Mode)
    ensures forall i :: 0 <= i < |Observations(p, f, mode)| ==> !IsExit(Observations(p, f, mode)[i].kind)
  {
    ObservationsMean(p, f, mode);
    var marks := Observations(p, f, mode);
    forall i | 0 <= i < |marks|
      ensures !IsExit(marks[i].kind)
    {
      assert Has(marks, marks[i].kind);
    }
  }

  /** When each mark is due, in prices. */
  lemma MarksAreDueIff(p: Position, f: Facts, mode: Mode)
    ensures Due(RecordFib25, p, f, mode) <==>
              !p.fib25 && f.fib25.Some? && Favorable(p.side, f.fib25.value, f.price) >= 0.0
    ensures Due(RecordFib50Research, p, f, mode) <==>
              !p.fib50 && f.fib50.Some? && Favorable(p.side, f.fib50.value, f.price) >= 0.0
    ensures Due(ObservePartial12R, p, f, mode) <==>
              !p.shadow12 && mode == Shadow &&
              Favorable(p.side, p.initialEntry, f.price) >= 1.2 * Abs(p.initialEntry - p.initialStop)
    ensures Due(ObservePartial15R, p, f, mode) <==>
              !p.shadow15 && mode == Shadow &&
              Favorable(p.side, p.initialEntry, f.price) >= 1.5 * Abs(p.initialEntry - p.initialStop)
  {
    ReachedIff(p.side, f.price, f.fib25);
    ReachedIff(p.side, f.price, f.fib50);
  }

  /** A position without its stop gets that first, and nothing else. */
  lemma StopComesFirst(p: Position, f: Facts, mode: Mode)
    requires p.Valid() && f.Valid() && ExitKind(p, f).None? && p.activeStop.None?
    ensures var d := Manage(p, f, mode);
            |d| == 1 && d[0].kind == ActivateInitialStop && d[0].stop == Some(p.initialStop)
            && d[0].quantity.None? && !d[0].market
  {
  }

  /** A protected position adds alone when the add triggers, and otherwise moves its stop exactly when
      break-even triggers and records exactly the marks that are due. */
  lemma ProtectedDecision(p: Position, f: Facts, mode: Mode)
    requires p.Valid() && f.Valid() && ExitKind(p, f).None? && p.activeStop.Some?
    ensures var d := Manage(p, f, mode);
            && (AddTriggered(p, f) ==>
                  |d| == 1 && d[0].kind == AddAndMoveStop && d[0].market && !d[0].reduceOnly
                  && d[0].quantity == Some(p.initialQuantity))
            && (!AddTriggered(p, f) ==>
                  && (Has(d, MoveStopToBreakEven) <==> BreakEvenTriggered(p, f))
                  && forall kind :: kind != MoveStopToBreakEven ==> (Has(d, kind) <==> Due(kind, p, f, mode)))
  {
    AddIsNeverRefusedForRisk(p, f);
    BreakEvenIff(p, f);
    if !AddTriggered(p, f) {
      FollowUpHas(p, f, mode);
      var lead := if BreakEvenAction(p, f).Some? then [BreakEvenAction(p, f).value] else [];
      assert Manage(p, f, mode) == lead + Observations(p, f, mode);
      assert !Due(MoveStopToBreakEven, p, f, mode);
    }
  }

  lemma FollowUpHas(p: Position, f: Facts, mode: Mode)
    requires p.Valid() && f.Valid()
    ensures var lead := if BreakEvenAction(p, f).Some? then [BreakEvenAction(p, f).value] else [];
            forall kind :: Has(lead + Observations(p, f, mode), kind) <==>
              (BreakEvenAction(p, f).Some? && kind == MoveStopToBreakEven) || Due(kind, p, f, mode)
  {
    var lead := if BreakEvenAction(p, f).Some? then [BreakEvenAction(p, f).value] else [];
    ObservationsMean(p, f, mode);
    forall kind
      ensures Has(lead, kind) <==> BreakEvenAction(p, f).Some? && kind == MoveStopToBreakEven
    {
      assert BreakEvenAction(p, f).Some? ==> lead[0].kind == MoveStopToBreakEven;
    }
    forall kind
      ensures Has(lead + Observations(p, f, mode), kind) <==> Has(lead, kind) || Has(Observations(p, f, mode), kind)
    {
      HasJoin(lead, Observations(p, f, mode), kind);
    }
  }

  /** Worst-case risk is what being stopped would lose on the whole quantity, and nothing if it would gain. */
  lemma WorstCaseIsTheLossAtTheStop(side: Side, average: real, stop: real, quantity: real)
    ensures Favorable(side, average, stop) >= 0.0 ==> WorstCase(side, average, stop, quantity) == 0.0
    ensures Favorable(side, average, stop) < 0.0 ==>
              WorstCase(side, average, stop, quantity) == -Favorable(side, average, stop) * quantity
  {
    if Favorable(side, average, stop) >= 0.0 {
      NothingAtRisk(if side == Buy then average - stop else stop - average, quantity);
    }
  }

  /** A moved stop is the tighter of the stop there was and the break-even stop around the average. */
  lemma MovedStopIsTheTighter(side: Side, current: real, average: real, offset: real)
    ensures var stop := NonWidening(side, Some(current), BreakEvenStop(side, average, offset));
            var even := if side == Buy then average + offset else average - offset;
            && (stop == current || stop == even)
            && Favorable(side, current, stop) >= 0.0 && Favorable(side, even, stop) >= 0.0
  {
  }
}
