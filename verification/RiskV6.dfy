/** The per-trade risk evaluation: one floored quantity under a stack of blockers. */
module RiskV6 {
  import opened Common
  import opened Arithmetic

  datatype Market = KrxCash | UsCash | BinanceUsdm

  datatype Grade = Reject | Normal | ACandidate | A

  datatype Blocker =
    | SetupRejected
    | CashACandidateUnsupported
    | BinanceAtr30sRequired
    | BinanceLeverageRequired
    | BinanceLeverageLimit
    | CashAtr30sNotApplicable
    | CashLeverageNotApplicable
    | InvalidLongStructuralReference
    | InvalidShortStructuralReference
    | NonPositiveStop
    | SpreadAboveThreeTicks
    | StopDistanceBelowMinimum
    | StopDistanceAboveMaximum
    | DailyLossLimit
    | WeeklyLossLimit
    | ConsecutiveLossLimit
    | SessionTradeUpperBound
    | SessionObjectiveReached
    | OpenRiskLimit
    | RoundedQuantityZero

  const TRADE_RISK_CEILING := 0.01
  const MAX_SPREAD_TICKS := 3.0
  const SESSION_TRADE_UPPER_BOUND := 8
  const STOP_DISTANCE_MINIMUM_ATR := 0.40
  const STOP_DISTANCE_MAXIMUM_ATR := 1.50
  const MAX_LEVERAGE := 50

  predicate Fraction(x: real) { 0.0 < x <= 1.0 }

  /** The policy bounds that a snapshot checks when it is built. */
  datatype Policy = Policy(
    market: Market,
    normal: real,
    aCandidate: Option<real>,
    a: real,
    absolute: real,
    dailyLoss: real,
    weeklyLoss: real,
    maxConsecutiveLosses: int,
    maxOpenStructural: real)
  {
    predicate Valid() {
      && Fraction(normal) && Fraction(a) && Fraction(absolute)
      && Fraction(dailyLoss) && Fraction(weeklyLoss) && Fraction(maxOpenStructural)
      && (aCandidate.Some? ==> Fraction(aCandidate.value) && aCandidate.value <= absolute)
      && maxConsecutiveLosses > 0
      && normal <= absolute && a <= absolute
      && absolute <= TRADE_RISK_CEILING
      && (aCandidate.Some? <==> market == BinanceUsdm)
    }
  }

  datatype Request = Request(
    market: Market,
    grade: Grade,
    side: Side,
    entryPrice: real,
    structuralReference: real,
    tickSize: real,
    spread: real,
    atr30s: Option<real>,
    atr5m: real,
    sessionStartEquity: real,
    currentEquity: real,
    dailyNetPnl: real,
    weeklyNetPnl: real,
    consecutiveNetLosses: int,
    openStructuralRisk: real,
    quantityStep: real,
    costPerUnit: real,
    leverage: Option<int>,
    sessionTradeCount: int,
    objectiveReached: bool,
    sizeMultiplier: real,
    maxQuantity: Option<real>)
  {
    predicate Valid() {
      && entryPrice > 0.0 && structuralReference > 0.0 && tickSize > 0.0 && atr5m > 0.0
      && sessionStartEquity > 0.0 && currentEquity > 0.0 && quantityStep > 0.0
      && spread >= 0.0 && openStructuralRisk >= 0.0 && costPerUnit >= 0.0
      && (atr30s.Some? ==> atr30s.value > 0.0)
      && consecutiveNetLosses >= 0 && sessionTradeCount >= 0
      && (leverage.Some? ==> leverage.value > 0)
      && 0.0 < sizeMultiplier <= 1.0
      && (maxQuantity.Some? ==> maxQuantity.value > 0.0)
    }

    function RiskBase(): real { Min(sessionStartEquity, currentEquity) }

    function Buffer(): real {
      var ticks := Max(4.0 * tickSize, 2.0 * spread);
      if market == BinanceUsdm && atr30s.Some? then Max(ticks, 0.10 * atr30s.value) else ticks
    }

    function StopPrice(): real {
      if side == Buy then structuralReference - Buffer() else structuralReference + Buffer()
    }

    function StopDistance(): real { Abs(entryPrice - StopPrice()) }

    function PerUnitLoss(): real { StopDistance() + costPerUnit }
  }

  datatype Authority = Authority(
    allowed: bool,
    blockers: set<Blocker>,
    riskBase: real,
    riskFraction: real,
    riskBudget: real,
    structuralReference: real,
    stopPrice: real,
    quantity: real,
    stopDistanceAtr5m: real)

  datatype EvaluationError = MarketMismatch

  /** While the grade is research only, an elevated fraction is held to the normal one. */
  function AllowedFraction(fraction: real, policy: Policy): (r: real)
    ensures r <= policy.normal && r <= fraction
  {
    Min(fraction, policy.normal)
  }

  function RiskFraction(policy: Policy, grade: Grade): (r: real)
    requires policy.Valid()
    ensures 0.0 <= r <= TRADE_RISK_CEILING
    ensures r == 0.0 <==> grade == Reject || (grade == ACandidate && policy.aCandidate.None?)
  {
    match grade
    case Reject => 0.0
    case Normal => policy.normal
    case ACandidate =>
      if policy.aCandidate.None? then 0.0 else AllowedFraction(policy.aCandidate.value, policy)
    case A => AllowedFraction(policy.a, policy)
  }

  function RiskBudget(q: Request, policy: Policy): real
    requires policy.Valid()
  {
    q.RiskBase() * RiskFraction(policy, q.grade)
  }

  function RawQuantity(q: Request, policy: Policy): real
    requires policy.Valid()
  {
    SizeBeforeFlooring(RiskBudget(q, policy), q.PerUnitLoss(), q.sizeMultiplier, q.maxQuantity)
  }

  function SizeBeforeFlooring(budget: real, unitLoss: real, multiplier: real, cap: Option<real>): real {
    var scaled := Scaled(UnitsFor(budget, unitLoss), multiplier);
    if cap.Some? then Min(scaled, cap.value) else scaled
  }

  function UnitsFor(budget: real, unitLoss: real): real { if unitLoss > 0.0 then budget / unitLoss else 0.0 }

  function Scaled(quantity: real, multiplier: real): real { quantity * multiplier }

  function FlooredQuantity(q: Request, policy: Policy): real
    requires policy.Valid() && q.Valid()
  {
    FloorTo(RawQuantity(q, policy), q.quantityStep)
  }

  /** Every derived amount the guards compare against. */
  datatype Measures = Measures(
    riskBase: real,
    riskFraction: real,
    riskBudget: real,
    stopPrice: real,
    stopDistanceAtr5m: real,
    spreadLimit: real,
    dailyFloor: real,
    weeklyFloor: real,
    openCeiling: real,
    quantity: real)

  function LossFloor(base: real, fraction: real): real { -(base * fraction) }

  function OpenCeiling(base: real, policy: Policy): real { base * policy.maxOpenStructural }

  function Measure(q: Request, policy: Policy): Measures
    requires policy.Valid() && q.Valid()
  {
    Measures(
      q.RiskBase(),
      RiskFraction(policy, q.grade),
      RiskBudget(q, policy),
      q.StopPrice(),
      q.StopDistance() / q.atr5m,
      MAX_SPREAD_TICKS * q.tickSize,
      LossFloor(q.RiskBase(), policy.dailyLoss),
      LossFloor(q.RiskBase(), policy.weeklyLoss),
      OpenCeiling(q.RiskBase(), policy),
      FlooredQuantity(q, policy))
  }

  /** The reading of each blocker code, independent of the order they are appended in. */
  predicate Blocked(b: Blocker, q: Request, policy: Policy, m: Measures) {
    match b
    case SetupRejected => q.grade == Reject
    case CashACandidateUnsupported => q.grade == ACandidate && policy.aCandidate.None?
    case BinanceAtr30sRequired => q.market == BinanceUsdm && q.atr30s.None?
    case BinanceLeverageRequired => q.market == BinanceUsdm && q.leverage.None?
    case BinanceLeverageLimit => q.market == BinanceUsdm && q.leverage.Some? && q.leverage.value > MAX_LEVERAGE
    case CashAtr30sNotApplicable => q.market != BinanceUsdm && q.atr30s.Some?
    case CashLeverageNotApplicable => q.market != BinanceUsdm && q.leverage.Some?
    case InvalidLongStructuralReference => q.side == Buy && q.structuralReference >= q.entryPrice
    case InvalidShortStructuralReference => q.side == Sell && q.structuralReference <= q.entryPrice
    case NonPositiveStop => m.stopPrice <= 0.0
    case SpreadAboveThreeTicks => q.spread > m.spreadLimit
    case StopDistanceBelowMinimum => m.stopDistanceAtr5m < STOP_DISTANCE_MINIMUM_ATR
    case StopDistanceAboveMaximum => m.stopDistanceAtr5m > STOP_DISTANCE_MAXIMUM_ATR
    case DailyLossLimit => q.dailyNetPnl <= m.dailyFloor
    case WeeklyLossLimit => q.weeklyNetPnl <= m.weeklyFloor
    case ConsecutiveLossLimit => q.consecutiveNetLosses >= policy.maxConsecutiveLosses
    case SessionTradeUpperBound => q.sessionTradeCount >= SESSION_TRADE_UPPER_BOUND
    case SessionObjectiveReached => q.objectiveReached
    case OpenRiskLimit => q.openStructuralRisk + m.riskBudget > m.openCeiling
    case RoundedQuantityZero => m.quantity <= 0.0 && m.riskFraction > 0.0
  }

  /** The answer for given measures: exactly the codes whose reading holds. */
  function AuthorityFor(q: Request, policy: Policy, m: Measures): Authority {
    var blockers := set b: Blocker | Blocked(b, q, policy, m);
    Authority(
      blockers == {}, blockers, m.riskBase, m.riskFraction, m.riskBudget, q.structuralReference,
      m.stopPrice, if blockers == {} then m.quantity else 0.0, m.stopDistanceAtr5m)
  }

  /** The specification of one evaluation. */
  function Authorise(q: Request, policy: Policy): Authority
    requires policy.Valid() && q.Valid()
  {
    AuthorityFor(q, policy, Measure(q, policy))
  }

  /** Append one code when its guard holds. */
  function Note(codes: set<Blocker>, guard: bool, code: Blocker): set<Blocker> {
    if guard then codes + {code} else codes
  }

  datatype Group = OfSetup | OfStop | OfLoss | OfSize

  function GroupOf(b: Blocker): Group {
    match b
    case SetupRejected | CashACandidateUnsupported | BinanceAtr30sRequired | BinanceLeverageRequired
       | BinanceLeverageLimit | CashAtr30sNotApplicable | CashLeverageNotApplicable => OfSetup
    case InvalidLongStructuralReference | InvalidShortStructuralReference | NonPositiveStop
       | SpreadAboveThreeTicks | StopDistanceBelowMinimum | StopDistanceAboveMaximum => OfStop
    case DailyLossLimit | WeeklyLossLimit | ConsecutiveLossLimit => OfLoss
    case _ => OfSize
  }

  /** The size: budget over per-unit loss, scaled, capped, then floored to a step. */
  method SizeQuantity(budget: real, unitLoss: real, multiplier: real, cap: Option<real>, step: real)
    returns (quantity: real)
    requires step > 0.0
    ensures quantity == FloorTo(SizeBeforeFlooring(budget, unitLoss, multiplier, cap), step)
  {
    var rawQuantity := UnitsFor(budget, unitLoss);
    rawQuantity := Scaled(rawQuantity, multiplier);
    if cap.Some? {
      rawQuantity := Min(rawQuantity, cap.value);
    }
    quantity := FloorTo(rawQuantity, step);
  }

  method SizeRequest(q: Request, policy: Policy, budget: real, unitLoss: real) returns (quantity: real)
    requires policy.Valid() && q.Valid() && budget == RiskBudget(q, policy) && unitLoss == q.PerUnitLoss()
    ensures quantity == FlooredQuantity(q, policy)
  {
    quantity := SizeQuantity(budget, unitLoss, q.sizeMultiplier, q.maxQuantity, q.quantityStep);
  }

  /** The stop: a buffer of ticks, spread and, on futures, a tenth of the fast ATR, past the reference. */
  method PlaceStop(q: Request) returns (stopPrice: real)
    ensures stopPrice == q.StopPrice()
  {
    var buffer := Max(4.0 * q.tickSize, 2.0 * q.spread);
    if q.market == BinanceUsdm && q.atr30s.Some? {
      buffer := Max(buffer, 0.10 * q.atr30s.value);
    }
    stopPrice := if q.side == Buy then q.structuralReference - buffer else q.structuralReference + buffer;
  }

  /** The amounts as they are computed: budget, stop, distances, and the floored size. */
  method ComputeMeasures(q: Request, policy: Policy) returns (m: Measures)
    requires policy.Valid() && q.Valid()
    ensures m == Measure(q, policy)
  {
    var riskBase, riskBudget := q.RiskBase(), RiskBudget(q, policy);
    var stopPrice := PlaceStop(q);
    var stopDistance := q.StopDistance();
    var quantity := SizeRequest(q, policy, riskBudget, stopDistance + q.costPerUnit);
    m := Measures(
      riskBase, RiskFraction(policy, q.grade), riskBudget, stopPrice, stopDistance / q.atr5m,
      MAX_SPREAD_TICKS * q.tickSize, LossFloor(riskBase, policy.dailyLoss), LossFloor(riskBase, policy.weeklyLoss),
      OpenCeiling(riskBase, policy), quantity);
  }

  /** Codes about the grade and the market's own fields. */
  method SetupBlockers(q: Request, policy: Policy, m: Measures) returns (codes: set<Blocker>)
    ensures forall b :: b in codes <==> GroupOf(b) == OfSetup && Blocked(b, q, policy, m)
  {
    codes := {};
    if q.grade == Reject {
      codes := {SetupRejected};
    } else if q.grade == ACandidate && policy.aCandidate.None? {
      codes := {CashACandidateUnsupported};
    }
    if q.market == BinanceUsdm {
      codes := Note(codes, q.atr30s.None?, BinanceAtr30sRequired);
      codes := Note(codes, q.leverage.None?, BinanceLeverageRequired);
      codes := Note(codes, q.leverage.Some? && q.leverage.value > MAX_LEVERAGE, BinanceLeverageLimit);
    } else {
      codes := Note(codes, q.atr30s.Some?, CashAtr30sNotApplicable);
      codes := Note(codes, q.leverage.Some?, CashLeverageNotApplicable);
    }
  }

  /** Codes about where the stop falls. */
  method StopBlockers(q: Request, policy: Policy, m: Measures) returns (codes: set<Blocker>)
    ensures forall b :: b in codes <==> GroupOf(b) == OfStop && Blocked(b, q, policy, m)
  {
    codes := {};
    if q.side == Buy {
      codes := Note(codes, q.structuralReference >= q.entryPrice, InvalidLongStructuralReference);
    } else {
      codes := Note(codes, q.structuralReference <= q.entryPrice, InvalidShortStructuralReference);
    }
    codes := Note(codes, m.stopPrice <= 0.0, NonPositiveStop);
    codes := Note(codes, q.spread > m.spreadLimit, SpreadAboveThreeTicks);
    codes := Note(codes, m.stopDistanceAtr5m < STOP_DISTANCE_MINIMUM_ATR, StopDistanceBelowMinimum);
    codes := Note(codes, m.stopDistanceAtr5m > STOP_DISTANCE_MAXIMUM_ATR, StopDistanceAboveMaximum);
  }

  /** Codes about what has been lost. */
  method LossBlockers(q: Request, policy: Policy, m: Measures) returns (codes: set<Blocker>)
    ensures forall b :: b in codes <==> GroupOf(b) == OfLoss && Blocked(b, q, policy, m)
  {
    codes := {};
    codes := Note(codes, q.dailyNetPnl <= m.dailyFloor, DailyLossLimit);
    codes := Note(codes, q.weeklyNetPnl <= m.weeklyFloor, WeeklyLossLimit);
    codes := Note(codes, q.consecutiveNetLosses >= policy.maxConsecutiveLosses, ConsecutiveLossLimit);
  }

  /** Codes about trade counts, open risk and the rounded size. */
  method SizeBlockers(q: Request, policy: Policy, m: Measures) returns (codes: set<Blocker>)
    ensures forall b :: b in codes <==> GroupOf(b) == OfSize && Blocked(b, q, policy, m)
  {
    codes := {};
    codes := Note(codes, q.sessionTradeCount >= SESSION_TRADE_UPPER_BOUND, SessionTradeUpperBound);
    codes := Note(codes, q.objectiveReached, SessionObjectiveReached);
    codes := Note(codes, q.openStructuralRisk + m.riskBudget > m.openCeiling, OpenRiskLimit);
    codes := Note(codes, m.quantity <= 0.0 && m.riskFraction > 0.0, RoundedQuantityZero);
  }

  /** One evaluation, end to end. */
  method EvaluateV6Risk(q: Request, policy: Policy) returns (r: Result<Authority, EvaluationError>)
    requires policy.Valid() && q.Valid()
    ensures r.Err? <==> policy.market != q.market
    ensures r.Ok? ==> r.value == Authorise(q, policy)
  {
    if policy.market != q.market {
      return Err(MarketMismatch);
    }
    var m := ComputeMeasures(q, policy);
    var setup := SetupBlockers(q, policy, m);
    var stop := StopBlockers(q, policy, m);
    var loss := LossBlockers(q, policy, m);
    var size := SizeBlockers(q, policy, m);
    var codes := setup + stop + loss + size;
    assert codes == set b: Blocker | Blocked(b, q, policy, m) by {
      forall b: Blocker
        ensures b in codes <==> Blocked(b, q, policy, m)
      {
        assert GroupOf(b) == OfSetup || GroupOf(b) == OfStop || GroupOf(b) == OfLoss || GroupOf(b) == OfSize;
      }
    }
    r := Ok(Authority(
      codes == {}, codes, m.riskBase, m.riskFraction, m.riskBudget, q.structuralReference,
      m.stopPrice, if codes == {} then m.quantity else 0.0, m.stopDistanceAtr5m));
  }

  // ---- What an allowed answer guarantees ----

  /** A candidate size fits when it respects the cap and its stop-plus-cost loss fits the scaled budget. */
  predicate Fits(quantity: real, budget: real, unitLoss: real, multiplier: real, cap: Option<real>) {
    (cap.Some? ==> quantity <= cap.value) && quantity * unitLoss <= budget * multiplier
  }

  /** Being at most the raw size is the same as fitting, once a unit can lose anything. */
  lemma RawSizeIsTheFit(quantity: real, budget: real, unitLoss: real, multiplier: real, cap: Option<real>)
    requires unitLoss > 0.0
    ensures quantity <= SizeBeforeFlooring(budget, unitLoss, multiplier, cap)
            <==> Fits(quantity, budget, unitLoss, multiplier, cap)
  {
    ScaledShare(quantity, budget, unitLoss, multiplier);
  }

  /** The floored size is the largest step multiple that fits. */
  lemma FlooredSizeIsLargestFit(
      budget: real, unitLoss: real, multiplier: real, cap: Option<real>, step: real, k: int)
    requires unitLoss > 0.0 && step > 0.0
    ensures var size := FloorTo(SizeBeforeFlooring(budget, unitLoss, multiplier, cap), step);
            && Fits(size, budget, unitLoss, multiplier, cap)
            && (Fits(Steps(k, step), budget, unitLoss, multiplier, cap) ==> Steps(k, step) <= size)
  {
    var raw := SizeBeforeFlooring(budget, unitLoss, multiplier, cap);
    FloorToStep(raw, step, k);
    RawSizeIsTheFit(FloorTo(raw, step), budget, unitLoss, multiplier, cap);
    RawSizeIsTheFit(Steps(k, step), budget, unitLoss, multiplier, cap);
  }

  /** A positive size that fits loses something, and no more than the unscaled budget. */
  lemma FittingLossIsBounded(
      loss: real, quantity: real, budget: real, unitLoss: real, multiplier: real, cap: Option<real>)
    requires loss == quantity * unitLoss && Fits(quantity, budget, unitLoss, multiplier, cap)
    requires quantity > 0.0 && unitLoss > 0.0 && budget >= 0.0 && 0.0 < multiplier <= 1.0
    ensures 0.0 < loss <= budget
  {
    MulStrict(0.0, quantity, unitLoss);
    MulMonotone(multiplier, 1.0, budget);
  }

  lemma NotBlocked(q: Request, policy: Policy, b: Blocker)
    requires policy.Valid() && q.Valid() && Authorise(q, policy).allowed
    ensures !Blocked(b, q, policy, Measure(q, policy))
  {
    var blockers := set b: Blocker | Blocked(b, q, policy, Measure(q, policy));
    assert b !in blockers;
  }

  /** The stop of an allowed trade is positive and strictly beyond the reference on the losing side,
      at a distance inside the ATR window. */
  lemma AllowedStopIsOnTheLosingSide(q: Request, policy: Policy)
    requires policy.Valid() && q.Valid() && Authorise(q, policy).allowed
    ensures q.side == Buy ==> 0.0 < q.StopPrice() < q.structuralReference < q.entryPrice
    ensures q.side == Sell ==> q.entryPrice < q.structuralReference < q.StopPrice()
    ensures STOP_DISTANCE_MINIMUM_ATR * q.atr5m <= q.StopDistance() <= STOP_DISTANCE_MAXIMUM_ATR * q.atr5m
    ensures q.StopDistance() > 0.0
  {
    NotBlocked(q, policy, InvalidLongStructuralReference);
    NotBlocked(q, policy, InvalidShortStructuralReference);
    NotBlocked(q, policy, NonPositiveStop);
    NotBlocked(q, policy, StopDistanceBelowMinimum);
    NotBlocked(q, policy, StopDistanceAboveMaximum);
    RatioWindow(q.StopDistance(), q.atr5m, STOP_DISTANCE_MINIMUM_ATR, STOP_DISTANCE_MAXIMUM_ATR);
  }

  /** Allowed, no blocker and a positive quantity are one and the same answer. */
  lemma AllowedIffPositiveQuantity(q: Request, policy: Policy)
    requires policy.Valid() && q.Valid()
    ensures var a := Authorise(q, policy);
            (a.allowed <==> a.blockers == {}) && (a.allowed <==> a.quantity > 0.0) && (!a.allowed ==> a.quantity == 0.0)
  {
    if Authorise(q, policy).allowed {
      NotBlocked(q, policy, SetupRejected);
      NotBlocked(q, policy, CashACandidateUnsupported);
      NotBlocked(q, policy, RoundedQuantityZero);
    }
  }

  /** The size fits this request's cap and scaled budget. */
  predicate FitsRequest(quantity: real, q: Request, policy: Policy)
    requires policy.Valid()
  {
    Fits(quantity, RiskBudget(q, policy), q.PerUnitLoss(), q.sizeMultiplier, q.maxQuantity)
  }

  /** The allowed quantity is the largest step multiple that fits. */
  lemma AllowedQuantityIsLargestFit(q: Request, policy: Policy, k: int)
    requires policy.Valid() && q.Valid() && Authorise(q, policy).allowed
    ensures var quantity := Authorise(q, policy).quantity;
            && (exists n :: quantity == Steps(n, q.quantityStep))
            && FitsRequest(quantity, q, policy)
            && (FitsRequest(Steps(k, q.quantityStep), q, policy) ==> Steps(k, q.quantityStep) <= quantity)
  {
    AllowedStopIsOnTheLosingSide(q, policy);
    FlooredSizeIsLargestFit(
      RiskBudget(q, policy), q.PerUnitLoss(), q.sizeMultiplier, q.maxQuantity, q.quantityStep, k);
  }

  lemma AllowedQuantityFits(q: Request, policy: Policy) returns (quantity: real)
    requires policy.Valid() && q.Valid() && Authorise(q, policy).allowed
    ensures quantity == Authorise(q, policy).quantity && quantity > 0.0 && q.PerUnitLoss() > 0.0
    ensures FitsRequest(quantity, q, policy)
  {
    quantity := Authorise(q, policy).quantity;
    AllowedQuantityIsLargestFit(q, policy, 0);
    AllowedIffPositiveQuantity(q, policy);
    AllowedStopIsOnTheLosingSide(q, policy);
  }

  /** What an allowed trade can lose at its stop, costs included. */
  function StopLoss(q: Request, policy: Policy): real
    requires policy.Valid() && q.Valid()
  {
    Authorise(q, policy).quantity * q.PerUnitLoss()
  }

  lemma BudgetIsBounded(q: Request, policy: Policy)
    requires policy.Valid() && q.Valid()
    ensures 0.0 <= RiskBudget(q, policy) <= TRADE_RISK_CEILING * q.RiskBase()
  {
    ShareIsBounded(RiskBudget(q, policy), q.RiskBase(), RiskFraction(policy, q.grade), TRADE_RISK_CEILING);
  }

  /** The planned loss fits the budget, and the budget is at most one percent of the smaller equity. */
  lemma AllowedLossIsBounded(q: Request, policy: Policy)
    requires policy.Valid() && q.Valid() && Authorise(q, policy).allowed
    ensures 0.0 < StopLoss(q, policy) <= RiskBudget(q, policy)
    ensures RiskBudget(q, policy) <= TRADE_RISK_CEILING * q.RiskBase()
  {
    var quantity := AllowedQuantityFits(q, policy);
    BudgetIsBounded(q, policy);
    FittingLossIsBounded(
      StopLoss(q, policy), quantity, RiskBudget(q, policy), q.PerUnitLoss(), q.sizeMultiplier,
      q.maxQuantity);
  }

  // ---- What the answer says, in the request's own amounts ----

  /** A code is listed exactly when its reading holds of the computed amounts. */
  lemma ListedIff(q: Request, policy: Policy, b: Blocker)
    requires policy.Valid() && q.Valid()
    ensures b in Authorise(q, policy).blockers <==> Blocked(b, q, policy, Measure(q, policy))
  {
  }

  /** How far the stop lies past the reference, on the losing side. */
  function Room(side: Side, reference: real, stop: real): real {
    if side == Buy then reference - stop else stop - reference
  }

  /** The returned stop leaves four ticks, two spreads and, on futures, a tenth of the fast ATR past the
      reference on the losing side, and no more than the largest of these. */
  lemma StopLeavesTheLeastRoom(q: Request, policy: Policy)
    requires policy.Valid() && q.Valid()
    ensures var a := Authorise(q, policy);
            var room := Room(q.side, a.structuralReference, a.stopPrice);
            var fast := q.market == BinanceUsdm && q.atr30s.Some?;
            && a.structuralReference == q.structuralReference
            && room >= 4.0 * q.tickSize && room >= 2.0 * q.spread
            && (fast ==> room >= 0.10 * q.atr30s.value)
            && (room == 4.0 * q.tickSize || room == 2.0 * q.spread || (fast && room == 0.10 * q.atr30s.value))
  {
  }

  /** The risk base is the smaller equity. */
  lemma BaseIsTheSmallerEquity(q: Request, policy: Policy)
    requires policy.Valid() && q.Valid()
    ensures var base := Authorise(q, policy).riskBase;
            && base <= q.sessionStartEquity && base <= q.currentEquity
            && (base == q.sessionStartEquity || base == q.currentEquity)
  {
    assert Authorise(q, policy).riskBase == q.RiskBase();
  }

  lemma AuthorityCarries(q: Request, policy: Policy)
    requires policy.Valid() && q.Valid()
    ensures var a := Authorise(q, policy);
            a.riskBase == q.RiskBase() && a.riskFraction == RiskFraction(policy, q.grade) && a.riskBudget == RiskBudget(q, policy)
  {
  }

  lemma BudgetIsTheProduct(q: Request, policy: Policy, base: real, fraction: real)
    requires policy.Valid() && base == q.RiskBase() && fraction == RiskFraction(policy, q.grade)
    ensures RiskBudget(q, policy) == base * fraction
  {
  }

  /** The budget is the grade's share of it. */
  lemma BudgetIsAShare(q: Request, policy: Policy, base: real, fraction: real)
    requires policy.Valid() && q.Valid()
    requires base == Authorise(q, policy).riskBase && fraction == Authorise(q, policy).riskFraction
    ensures fraction == RiskFraction(policy, q.grade) && Authorise(q, policy).riskBudget == base * fraction
  {
    AuthorityCarries(q, policy);
    BudgetIsTheProduct(q, policy, base, fraction);
  }

  /** The grade's share: nothing when rejected, the normal fraction, or its own held to the normal one. */
  lemma FractionIsTheGrades(policy: Policy, grade: Grade)
    requires policy.Valid()
    ensures var r := RiskFraction(policy, grade);
            && (grade == Reject ==> r == 0.0)
            && (grade == Normal ==> r == policy.normal)
            && (grade == A ==> r == if policy.a <= policy.normal then policy.a else policy.normal)
            && (grade == ACandidate && policy.aCandidate.Some? ==>
                  r == if policy.aCandidate.value <= policy.normal then policy.aCandidate.value else policy.normal)
  {
  }

  /** The distance reported is the entry's to the stop, in five-minute ATRs. */
  lemma DistanceIsInAtrs(q: Request, policy: Policy)
    requires policy.Valid() && q.Valid()
    ensures var a := Authorise(q, policy);
            a.stopDistanceAtr5m * q.atr5m == if q.entryPrice >= a.stopPrice then q.entryPrice - a.stopPrice else a.stopPrice - q.entryPrice
  {
    QuotientTimes(q.StopDistance(), q.atr5m);
  }

  /** The loss limits and the open-risk limit, in the amounts the answer itself reports. */
  lemma LossLimitsMean(q: Request, policy: Policy)
    requires policy.Valid() && q.Valid()
    ensures var a := Authorise(q, policy);
            && (DailyLossLimit in a.blockers <==> q.dailyNetPnl <= -(a.riskBase * policy.dailyLoss))
            && (WeeklyLossLimit in a.blockers <==> q.weeklyNetPnl <= -(a.riskBase * policy.weeklyLoss))
  {
    ListedIff(q, policy, DailyLossLimit);
    ListedIff(q, policy, WeeklyLossLimit);
  }

  lemma OpenLimitMeans(q: Request, policy: Policy)
    requires policy.Valid() && q.Valid()
    ensures var a := Authorise(q, policy);
            OpenRiskLimit in a.blockers <==>
              q.openStructuralRisk + a.riskBudget > a.riskBase * policy.maxOpenStructural
  {
    ListedIff(q, policy, OpenRiskLimit);
  }

  /** The stop codes, likewise. */
  lemma StopCodesMean(q: Request, policy: Policy)
    requires policy.Valid() && q.Valid()
    ensures var a := Authorise(q, policy);
            && (NonPositiveStop in a.blockers <==> a.stopPrice <= 0.0)
            && (SpreadAboveThreeTicks in a.blockers <==> q.spread > 3.0 * q.tickSize)
            && (StopDistanceBelowMinimum in a.blockers <==> a.stopDistanceAtr5m < 0.40)
            && (StopDistanceAboveMaximum in a.blockers <==> a.stopDistanceAtr5m > 1.50)
  {
    ListedIff(q, policy, NonPositiveStop);
    ListedIff(q, policy, SpreadAboveThreeTicks);
    ListedIff(q, policy, StopDistanceBelowMinimum);
    ListedIff(q, policy, StopDistanceAboveMaximum);
  }

  /** The codes about grade, market and leverage. */
  lemma SetupCodesMean(q: Request, policy: Policy)
    requires policy.Valid() && q.Valid()
    ensures var a := Authorise(q, policy);
            && (SetupRejected in a.blockers <==> q.grade == Reject)
            && (CashACandidateUnsupported in a.blockers <==> q.grade == ACandidate && policy.aCandidate.None?)
            && (BinanceLeverageRequired in a.blockers <==> q.market == BinanceUsdm && q.leverage.None?)
            && (BinanceLeverageLimit in a.blockers <==> q.market == BinanceUsdm && q.leverage.Some? && q.leverage.value > 50)
  {
    ListedIff(q, policy, SetupRejected);
    ListedIff(q, policy, CashACandidateUnsupported);
    ListedIff(q, policy, BinanceLeverageRequired);
    ListedIff(q, policy, BinanceLeverageLimit);
  }

  lemma MarketCodesMean(q: Request, policy: Policy)
    requires policy.Valid() && q.Valid()
    ensures var a := Authorise(q, policy);
            && (BinanceAtr30sRequired in a.blockers <==> q.market == BinanceUsdm && q.atr30s.None?)
            && (CashAtr30sNotApplicable in a.blockers <==> q.market != BinanceUsdm && q.atr30s.Some?)
            && (CashLeverageNotApplicable in a.blockers <==> q.market != BinanceUsdm && q.leverage.Some?)
  {
    ListedIff(q, policy, BinanceAtr30sRequired);
    ListedIff(q, policy, CashAtr30sNotApplicable);
    ListedIff(q, policy, CashLeverageNotApplicable);
  }

  /** The codes about the session's counts and the side of the reference. */
  lemma CountCodesMean(q: Request, policy: Policy)
    requires policy.Valid() && q.Valid()
    ensures var a := Authorise(q, policy);
            && (ConsecutiveLossLimit in a.blockers <==> q.consecutiveNetLosses >= policy.maxConsecutiveLosses)
            && (SessionTradeUpperBound in a.blockers <==> q.sessionTradeCount >= 8)
            && (SessionObjectiveReached in a.blockers <==> q.objectiveReached)
            && (InvalidLongStructuralReference in a.blockers <==> q.side == Buy && q.structuralReference >= q.entryPrice)
            && (InvalidShortStructuralReference in a.blockers <==> q.side == Sell && q.structuralReference <= q.entryPrice)
  {
    ListedIff(q, policy, ConsecutiveLossLimit);
    ListedIff(q, policy, SessionTradeUpperBound);
    ListedIff(q, policy, SessionObjectiveReached);
    ListedIff(q, policy, InvalidLongStructuralReference);
    ListedIff(q, policy, InvalidShortStructuralReference);
  }

  /** What one unit of an allowed trade loses at the stop: the way there, and its costs. */
  lemma UnitLossIs(q: Request, policy: Policy)
    requires policy.Valid() && q.Valid() && Authorise(q, policy).allowed
    ensures q.PerUnitLoss() == Room(q.side, q.entryPrice, Authorise(q, policy).stopPrice) + q.costPerUnit
  {
    AllowedStopIsOnTheLosingSide(q, policy);
  }

  /** An allowed size, with its stop and costs, loses at most one percent of either equity. */
  lemma LossFitsBothEquities(q: Request, policy: Policy)
    requires policy.Valid() && q.Valid() && Authorise(q, policy).allowed
    ensures var a := Authorise(q, policy);
            var loss := a.quantity * (Room(q.side, q.entryPrice, a.stopPrice) + q.costPerUnit);
            && loss <= a.riskBudget
            && loss <= 0.01 * q.sessionStartEquity && loss <= 0.01 * q.currentEquity
  {
    UnitLossIs(q, policy);
    AllowedLossIsBounded(q, policy);
  }

  /** And no larger step multiple has its stop-and-cost loss fit the multiplied budget and the cap. */
  lemma NoLargerSizeFits(q: Request, policy: Policy, k: int)
    requires policy.Valid() && q.Valid() && Authorise(q, policy).allowed
    ensures var a := Authorise(q, policy);
            var unit := Room(q.side, q.entryPrice, a.stopPrice) + q.costPerUnit;
            && (exists n :: a.quantity == Steps(n, q.quantityStep))
            && Fits(a.quantity, a.riskBudget, unit, q.sizeMultiplier, q.maxQuantity)
            && (Fits(Steps(k, q.quantityStep), a.riskBudget, unit, q.sizeMultiplier, q.maxQuantity) ==>
                  Steps(k, q.quantityStep) <= a.quantity)
  {
    UnitLossIs(q, policy);
    AllowedQuantityIsLargestFit(q, policy, k);
  }
}
