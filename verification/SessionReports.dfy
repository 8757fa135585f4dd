/** What the session floor asks of the requests. The floor is proved for requests that understate
    nothing; here the entries may report anything. One result says exactly when an entry keeps the
    floors, read off the real book, and another says it for whole runs. The last part follows the request
    the live loop builds, which reports nothing and is graded just before it is evaluated, and shows under
    which policies it has no floor at all. */
module SessionReports {
  import opened Common
  import opened Arithmetic
  import opened RiskV6
  import opened RiskSession

  // ---- Entries that report what they like ----

  /** What the code accepts: as legal, but whatever the request says about the book. */
  predicate Accepted(policy: Policy, b: Book, e: Event)
    requires policy.Valid()
  {
    if e.Enter? then Gated(policy, e.request, e.reserved) else Legal(policy, b, e)
  }

  predicate AcceptedRun(policy: Policy, b: Book, es: seq<Event>)
    requires policy.Valid()
    decreases |es|
  {
    es == [] || (Accepted(policy, b, es[0]) && AcceptedRun(policy, Next(b, es[0]), es[1..]))
  }

  /** Steps that open nothing: lowering a risk, or closing a position. */
  predicate Unwinds(policy: Policy, b: Book, es: seq<Event>)
    requires policy.Valid()
    decreases |es|
  {
    es == [] || ((es[0].LowerRisk? || es[0].Close?) && Legal(policy, b, es[0]) && Unwinds(policy, Next(b, es[0]), es[1..]))
  }

  predicate NonNegative(s: seq<real>) { forall i :: 0 <= i < |s| ==> s[i] >= 0.0 }

  /** The day and the week if every open position lost all it reserves. */
  function WorstDay(b: Book): real { b.daily - Sum(b.open) }

  function WorstWeek(b: Book): real { b.weekly - Sum(b.open) }

  lemma UnwindStep(policy: Policy, b: Book, e: Event)
    requires policy.Valid() && NonNegative(b.open) && Legal(policy, b, e) && (e.LowerRisk? || e.Close?)
    ensures NonNegative(Next(b, e).open)
    ensures WorstDay(Next(b, e)) >= WorstDay(b) && WorstWeek(Next(b, e)) >= WorstWeek(b)
  {
    if e.LowerRisk? {
      SumUpdate(b.open, e.position, e.risk);
    } else {
      SumRemove(b.open, e.position);
    }
  }

  lemma {:induction false} UnwindingNeverPassesTheWorst(policy: Policy, b: Book, es: seq<Event>)
    requires policy.Valid() && NonNegative(b.open) && Unwinds(policy, b, es)
    ensures Final(b, es).daily >= WorstDay(b) && Final(b, es).weekly >= WorstWeek(b)
    decreases |es|
  {
    if es == [] {
      SumNonNegative(b.open);
    } else {
      UnwindStep(policy, b, es[0]);
      UnwindingNeverPassesTheWorst(policy, Next(b, es[0]), es[1..]);
    }
  }

  /** Closing everything at its full reserved loss reaches the worst exactly. */
  lemma {:induction false} TheWorstIsReached(policy: Policy, b: Book) returns (es: seq<Event>)
    requires policy.Valid() && NonNegative(b.open)
    ensures Unwinds(policy, b, es)
    ensures Final(b, es).daily == WorstDay(b) && Final(b, es).weekly == WorstWeek(b)
    decreases |b.open|
  {
    if b.open == [] {
      es := [];
    } else {
      var loss := Close(0, -b.open[0]);
      var rest := TheWorstIsReached(policy, Next(b, loss));
      es := [loss] + rest;
      assert es[1..] == rest;
      SumRemove(b.open, 0);
    }
  }

  /** Whichever way the open positions go, the day ends above `-day` and the week above `-week`. */
  ghost predicate StaysAbove(policy: Policy, b: Book, day: real, week: real)
    requires policy.Valid()
  {
    forall es :: Unwinds(policy, b, es) ==> Final(b, es).daily > -day && Final(b, es).weekly > -week
  }

  lemma StaysAboveIff(policy: Policy, b: Book, day: real, week: real)
    requires policy.Valid() && NonNegative(b.open)
    ensures StaysAbove(policy, b, day, week) <==> WorstDay(b) > -day && WorstWeek(b) > -week
  {
    if WorstDay(b) > -day && WorstWeek(b) > -week {
      forall es | Unwinds(policy, b, es)
        ensures Final(b, es).daily > -day && Final(b, es).weekly > -week
      {
        UnwindingNeverPassesTheWorst(policy, b, es);
      }
    } else {
      var es := TheWorstIsReached(policy, b);
    }
  }

  /** The room an entry needs in the book as it really is; a caller can test it before entering. */
  predicate RoomToLose(b: Book, reserved: real, day: real, week: real) {
    && b.daily - (Sum(b.open) + reserved) > -day
    && b.weekly - (Sum(b.open) + reserved) > -week
  }

  /** Exactly when an entry keeps the floors, whatever its request reports: when the real book, with all
      that is open and the new reservation lost, is still above them. */
  lemma EntryKeepsFloorsIff(policy: Policy, b: Book, q: Request, reserved: real, day: real, week: real)
    requires policy.Valid() && NonNegative(b.open) && reserved >= 0.0
    ensures StaysAbove(policy, Next(b, Enter(q, reserved)), day, week) <==> RoomToLose(b, reserved, day, week)
  {
    SumConcat(b.open, [reserved]);
    StaysAboveIff(policy, Next(b, Enter(q, reserved)), day, week);
  }

  /** Reporting truthfully, or worse than the truth, is one way to have that room. */
  lemma ReportingMakesRoom(policy: Policy, b: Book, q: Request, reserved: real)
    requires policy.Valid() && b.startEquity <= b.peakStart && LegalEntry(policy, b, q, reserved)
    ensures RoomToLose(b, reserved, LimitsOf(policy, b.startEquity).day, WeekLimit(policy, b.peakStart))
  {
    EntryIsGuarded(policy, b, q, reserved);
    EntryFitsDay(policy, b, reserved, q.RiskBase());
    EntryFitsWeek(policy, b, reserved, q.RiskBase());
  }

  /** The floors of a book: the day's from its session's start, the week's from the largest start. */
  ghost predicate KeepsFloors(policy: Policy, b: Book)
    requires policy.Valid()
  {
    StaysAbove(policy, b, LimitsOf(policy, b.startEquity).day, WeekLimit(policy, b.peakStart))
  }

  /** At every point of the run, whichever way the open positions then go, the floors hold. */
  ghost predicate KeepsFloorsThroughout(policy: Policy, b: Book, es: seq<Event>)
    requires policy.Valid()
    decreases |es|
  {
    KeepsFloors(policy, b) && (es != [] ==> KeepsFloorsThroughout(policy, Next(b, es[0]), es[1..]))
  }

  predicate HasRoom(policy: Policy, b: Book, e: Event)
    requires policy.Valid()
  {
    e.Enter? ==> RoomToLose(b, e.reserved, LimitsOf(policy, b.startEquity).day, WeekLimit(policy, b.peakStart))
  }

  /** Every entry of the run had room in the real book when it was taken. */
  predicate EveryEntryHasRoom(policy: Policy, b: Book, es: seq<Event>)
    requires policy.Valid()
    decreases |es|
  {
    es != [] ==> HasRoom(policy, b, es[0]) && EveryEntryHasRoom(policy, Next(b, es[0]), es[1..])
  }

  /** A book whose amounts make sense. */
  predicate Sane(b: Book) { NonNegative(b.open) && 0.0 < b.startEquity <= b.peakStart }

  lemma GatedReserves(policy: Policy, q: Request, reserved: real)
    requires policy.Valid() && Gated(policy, q, reserved)
    ensures reserved > 0.0
  {
    AllowedLossIsBounded(q, policy);
  }

  lemma NewSessionKeepsFloors(policy: Policy, b: Book, equity: real)
    requires policy.Valid() && Sane(b) && KeepsFloors(policy, b) && b.open == [] && equity > 0.0
    ensures Sane(Next(b, NewSession(equity))) && KeepsFloors(policy, Next(b, NewSession(equity)))
  {
    var n := Next(b, NewSession(equity));
    StaysAboveIff(policy, b, LimitsOf(policy, b.startEquity).day, WeekLimit(policy, b.peakStart));
    LimitsArePositive(policy, equity);
    WeekLimitMonotone(policy, b.peakStart, n.peakStart);
    StaysAboveIff(policy, n, LimitsOf(policy, n.startEquity).day, WeekLimit(policy, n.peakStart));
  }

  lemma UnwindingKeepsFloors(policy: Policy, b: Book, e: Event)
    requires policy.Valid() && Sane(b) && KeepsFloors(policy, b)
    requires Legal(policy, b, e) && (e.LowerRisk? || e.Close?)
    ensures Sane(Next(b, e)) && KeepsFloors(policy, Next(b, e))
  {
    var n := Next(b, e);
    UnwindStep(policy, b, e);
    StaysAboveIff(policy, b, LimitsOf(policy, b.startEquity).day, WeekLimit(policy, b.peakStart));
    StaysAboveIff(policy, n, LimitsOf(policy, b.startEquity).day, WeekLimit(policy, b.peakStart));
  }

  /** An accepted step keeps the floors exactly when, if it is an entry, it has room. */
  lemma StepKeepsFloorsIff(policy: Policy, b: Book, e: Event)
    requires policy.Valid() && Sane(b) && KeepsFloors(policy, b) && Accepted(policy, b, e)
    ensures Sane(Next(b, e))
    ensures KeepsFloors(policy, Next(b, e)) <==> HasRoom(policy, b, e)
  {
    match e
    case Enter(q, reserved) =>
      GatedReserves(policy, q, reserved);
      EntryKeepsFloorsIff(
        policy, b, q, reserved, LimitsOf(policy, b.startEquity).day, WeekLimit(policy, b.peakStart));
    case NewSession(equity) => NewSessionKeepsFloors(policy, b, equity);
    case _ => UnwindingKeepsFloors(policy, b, e);
  }

  /** Main result. Over every run the code accepts, whatever its entries report, the floors hold at every
      point and under every unwinding from it if and only if every entry had room when it was taken. */
  lemma {:induction false} FloorsHoldIffEveryEntryHasRoom(policy: Policy, b: Book, es: seq<Event>)
    requires policy.Valid() && Sane(b) && KeepsFloors(policy, b) && AcceptedRun(policy, b, es)
    ensures KeepsFloorsThroughout(policy, b, es) <==> EveryEntryHasRoom(policy, b, es)
    decreases |es|
  {
    if es != [] {
      StepKeepsFloorsIff(policy, b, es[0]);
      if HasRoom(policy, b, es[0]) {
        FloorsHoldIffEveryEntryHasRoom(policy, Next(b, es[0]), es[1..]);
      } else {
        assert !KeepsFloors(policy, Next(b, es[0]));
      }
    }
  }

  /** A fresh week is such a book. */
  lemma FreshKeepsFloors(policy: Policy, equity: real)
    requires policy.Valid() && equity > 0.0
    ensures Sane(Fresh(equity)) && KeepsFloors(policy, Fresh(equity))
  {
    LimitsArePositive(policy, equity);
    StaysAboveIff(policy, Fresh(equity), LimitsOf(policy, equity).day, WeekLimit(policy, equity));
  }

  // ---- Entries that report nothing ----

  /** The request the live loop builds: futures, with no day, week, losses, open risk or trades to speak
      of. Its grade and its size multiplier are set from the evidence just before it is evaluated, so they
      may be anything. */
  predicate ReportsNothing(q: Request) {
    && q.market == BinanceUsdm
    && q.dailyNetPnl == 0.0 && q.weeklyNetPnl == 0.0 && q.openStructuralRisk == 0.0
    && q.consecutiveNetLosses == 0 && q.sessionTradeCount == 0 && !q.objectiveReached
  }

  /** A trade entered and stopped out. */
  function RoundTrip(q: Request, loss: real): seq<Event> { [Enter(q, loss), Close(0, -loss)] }

  function RoundTrips(q: Request, loss: real, n: nat): seq<Event> {
    if n == 0 then [] else RoundTrip(q, loss) + RoundTrips(q, loss, n - 1)
  }

  lemma OneRoundTrip(b: Book, q: Request, loss: real)
    requires b.open == []
    ensures var after := AfterTrip(b, q, loss);
            after.open == [] && after.daily == b.daily - loss && after.weekly == b.weekly - loss
  {
  }

  function AfterTrip(b: Book, q: Request, loss: real): Book { Next(Next(b, Enter(q, loss)), Close(0, -loss)) }

  lemma TripThenRest(b: Book, q: Request, loss: real, rest: seq<Event>)
    ensures Final(b, RoundTrip(q, loss) + rest) == Final(AfterTrip(b, q, loss), rest)
  {
    var es := RoundTrip(q, loss) + rest;
    assert es[0] == Enter(q, loss) && es[1..][0] == Close(0, -loss) && es[1..][1..] == rest;
  }

  lemma TripIsAccepted(policy: Policy, b: Book, q: Request, loss: real, rest: seq<Event>)
    requires policy.Valid() && b.open == [] && Accepted(policy, b, Enter(q, loss))
    requires AcceptedRun(policy, AfterTrip(b, q, loss), rest)
    ensures AcceptedRun(policy, b, RoundTrip(q, loss) + rest)
  {
    var es := RoundTrip(q, loss) + rest;
    assert es[0] == Enter(q, loss) && es[1..][0] == Close(0, -loss) && es[1..][1..] == rest;
    assert AcceptedRun(policy, Next(b, es[0]), es[1..]);
  }

  /** The same request is accepted as often as it is sent. */
  lemma {:induction false} RoundTripsAreAccepted(policy: Policy, b: Book, q: Request, loss: real, n: nat)
    requires policy.Valid() && b.open == [] && Accepted(policy, b, Enter(q, loss))
    ensures AcceptedRun(policy, b, RoundTrips(q, loss, n))
    decreases n
  {
    if n > 0 {
      OneRoundTrip(b, q, loss);
      RoundTripsAreAccepted(policy, AfterTrip(b, q, loss), q, loss, n - 1);
      TripIsAccepted(policy, b, q, loss, RoundTrips(q, loss, n - 1));
    }
  }

  /** Each time, the day and the week lose its loss. */
  lemma {:induction false} RoundTripsAddUp(b: Book, q: Request, loss: real, n: nat)
    requires b.open == []
    ensures var end := Final(b, RoundTrips(q, loss, n));
            end.daily == b.daily - TradesLimit(n, loss) && end.weekly == b.weekly - TradesLimit(n, loss)
    decreases n
  {
    if n == 0 {
      NoEntry(loss);
    } else {
      OneRoundTrip(b, q, loss);
      RoundTripsAddUp(AfterTrip(b, q, loss), q, loss, n - 1);
      TripThenRest(b, q, loss, RoundTrips(q, loss, n - 1));
      OneMoreEntry(n - 1, loss);
    }
  }

  lemma NoEntry(trade: real)
    ensures TradesLimit(0, trade) == 0.0
  {
  }

  lemma EnoughSteps(loss: real, bound: real) returns (n: nat)
    requires loss > 0.0
    ensures TradesLimit(n, loss) > bound
  {
    var ratio := bound / loss;
    n := if ratio < 0.0 then 1 else ratio.Floor + 1;
    QuotientTimes(bound, loss);
    MulStrict(ratio, n as real, loss);
  }

  /** Without reports there is no floor: whatever loss is named, one request that reports nothing and is
      allowed once is allowed often enough to lose more than that, in the day and in the week. */
  lemma NothingReportedNoFloor(policy: Policy, equity: real, q: Request, bound: real) returns (es: seq<Event>)
    requires policy.Valid() && equity > 0.0
    requires q.Valid() && q.market == policy.market && ReportsNothing(q) && Authorise(q, policy).allowed
    ensures AcceptedRun(policy, Fresh(equity), es)
    ensures forall i :: 0 <= i < |es| && es[i].Enter? ==> es[i].request == q
    ensures Final(Fresh(equity), es).daily < -bound && Final(Fresh(equity), es).weekly < -bound
  {
    AllowedLossIsBounded(q, policy);
    var loss := StopLoss(q, policy);
    var n := EnoughSteps(loss, bound);
    RoundTripsAreAccepted(policy, Fresh(equity), q, loss, n);
    RoundTripsAddUp(Fresh(equity), q, loss, n);
    RoundTripsEnterOnly(q, loss, n);
    es := RoundTrips(q, loss, n);
  }

  lemma {:induction false} RoundTripsEnterOnly(q: Request, loss: real, n: nat)
    ensures forall i :: 0 <= i < |RoundTrips(q, loss, n)| && RoundTrips(q, loss, n)[i].Enter? ==>
              RoundTrips(q, loss, n)[i].request == q
  {
    if n > 0 {
      RoundTripsEnterOnly(q, loss, n - 1);
    }
  }

  /** A request of that shape, for a grade: a long at 100 with its structure one ATR of 10 below, sized
      in steps of the whole budget. */
  function Silent(policy: Policy, equity: real, grade: Grade): Request
    requires policy.Valid()
  {
    Request(
      BinanceUsdm, grade, Buy, 100.0, 90.0, 1.0, 0.0, Some(10.0), 10.0, equity, equity, 0.0, 0.0, 0, 0.0,
      UnitsFor(equity * RiskFraction(policy, grade), 14.0), 0.0, Some(1), 0, false, 1.0, None)
  }

  /** A futures policy that sizes the grade, at a fraction that fits its open fraction. */
  predicate LetsThrough(policy: Policy, grade: Grade)
    requires policy.Valid()
  {
    policy.market == BinanceUsdm && grade != Reject && RiskFraction(policy, grade) <= policy.maxOpenStructural
  }

  lemma SilentIsValid(policy: Policy, equity: real, grade: Grade)
    requires policy.Valid() && equity > 0.0 && LetsThrough(policy, grade)
    ensures Silent(policy, equity, grade).Valid() && ReportsNothing(Silent(policy, equity, grade))
    ensures Silent(policy, equity, grade).StopPrice() == 86.0 && Silent(policy, equity, grade).PerUnitLoss() == 14.0
  {
    var fraction := RiskFraction(policy, grade);
    ShareIsPositive(equity * fraction, equity, fraction);
    QuotientIsPositive(equity * fraction, 14.0);
  }

  /** One step of itself is the whole of it. */
  lemma FloorToItself(size: real)
    requires size > 0.0
    ensures FloorTo(size, size) == size
  {
    QuotientTimes(size, size);
    assert size / size == 1.0;
    assert 1.0.Floor == 1;
  }

  lemma SilentQuantity(policy: Policy, equity: real, grade: Grade)
    requires policy.Valid() && equity > 0.0 && LetsThrough(policy, grade) && Silent(policy, equity, grade).Valid()
    ensures FlooredQuantity(Silent(policy, equity, grade), policy) > 0.0
  {
    var q := Silent(policy, equity, grade);
    SilentIsValid(policy, equity, grade);
    assert RawQuantity(q, policy) == q.quantityStep;
    FloorToItself(q.quantityStep);
  }

  lemma NothingLostYet(equity: real, fraction: real)
    requires equity > 0.0 && fraction > 0.0
    ensures 0.0 > LossFloor(equity, fraction)
  {
    ShareIsPositive(equity * fraction, equity, fraction);
  }

  lemma BudgetFitsOpen(base: real, fraction: real, open: real, budget: real, ceiling: real)
    requires base > 0.0 && budget == base * fraction && ceiling == base * open
    ensures budget <= ceiling <==> fraction <= open
  {
    if fraction <= open {
      MulMonotone(fraction, open, base);
    } else {
      MulStrict(open, fraction, base);
    }
  }

  lemma SilentSetupIsClear(policy: Policy, q: Request, m: Measures, b: Blocker)
    requires GroupOf(b) == OfSetup && policy.aCandidate.Some?
    requires q.market == BinanceUsdm && q.grade != Reject && q.atr30s.Some? && q.leverage == Some(1)
    ensures !Blocked(b, q, policy, m)
  {
  }

  lemma SilentStopIsClear(policy: Policy, q: Request, m: Measures, b: Blocker)
    requires GroupOf(b) == OfStop && m.stopPrice == 86.0 && m.stopDistanceAtr5m == 1.4 && m.spreadLimit == 3.0
    requires q.side == Buy && q.structuralReference < q.entryPrice && q.spread == 0.0
    ensures !Blocked(b, q, policy, m)
  {
  }

  lemma SilentLossIsClear(policy: Policy, q: Request, m: Measures, b: Blocker)
    requires GroupOf(b) == OfLoss && ReportsNothing(q) && policy.maxConsecutiveLosses > 0
    requires m.dailyFloor < 0.0 && m.weeklyFloor < 0.0
    ensures !Blocked(b, q, policy, m)
  {
  }

  lemma SilentSizeIsClear(policy: Policy, q: Request, m: Measures, b: Blocker)
    requires GroupOf(b) == OfSize && ReportsNothing(q) && m.riskBudget <= m.openCeiling && m.quantity > 0.0
    ensures !Blocked(b, q, policy, m)
  {
  }

  lemma SilentMeasures(policy: Policy, equity: real, grade: Grade) returns (m: Measures)
    requires policy.Valid() && equity > 0.0 && LetsThrough(policy, grade) && Silent(policy, equity, grade).Valid()
    ensures m == Measure(Silent(policy, equity, grade), policy)
    ensures m.stopPrice == 86.0 && m.stopDistanceAtr5m == 1.4 && m.spreadLimit == 3.0
    ensures m.dailyFloor < 0.0 && m.weeklyFloor < 0.0 && m.riskBudget <= m.openCeiling && m.quantity > 0.0
  {
    m := Measure(Silent(policy, equity, grade), policy);
    SilentIsValid(policy, equity, grade);
    SilentQuantity(policy, equity, grade);
    NothingLostYet(equity, policy.dailyLoss);
    NothingLostYet(equity, policy.weeklyLoss);
    BudgetFitsOpen(
      equity, RiskFraction(policy, grade), policy.maxOpenStructural, m.riskBudget, m.openCeiling);
  }

  lemma SilentIsAllowed(policy: Policy, equity: real, grade: Grade)
    requires policy.Valid() && equity > 0.0 && LetsThrough(policy, grade)
    ensures Silent(policy, equity, grade).Valid()
    ensures ReportsNothing(Silent(policy, equity, grade))
    ensures Authorise(Silent(policy, equity, grade), policy).allowed
  {
    SilentIsValid(policy, equity, grade);
    var q := Silent(policy, equity, grade);
    var m := SilentMeasures(policy, equity, grade);
    forall b: Blocker
      ensures !Blocked(b, q, policy, m)
    {
      match GroupOf(b)
      case OfSetup => SilentSetupIsClear(policy, q, m, b);
      case OfStop => SilentStopIsClear(policy, q, m, b);
      case OfLoss => SilentLossIsClear(policy, q, m, b);
      case OfSize => SilentSizeIsClear(policy, q, m, b);
    }
  }

  /** A request that reports nothing and is allowed. */
  predicate SilentlyAllowed(policy: Policy, q: Request)
    requires policy.Valid()
  {
    q.Valid() && q.market == policy.market && ReportsNothing(q) && Authorise(q, policy).allowed
  }

  lemma SilentGradeIsSized(policy: Policy, q: Request)
    requires policy.Valid() && SilentlyAllowed(policy, q)
    ensures q.grade != Reject
  {
    NotBlocked(q, policy, SetupRejected);
  }

  lemma SilentBudgetFits(policy: Policy, q: Request)
    requires policy.Valid() && SilentlyAllowed(policy, q)
    ensures RiskBudget(q, policy) <= OpenCeiling(q.RiskBase(), policy)
  {
    NotBlocked(q, policy, OpenRiskLimit);
  }

  lemma FractionFitsOpen(policy: Policy, q: Request, base: real)
    requires policy.Valid() && base > 0.0 && base == q.RiskBase()
    requires RiskBudget(q, policy) <= OpenCeiling(base, policy)
    ensures RiskFraction(policy, q.grade) <= policy.maxOpenStructural
  {
    BudgetFitsOpen(
      base, RiskFraction(policy, q.grade), policy.maxOpenStructural, RiskBudget(q, policy), OpenCeiling(base, policy));
  }

  lemma AllowedGradeFits(policy: Policy, q: Request)
    requires policy.Valid() && SilentlyAllowed(policy, q)
    ensures LetsThrough(policy, q.grade)
  {
    SilentGradeIsSized(policy, q);
    SilentBudgetFits(policy, q);
    FractionFitsOpen(policy, q, q.RiskBase());
  }

  /** Exactly which grades a policy lets through with nothing reported: those it sizes at a fraction that
      fits its open fraction, on a futures policy. */
  lemma SilentEntryIff(policy: Policy, grade: Grade)
    requires policy.Valid()
    ensures (exists q :: SilentlyAllowed(policy, q) && q.grade == grade) <==> LetsThrough(policy, grade)
  {
    if q :| SilentlyAllowed(policy, q) && q.grade == grade {
      AllowedGradeFits(policy, q);
    }
    if LetsThrough(policy, grade) {
      SilentIsAllowed(policy, 1.0, grade);
      assert SilentlyAllowed(policy, Silent(policy, 1.0, grade));
    }
  }

  /** And so which policies let any such entry through. An elevated grade is sized at the smaller of its
      own fraction and the normal one, so the smallest fraction decides. */
  lemma SilentPolicyIff(policy: Policy)
    requires policy.Valid()
    ensures (exists q :: SilentlyAllowed(policy, q)) <==>
              policy.market == BinanceUsdm && policy.aCandidate.Some? &&
              Min(policy.normal, Min(policy.a, policy.aCandidate.value)) <= policy.maxOpenStructural
  {
    SilentEntryIff(policy, Normal);
    SilentEntryIff(policy, A);
    SilentEntryIff(policy, ACandidate);
    if q :| SilentlyAllowed(policy, q) {
      AllowedGradeFits(policy, q);
    }
  }

  /** Under every policy that lets a grade through, and from every equity, entries of that grade that
      report nothing carry the day past the limit that reported entries keep, and past the eight percent. */
  lemma SilentRunPassesTheFloor(policy: Policy, equity: real, grade: Grade) returns (es: seq<Event>)
    requires policy.Valid() && equity > 0.0 && LetsThrough(policy, grade)
    ensures AcceptedRun(policy, Fresh(equity), es)
    ensures forall i :: 0 <= i < |es| && es[i].Enter? ==> ReportsNothing(es[i].request) && es[i].request.grade == grade
    ensures var day := Final(Fresh(equity), es).daily;
            day < -LimitsOf(policy, equity).day && day < -(0.08 * equity)
  {
    SilentIsAllowed(policy, equity, grade);
    var bound := Max(LimitsOf(policy, equity).day, 0.08 * equity);
    es := NothingReportedNoFloor(policy, equity, Silent(policy, equity, grade), bound);
  }

  /** The normal fraction alone does not decide it: here it does not fit the open fraction, and a grade-A
      entry that reports nothing is let through all the same. */
  lemma ElevatedGradeSlipsThrough() returns (policy: Policy)
    ensures policy.Valid() && policy.normal > policy.maxOpenStructural
    ensures !(exists q :: SilentlyAllowed(policy, q) && q.grade == Normal)
    ensures exists q :: SilentlyAllowed(policy, q) && q.grade == A
  {
    policy := Policy(BinanceUsdm, 0.01, Some(0.001), 0.001, 0.01, 0.02, 0.05, 3, 0.005);
    SilentEntryIff(policy, Normal);
    SilentEntryIff(policy, A);
  }
}
