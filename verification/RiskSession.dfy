/** What the gated entries add up to over a trading week.

    A run interleaves allowed entries, risk-lowering steps, closes that lose no more than the risk
    reserved for them, and new sessions that start flat. Equity may take any positive value at
    every evaluation. */
module RiskSession {
  import opened Common
  import opened Arithmetic
  import opened RiskV6

  /** The amounts a session's start equity allows: open at once, lost in the day, lost by one trade. */
  datatype Limits = Limits(open: real, day: real, trade: real)

  function LimitsOf(policy: Policy, equity: real): Limits {
    Limits(
      equity * policy.maxOpenStructural,
      equity * (policy.dailyLoss + policy.maxOpenStructural),
      TRADE_RISK_CEILING * equity)
  }

  function WeekLimit(policy: Policy, equity: real): real {
    equity * (policy.weeklyLoss + policy.maxOpenStructural)
  }

  /** `open` holds the risk still reserved for each open position. */
  datatype Book = Book(
    startEquity: real,
    peakStart: real,
    daily: real,
    weekly: real,
    open: seq<real>,
    entries: int,
    losses: int)

  datatype Event =
    | Enter(request: Request, reserved: real)
    | LowerRisk(position: nat, risk: real)
    | Close(position: nat, result: real)
    | NewSession(equity: real)

  function Fresh(equity: real): Book {
    Book(equity, equity, 0.0, 0.0, [], 0, 0)
  }

  /** The request understates nothing: no better a day or week than the book's, no less open risk, no
      fewer entries or losses, no larger an equity to start from. */
  predicate Reports(q: Request, b: Book) {
    && q.sessionStartEquity <= b.startEquity
    && q.dailyNetPnl <= b.daily
    && q.weeklyNetPnl <= b.weekly
    && q.openStructuralRisk >= Sum(b.open)
    && q.sessionTradeCount >= b.entries
    && q.consecutiveNetLosses >= b.losses
  }

  /** What the evaluation alone asks of an entry: allowed, with its planned loss reserved from its
      budget. */
  predicate Gated(policy: Policy, q: Request, reserved: real)
    requires policy.Valid()
  {
    && q.Valid() && q.market == policy.market
    && Authorise(q, policy).allowed
    && StopLoss(q, policy) <= reserved <= RiskBudget(q, policy)
  }

  predicate LegalEntry(policy: Policy, b: Book, q: Request, reserved: real)
    requires policy.Valid()
  {
    Gated(policy, q, reserved) && Reports(q, b)
  }

  predicate Legal(policy: Policy, b: Book, e: Event)
    requires policy.Valid()
  {
    match e
    case Enter(q, reserved) => LegalEntry(policy, b, q, reserved)
    case LowerRisk(i, risk) => i < |b.open| && 0.0 <= risk <= b.open[i]
    case Close(i, result) => i < |b.open| && result >= -b.open[i]
    case NewSession(equity) => equity > 0.0 && b.open == []
  }

  function Next(b: Book, e: Event): Book {
    match e
    case Enter(_, reserved) => b.(open := b.open + [reserved], entries := b.entries + 1)
    case LowerRisk(i, risk) => if i < |b.open| then b.(open := b.open[i := risk]) else b
    case Close(i, result) =>
      if i < |b.open| then
        b.(daily := b.daily + result,
           weekly := b.weekly + result,
           open := b.open[..i] + b.open[i + 1..],
           losses := if result < 0.0 then b.losses + 1 else 0)
      else b
    case NewSession(equity) =>
      b.(startEquity := equity, peakStart := Max(b.peakStart, equity), daily := 0.0, entries := 0)
  }

  predicate LegalRun(policy: Policy, b: Book, es: seq<Event>)
    requires policy.Valid()
    decreases |es|
  {
    es == [] || (Legal(policy, b, es[0]) && LegalRun(policy, Next(b, es[0]), es[1..]))
  }

  function Final(b: Book, es: seq<Event>): Book
    decreases |es|
  {
    if es == [] then b else Final(Next(b, es[0]), es[1..])
  }

  /** The trades taken so far could have lost at most this much. */
  function TradesLimit(entries: int, trade: real): real { Steps(entries, trade) }

  /** The book stays inside given amounts even if every open position loses all it reserves. */
  predicate Within(b: Book, limits: Limits, trades: real, week: real) {
    var open := Sum(b.open);
    && (forall i :: 0 <= i < |b.open| ==> b.open[i] >= 0.0)
    && open <= limits.open
    && b.daily - open > -limits.day
    && b.daily - open >= -trades
    && b.weekly - open > -week
    && 0 <= b.entries <= SESSION_TRADE_UPPER_BOUND
  }

  /** What every reachable book satisfies. */
  predicate Inv(policy: Policy, b: Book) {
    && 0.0 < b.startEquity <= b.peakStart
    && Within(
         b, LimitsOf(policy, b.startEquity),
         TradesLimit(b.entries, LimitsOf(policy, b.startEquity).trade), WeekLimit(policy, b.peakStart))
  }

  lemma {:induction false} SumNonNegative(s: seq<real>)
    requires forall i :: 0 <= i < |s| ==> s[i] >= 0.0
    ensures Sum(s) >= 0.0
  {
    if s != [] {
      SumNonNegative(s[1..]);
    }
  }

  /** The arithmetic of one guarded entry, for the day (`limit` the daily fraction) or the week. */
  lemma EntryKeepsFloor(
      net: real, open: real, reserved: real, base: real, top: real, limit: real, cap: real,
      low: real, high: real, floor: real, ceiling: real)
    requires net > low && low == -(base * limit) && open + reserved <= high && high == base * cap
    requires 0.0 < base <= top && limit > 0.0 && cap > 0.0
    requires floor == top * (limit + cap) && ceiling == top * cap
    ensures net - (open + reserved) > -floor
    ensures open + reserved <= ceiling
  {
    MulMonotone(base, top, limit);
    MulMonotone(base, top, cap);
    assert top * (limit + cap) == top * limit + top * cap;
  }

  lemma OneMoreEntry(entries: int, trade: real)
    ensures TradesLimit(entries + 1, trade) == TradesLimit(entries, trade) + trade
  {
    assert (entries + 1) as real == entries as real + 1.0;
    Distribute(entries as real, 1.0, trade);
  }

  lemma Distribute(a: real, b: real, c: real)
    ensures (a + b) * c == a * c + b * c
  {
  }

  /** What the guards establish about an entry, in the book's own terms. */
  lemma EntryGuards(policy: Policy, b: Book, q: Request, reserved: real)
    requires policy.Valid() && LegalEntry(policy, b, q, reserved)
    ensures b.daily > LossFloor(q.RiskBase(), policy.dailyLoss)
    ensures b.weekly > LossFloor(q.RiskBase(), policy.weeklyLoss)
    ensures Sum(b.open) + RiskBudget(q, policy) <= OpenCeiling(q.RiskBase(), policy)
    ensures b.entries < SESSION_TRADE_UPPER_BOUND
    ensures b.losses < policy.maxConsecutiveLosses
  {
    NotBlocked(q, policy, DailyLossLimit);
    NotBlocked(q, policy, WeeklyLossLimit);
    NotBlocked(q, policy, OpenRiskLimit);
    NotBlocked(q, policy, SessionTradeUpperBound);
    NotBlocked(q, policy, ConsecutiveLossLimit);
  }

  lemma ReservedIsBounded(policy: Policy, b: Book, q: Request, reserved: real)
    requires policy.Valid() && LegalEntry(policy, b, q, reserved)
    ensures 0.0 < q.RiskBase() <= b.startEquity
    ensures 0.0 < reserved <= LimitsOf(policy, b.startEquity).trade
  {
    AllowedLossIsBounded(q, policy);
    MulMonotone(q.RiskBase(), b.startEquity, TRADE_RISK_CEILING);
  }

  lemma EnterStaysWithin(b: Book, q: Request, reserved: real, limits: Limits, trades: real, week: real)
    requires Within(b, limits, trades, week)
    requires reserved >= 0.0 && reserved <= limits.trade
    requires Sum(b.open) + reserved <= limits.open
    requires b.daily - (Sum(b.open) + reserved) > -limits.day
    requires b.weekly - (Sum(b.open) + reserved) > -week
    requires b.entries < SESSION_TRADE_UPPER_BOUND
    ensures Within(Next(b, Enter(q, reserved)), limits, trades + limits.trade, week)
  {
    SumConcat(b.open, [reserved]);
  }

  lemma LowerOrCloseStaysWithin(policy: Policy, b: Book, e: Event, limits: Limits, trades: real, week: real)
    requires policy.Valid() && Within(b, limits, trades, week) && Legal(policy, b, e) && (e.LowerRisk? || e.Close?)
    ensures Within(Next(b, e), limits, trades, week)
  {
    if e.LowerRisk? {
      SumUpdate(b.open, e.position, e.risk);
    } else {
      SumRemove(b.open, e.position);
    }
  }

  /** The guards of an entry, read at the evaluation's risk base. */
  predicate Guarded(policy: Policy, b: Book, reserved: real, base: real) {
    && 0.0 < base <= b.startEquity
    && b.daily > LossFloor(base, policy.dailyLoss)
    && b.weekly > LossFloor(base, policy.weeklyLoss)
    && Sum(b.open) + reserved <= OpenCeiling(base, policy)
  }

  lemma EntryIsGuarded(policy: Policy, b: Book, q: Request, reserved: real)
    requires policy.Valid() && LegalEntry(policy, b, q, reserved)
    ensures Guarded(policy, b, reserved, q.RiskBase())
    ensures 0.0 < reserved <= LimitsOf(policy, b.startEquity).trade
    ensures b.entries < SESSION_TRADE_UPPER_BOUND
  {
    EntryGuards(policy, b, q, reserved);
    ReservedIsBounded(policy, b, q, reserved);
  }

  lemma EntryFitsDay(policy: Policy, b: Book, reserved: real, base: real)
    requires policy.Valid() && Guarded(policy, b, reserved, base)
    ensures Sum(b.open) + reserved <= LimitsOf(policy, b.startEquity).open
    ensures b.daily - (Sum(b.open) + reserved) > -LimitsOf(policy, b.startEquity).day
  {
    EntryKeepsFloor(
      b.daily, Sum(b.open), reserved, base, b.startEquity, policy.dailyLoss, policy.maxOpenStructural,
      LossFloor(base, policy.dailyLoss), OpenCeiling(base, policy),
      LimitsOf(policy, b.startEquity).day, LimitsOf(policy, b.startEquity).open);
  }

  lemma EntryFitsWeek(policy: Policy, b: Book, reserved: real, base: real)
    requires policy.Valid() && b.startEquity <= b.peakStart && Guarded(policy, b, reserved, base)
    ensures b.weekly - (Sum(b.open) + reserved) > -WeekLimit(policy, b.peakStart)
  {
    EntryKeepsFloor(
      b.weekly, Sum(b.open), reserved, base, b.peakStart, policy.weeklyLoss, policy.maxOpenStructural,
      LossFloor(base, policy.weeklyLoss), OpenCeiling(base, policy),
      WeekLimit(policy, b.peakStart), b.peakStart * policy.maxOpenStructural);
  }

  lemma GuardedEntryKeepsInv(policy: Policy, b: Book, q: Request, reserved: real, base: real)
    requires policy.Valid() && Inv(policy, b) && Guarded(policy, b, reserved, base)
    requires 0.0 < reserved <= LimitsOf(policy, b.startEquity).trade && b.entries < SESSION_TRADE_UPPER_BOUND
    ensures Inv(policy, Next(b, Enter(q, reserved)))
  {
    var limits := LimitsOf(policy, b.startEquity);
    EntryFitsDay(policy, b, reserved, base);
    EntryFitsWeek(policy, b, reserved, base);
    EnterStaysWithin(
      b, q, reserved, limits, TradesLimit(b.entries, limits.trade), WeekLimit(policy, b.peakStart));
    OneMoreEntry(b.entries, limits.trade);
  }

  lemma EnterKeepsInv(policy: Policy, b: Book, q: Request, reserved: real)
    requires policy.Valid() && Inv(policy, b) && LegalEntry(policy, b, q, reserved)
    ensures Inv(policy, Next(b, Enter(q, reserved)))
  {
    EntryIsGuarded(policy, b, q, reserved);
    GuardedEntryKeepsInv(policy, b, q, reserved, q.RiskBase());
  }

  lemma LimitsArePositive(policy: Policy, equity: real)
    requires policy.Valid() && equity > 0.0
    ensures var limits := LimitsOf(policy, equity); limits.open > 0.0 && limits.day > 0.0 && limits.trade > 0.0
    ensures WeekLimit(policy, equity) > 0.0
  {
    ShareIsPositive(LimitsOf(policy, equity).open, equity, policy.maxOpenStructural);
    ShareIsPositive(LimitsOf(policy, equity).day, equity, policy.dailyLoss + policy.maxOpenStructural);
    ShareIsPositive(WeekLimit(policy, equity), equity, policy.weeklyLoss + policy.maxOpenStructural);
  }

  lemma WeekLimitMonotone(policy: Policy, low: real, high: real)
    requires policy.Valid() && low <= high
    ensures WeekLimit(policy, low) <= WeekLimit(policy, high)
  {
    ShareIsMonotone(
      WeekLimit(policy, low), WeekLimit(policy, high), low, high, policy.weeklyLoss + policy.maxOpenStructural);
  }

  lemma NewSessionKeepsInv(policy: Policy, b: Book, equity: real)
    requires policy.Valid() && Inv(policy, b) && Legal(policy, b, NewSession(equity))
    ensures Inv(policy, Next(b, NewSession(equity)))
  {
    LimitsArePositive(policy, equity);
    WeekLimitMonotone(policy, b.peakStart, Max(b.peakStart, equity));
  }

  lemma StepKeepsInv(policy: Policy, b: Book, e: Event)
    requires policy.Valid() && Inv(policy, b) && Legal(policy, b, e)
    ensures Inv(policy, Next(b, e))
  {
    match e
    case Enter(q, reserved) => EnterKeepsInv(policy, b, q, reserved);
    case NewSession(equity) => NewSessionKeepsInv(policy, b, equity);
    case _ =>
      var limits := LimitsOf(policy, b.startEquity);
      LowerOrCloseStaysWithin(
        policy, b, e, limits, TradesLimit(b.entries, limits.trade), WeekLimit(policy, b.peakStart));
  }

  lemma {:induction false} RunKeepsInv(policy: Policy, b: Book, es: seq<Event>)
    requires policy.Valid() && Inv(policy, b) && LegalRun(policy, b, es)
    ensures Inv(policy, Final(b, es))
    decreases |es|
  {
    if es != [] {
      StepKeepsInv(policy, b, es[0]);
      RunKeepsInv(policy, Next(b, es[0]), es[1..]);
    }
  }

  lemma TradesLimitIsEightPercent(entries: int, equity: real, limit: real)
    requires 0 <= entries <= SESSION_TRADE_UPPER_BOUND && equity > 0.0 && limit == TRADE_RISK_CEILING * equity
    ensures TradesLimit(entries, limit) <= 0.08 * equity
  {
    MulMonotone(entries as real, 8.0, limit);
  }

  /** Main result. Over every legal run, however many positions overlap and however equity moves:
      the day's result stays strictly above minus the day limit (start equity times the daily and
      open fractions) and never below minus eight percent of start equity; the week's result stays
      strictly above minus the largest start equity times the weekly and open fractions; and open
      risk never exceeds its share of start equity. */
  lemma LossFloorOverEveryRun(policy: Policy, equity: real, es: seq<Event>)
    requires policy.Valid() && equity > 0.0 && LegalRun(policy, Fresh(equity), es)
    ensures var b := Final(Fresh(equity), es);
            && b.daily > -LimitsOf(policy, b.startEquity).day
            && b.daily >= -(0.08 * b.startEquity)
            && b.weekly > -WeekLimit(policy, b.peakStart)
            && Sum(b.open) <= LimitsOf(policy, b.startEquity).open
  {
    LimitsArePositive(policy, equity);
    RunKeepsInv(policy, Fresh(equity), es);
    var b := Final(Fresh(equity), es);
    SumNonNegative(b.open);
    TradesLimitIsEightPercent(b.entries, b.startEquity, LimitsOf(policy, b.startEquity).trade);
  }
}
