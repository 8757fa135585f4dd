/** The older risk engine: one intent and one locked context to one decision, and how its view of
    the budget anchors agrees with the transaction that persists the approval. */
module RiskEngine {
  import opened Common
  import opened Arithmetic
  import opened BudgetAnchors

  datatype Style = Market | Limit(price: real)

  datatype Intent = Intent(id: int, account: int, instrument: int, side: Side, style: Style, quantity: real)

  datatype Position = Position(instrument: int, quantity: real, available: real, averageCost: real)

  datatype Quote = Quote(instrument: int, bid: real, ask: real, currency: int, asOf: int)

  datatype AccountSnapshot = AccountSnapshot(account: int, cash: real, buyingPower: real, currency: int, capturedAt: int)

  datatype RiskSnapshot = RiskSnapshot(
    account: int, currency: Option<int>, asOf: int, positionHash: int, openOrderHash: int,
    realised: real, unrealised: real, drawdown: real)

  datatype Policy = Policy(
    active: bool, maxTotalRisk: real, maxPositionValue: real, maxDailyLoss: real, maxDrawdown: real,
    maxSlippageBps: real, maxAccountAge: int, maxRiskAge: int, maxMarketAge: int)

  datatype Context = Context(
    decisionAt: int, account: AccountSnapshot, risk: RiskSnapshot, positions: seq<Position>,
    anchors: seq<Anchor>, quote: Quote, policy: Policy, tradingEnabled: bool,
    incidents: int, reconciliations: int, unknowns: int, positionHash: int, openOrderHash: int)

  datatype Reason =
    | AccountSnapshotMismatch | InactivePolicy | InvalidBlockerCount | TradingControlBlocked
    | BlockingIncident | BlockingReconciliation | UnresolvedUnknown
    | StaleAccountSnapshot | StaleRiskSnapshot | StaleQuote
    | QuoteInstrumentMismatch | InvalidQuote | InvalidSlippagePolicy | RiskSnapshotHashMismatch
    | CurrencyMismatch | BudgetAnchorMismatch | DailyLossLimit | DrawdownLimit
    | InsufficientSellableQuantity | AveragingDownBlocked | InsufficientCash | ConcentrationLimit | TotalOpenRiskLimit

  datatype Verdict = Verdict(outcome: Outcome, reason: Option<Reason>, reserved: real)

  function Rejected(reason: Reason): Verdict { Verdict(Reject, Some(reason), 0.0) }

  // ---- Anchors ----

  function OfScope(anchors: seq<Anchor>, scope: Scope): (r: seq<Anchor>)
    ensures forall i :: 0 <= i < |r| ==> r[i] in anchors && r[i].scope == scope
    ensures (forall i :: 0 <= i < |anchors| ==> anchors[i].scope != scope) ==> r == []
    ensures forall i :: 0 <= i < |anchors| && anchors[i].scope == scope ==> anchors[i] in r
  {
    if anchors == [] then []
    else (if anchors[0].scope == scope then [anchors[0]] else []) + OfScope(anchors[1..], scope)
  }

  /** Exactly one GLOBAL anchor and exactly one for the account, both in the snapshot's currency. */
  function MatchingAnchors(c: Context): Option<(Anchor, Anchor)> {
    var global := OfScope(c.anchors, Global);
    var account := OfScope(c.anchors, Account(c.account.account));
    if |global| != 1 || |account| != 1 then None
    else if Some(global[0].currency) != c.risk.currency || Some(account[0].currency) != c.risk.currency then None
    else Some((global[0], account[0]))
  }

  /** The second look at the anchors counts them and does not ask what they are. */
  predicate ExceedsAnchorLimit(anchors: seq<Anchor>, proposed: real, policyLimit: real) {
    |anchors| != 2 ||
    exists i :: 0 <= i < |anchors| &&
      anchors[i].position + anchors[i].reserved + proposed > Min(anchors[i].limit, policyLimit)
  }

  // ---- Evaluation ----

  function StateRejection(i: Intent, c: Context): Option<Reason> {
    if i.account != c.account.account || c.risk.account != i.account then Some(AccountSnapshotMismatch)
    else if !c.policy.active then Some(InactivePolicy)
    else if c.incidents < 0 || c.reconciliations < 0 || c.unknowns < 0 then Some(InvalidBlockerCount)
    else if !c.tradingEnabled then Some(TradingControlBlocked)
    else if c.incidents > 0 then Some(BlockingIncident)
    else if c.reconciliations > 0 then Some(BlockingReconciliation)
    else if c.unknowns > 0 then Some(UnresolvedUnknown)
    else if c.decisionAt - c.account.capturedAt > c.policy.maxAccountAge then Some(StaleAccountSnapshot)
    else if c.decisionAt - c.risk.asOf > c.policy.maxRiskAge then Some(StaleRiskSnapshot)
    else if c.decisionAt - c.quote.asOf > c.policy.maxMarketAge then Some(StaleQuote)
    else None
  }

  function AgreementRejection(i: Intent, c: Context): Option<Reason> {
    if c.quote.instrument != i.instrument then Some(QuoteInstrumentMismatch)
    else if c.quote.bid <= 0.0 || c.quote.ask <= 0.0 then Some(InvalidQuote)
    else if c.policy.maxSlippageBps < 0.0 || c.policy.maxSlippageBps >= 10000.0 then Some(InvalidSlippagePolicy)
    else if c.risk.positionHash != c.positionHash || c.risk.openOrderHash != c.openOrderHash then Some(RiskSnapshotHashMismatch)
    else if Some(c.account.currency) != c.risk.currency || Some(c.quote.currency) != c.risk.currency then Some(CurrencyMismatch)
    else if MatchingAnchors(c) == None then Some(BudgetAnchorMismatch)
    else if -(c.risk.realised + c.risk.unrealised) > c.policy.maxDailyLoss then Some(DailyLossLimit)
    else if c.risk.drawdown > c.policy.maxDrawdown then Some(DrawdownLimit)
    else None
  }

  function ContextRejection(i: Intent, c: Context): Option<Reason> {
    if StateRejection(i, c).Some? then StateRejection(i, c) else AgreementRejection(i, c)
  }

  function SlippedUp(price: real, slip: real): real { price * (1.0 + slip) }

  function SlippedDown(price: real, slip: real): real { price * (1.0 - slip) }

  function Price(i: Intent, c: Context): real {
    match i.style
    case Limit(price) => price
    case Market =>
      if i.side == Buy then SlippedUp(c.quote.ask, c.policy.maxSlippageBps / 10000.0)
      else SlippedDown(c.quote.bid, c.policy.maxSlippageBps / 10000.0)
  }

  /** The position is the first in the instrument. */
  predicate FirstIn(positions: seq<Position>, instrument: int, p: Position) {
    exists k :: 0 <= k < |positions| && positions[k] == p && p.instrument == instrument &&
                (forall j :: 0 <= j < k ==> positions[j].instrument != instrument)
  }

  function PositionOf(positions: seq<Position>, instrument: int): (r: Option<Position>)
    ensures r == None <==> forall k :: 0 <= k < |positions| ==> positions[k].instrument != instrument
    ensures r.Some? ==> FirstIn(positions, instrument, r.value)
  {
    if positions == [] then None
    else if positions[0].instrument == instrument then Some(positions[0])
    else
      var rest := PositionOf(positions[1..], instrument);
      assert rest.Some? ==> FirstIn(positions, instrument, rest.value) by {
        if rest.Some? {
          var k :| 0 <= k < |positions[1..]| && positions[1..][k] == rest.value &&
                   (forall j :: 0 <= j < k ==> positions[1..][j].instrument != instrument);
          assert positions[k + 1] == rest.value;
          assert forall j :: 0 < j < k + 1 ==> positions[j] == positions[1..][j - 1];
        }
      }
      rest
  }

  function Cost(quantity: real, price: real): real { quantity * price }

  function WorthOf(position: Option<Position>, price: real): real {
    if position.Some? then Cost(position.value.quantity, price) else 0.0
  }

  /** A purchase at a price, by what it reserves and what is held already. */
  function BuyVerdict(c: Context, position: Option<Position>, price: real, reserved: real, held: real): Verdict {
    if position.Some? && position.value.quantity > 0.0 && price < position.value.averageCost then Rejected(AveragingDownBlocked)
    else if reserved > c.account.cash || reserved > c.account.buyingPower then Rejected(InsufficientCash)
    else if held + reserved > c.policy.maxPositionValue then Rejected(ConcentrationLimit)
    else if ExceedsAnchorLimit(c.anchors, reserved, c.policy.maxTotalRisk) then Rejected(TotalOpenRiskLimit)
    else Verdict(Approve, None, reserved)
  }

  function EvaluateBuy(i: Intent, c: Context, position: Option<Position>, price: real): Verdict {
    BuyVerdict(c, position, price, Cost(i.quantity, price), WorthOf(position, price))
  }

  function Evaluate(i: Intent, c: Context): Verdict {
    var reason := ContextRejection(i, c);
    if reason.Some? then Rejected(reason.value)
    else
      var position := PositionOf(c.positions, i.instrument);
      if i.side == Sell then
        if position == None || position.value.available < i.quantity then Rejected(InsufficientSellableQuantity)
        else Verdict(Reduce, None, 0.0)
      else EvaluateBuy(i, c, position, Price(i, c))
  }

  // ---- What a verdict means ----

  /** Live, consistent and unblocked, with none of the account's own limits passed. */
  predicate Clear(i: Intent, c: Context) {
    && i.account == c.account.account == c.risk.account
    && c.policy.active && c.tradingEnabled
    && c.incidents == 0 && c.reconciliations == 0 && c.unknowns == 0
    && c.decisionAt <= c.account.capturedAt + c.policy.maxAccountAge
    && c.decisionAt <= c.risk.asOf + c.policy.maxRiskAge
    && c.decisionAt <= c.quote.asOf + c.policy.maxMarketAge
  }

  predicate Consistent(i: Intent, c: Context) {
    && c.quote.instrument == i.instrument && c.quote.bid > 0.0 && c.quote.ask > 0.0
    && 0.0 <= c.policy.maxSlippageBps < 10000.0
    && c.risk.positionHash == c.positionHash && c.risk.openOrderHash == c.openOrderHash
    && c.risk.currency == Some(c.account.currency) && c.account.currency == c.quote.currency
    && MatchingAnchors(c).Some?
    && c.risk.realised + c.risk.unrealised >= -c.policy.maxDailyLoss
    && c.risk.drawdown <= c.policy.maxDrawdown
  }

  lemma ContextIsAcceptedIff(i: Intent, c: Context)
    ensures ContextRejection(i, c) == None <==> Clear(i, c) && Consistent(i, c)
  {
  }

  /** Not averaging down, paid for, not too concentrated, and inside both anchors. */
  predicate Affordable(c: Context, position: Option<Position>, price: real, reserved: real, held: real) {
    && (position.Some? && position.value.quantity > 0.0 ==> price >= position.value.averageCost)
    && reserved <= c.account.cash && reserved <= c.account.buyingPower
    && held + reserved <= c.policy.maxPositionValue
    && |c.anchors| == 2
    && c.anchors[0].position + c.anchors[0].reserved + reserved <= Min(c.anchors[0].limit, c.policy.maxTotalRisk)
    && c.anchors[1].position + c.anchors[1].reserved + reserved <= Min(c.anchors[1].limit, c.policy.maxTotalRisk)
  }

  lemma BuyIsApprovedIff(c: Context, position: Option<Position>, price: real, reserved: real, held: real)
    ensures var v := BuyVerdict(c, position, price, reserved, held);
            && (v.outcome == Approve <==> Affordable(c, position, price, reserved, held))
            && (v.outcome == Approve ==> v.reserved == reserved && v.reason == None)
            && (v.outcome != Approve ==> v.outcome == Reject && v.reserved == 0.0 && v.reason.Some?)
  {
  }

  /** The engine approves a purchase exactly when the context is clear and consistent and the purchase
      affordable, and reserves quantity times price; otherwise it rejects with a reason and reserves
      nothing. */
  lemma PurchaseVerdict(i: Intent, c: Context)
    requires i.side == Buy
    ensures var v, position, price := Evaluate(i, c), PositionOf(c.positions, i.instrument), Price(i, c);
            var reserved := Cost(i.quantity, price);
            && (v.outcome == Approve <==>
                  Clear(i, c) && Consistent(i, c) && Affordable(c, position, price, reserved, WorthOf(position, price)))
            && (v.outcome == Approve ==> v.reserved == reserved && v.reason == None)
            && (v.outcome != Approve ==> v.outcome == Reject && v.reserved == 0.0 && v.reason.Some?)
  {
    ContextIsAcceptedIff(i, c);
    var position, price := PositionOf(c.positions, i.instrument), Price(i, c);
    BuyIsApprovedIff(c, position, price, Cost(i.quantity, price), WorthOf(position, price));
  }

  /** A sale is a reduction exactly when the position can cover it, and never reserves anything. */
  lemma SaleVerdict(i: Intent, c: Context)
    requires i.side == Sell
    ensures var v, position := Evaluate(i, c), PositionOf(c.positions, i.instrument);
            && (v.outcome == Reduce <==>
                  Clear(i, c) && Consistent(i, c) && position.Some? && i.quantity <= position.value.available)
            && v.reserved == 0.0
            && (v.outcome != Reduce ==> v.outcome == Reject && v.reason.Some?)
  {
    ContextIsAcceptedIff(i, c);
  }

  /** What the engine reserves is the quantity at its price. */
  lemma ReservesItsCost(i: Intent, c: Context)
    requires Evaluate(i, c).outcome == Approve
    ensures i.side == Buy && Evaluate(i, c).reserved == Cost(i.quantity, Price(i, c))
  {
    if i.side == Sell {
      SaleVerdict(i, c);
    } else {
      PurchaseVerdict(i, c);
    }
  }

  /** Cost is quantity times price, for the order and for what is held already. */
  lemma CostIs(quantity: real, price: real, position: Option<Position>)
    ensures Cost(quantity, price) == quantity * price
    ensures position == None ==> WorthOf(position, price) == 0.0
    ensures position.Some? ==> WorthOf(position, price) == position.value.quantity * price
  {
  }

  /** A limit order is priced at its limit, a market order at the quote moved against the trader by the
      allowed slippage in hundredths of a percent. */
  lemma PriceIs(i: Intent, c: Context)
    ensures i.style.Limit? ==> Price(i, c) == i.style.price
    ensures i.style.Market? && i.side == Buy ==>
              10000.0 * Price(i, c) == c.quote.ask * (10000.0 + c.policy.maxSlippageBps)
    ensures i.style.Market? && i.side == Sell ==>
              10000.0 * Price(i, c) == c.quote.bid * (10000.0 - c.policy.maxSlippageBps)
  {
    BasisPoints(c.quote.ask, c.policy.maxSlippageBps);
    BasisPoints(c.quote.bid, c.policy.maxSlippageBps);
  }

  lemma BasisPoints(price: real, bps: real)
    ensures 10000.0 * SlippedUp(price, bps / 10000.0) == price * (10000.0 + bps)
    ensures 10000.0 * SlippedDown(price, bps / 10000.0) == price * (10000.0 - bps)
  {
  }

  /** The anchor at `i` is the only one of its scope. */
  predicate Sole(anchors: seq<Anchor>, scope: Scope, i: int) {
    0 <= i < |anchors| && anchors[i].scope == scope && forall k :: 0 <= k < |anchors| && anchors[k].scope == scope ==> k == i
  }

  lemma {:induction false} SoleIsListed(anchors: seq<Anchor>, scope: Scope, i: int)
    requires Sole(anchors, scope, i)
    ensures OfScope(anchors, scope) == [anchors[i]]
    decreases |anchors|
  {
    if i > 0 {
      assert anchors[0].scope != scope;
      assert forall k :: 0 <= k < |anchors| - 1 ==> anchors[1..][k] == anchors[k + 1];
      SoleIsListed(anchors[1..], scope, i - 1);
    } else {
      assert forall k :: 0 <= k < |anchors| - 1 ==> anchors[1..][k] == anchors[k + 1];
      assert OfScope(anchors[1..], scope) == [];
    }
  }

  lemma {:induction false} ListedIsSole(anchors: seq<Anchor>, scope: Scope) returns (i: int)
    requires |OfScope(anchors, scope)| == 1
    ensures Sole(anchors, scope, i)
  {
    assert forall k :: 0 <= k < |anchors| - 1 ==> anchors[1..][k] == anchors[k + 1];
    if anchors[0].scope == scope {
      i := 0;
      assert OfScope(anchors[1..], scope) == [];
      assert forall k :: 0 <= k < |anchors[1..]| ==> anchors[1..][k].scope != scope;
      assert forall k :: 0 < k < |anchors| ==> anchors[k] == anchors[1..][k - 1];
    } else {
      var rest := ListedIsSole(anchors[1..], scope);
      i := rest + 1;
      forall k | 0 <= k < |anchors| && anchors[k].scope == scope
        ensures k == i
      {
        assert anchors[1..][k - 1].scope == scope;
      }
    }
  }

  lemma OneOfScopeIff(anchors: seq<Anchor>, scope: Scope)
    ensures |OfScope(anchors, scope)| == 1 <==> exists i :: Sole(anchors, scope, i)
  {
    if i :| Sole(anchors, scope, i) {
      SoleIsListed(anchors, scope, i);
    }
    if |OfScope(anchors, scope)| == 1 {
      var i := ListedIsSole(anchors, scope);
    }
  }

  /** The context is matched exactly when it shows one GLOBAL anchor and one for the account, and these two,
      which the engine takes, are in the snapshot's currency. */
  lemma MatchedIff(c: Context, g: int, a: int)
    requires Sole(c.anchors, Global, g) && Sole(c.anchors, Account(c.account.account), a)
    ensures MatchingAnchors(c) ==
            if Some(c.anchors[g].currency) == c.risk.currency == Some(c.anchors[a].currency)
            then Some((c.anchors[g], c.anchors[a])) else None
  {
    SoleIsListed(c.anchors, Global, g);
    SoleIsListed(c.anchors, Account(c.account.account), a);
  }

  lemma UnmatchedUnlessSole(c: Context)
    requires !(exists g :: Sole(c.anchors, Global, g)) || !(exists a :: Sole(c.anchors, Account(c.account.account), a))
    ensures MatchingAnchors(c) == None
  {
    OneOfScopeIff(c.anchors, Global);
    OneOfScopeIff(c.anchors, Account(c.account.account));
  }

  /** In an accepted context a market order is priced against the trader: at or above the ask when
      buying, positive and at or below the bid when selling. */
  lemma MarketPriceIsAdverse(i: Intent, c: Context)
    requires i.style == Market && c.quote.bid > 0.0 && c.quote.ask > 0.0 && 0.0 <= c.policy.maxSlippageBps < 10000.0
    ensures i.side == Buy ==> Price(i, c) >= c.quote.ask
    ensures i.side == Sell ==> 0.0 < Price(i, c) <= c.quote.bid
  {
    SlipIsAFraction(c.policy.maxSlippageBps);
    if i.side == Buy {
      UpIsDearer(c.quote.ask, c.policy.maxSlippageBps / 10000.0);
    } else {
      DownIsCheaper(c.quote.bid, c.policy.maxSlippageBps / 10000.0);
    }
  }

  lemma SlipIsAFraction(bps: real)
    requires 0.0 <= bps < 10000.0
    ensures 0.0 <= bps / 10000.0 < 1.0
  {
  }

  lemma UpIsDearer(price: real, slip: real)
    requires price > 0.0 && slip >= 0.0
    ensures SlippedUp(price, slip) >= price
  {
    MulMonotone(1.0, 1.0 + slip, price);
  }

  lemma DownIsCheaper(price: real, slip: real)
    requires price > 0.0 && 0.0 <= slip < 1.0
    ensures 0.0 < SlippedDown(price, slip) <= price
  {
    MulMonotone(1.0 - slip, 1.0, price);
    MulStrict(0.0, 1.0 - slip, price);
  }

  // ---- The engine and the service ----

  /** The anchors the engine was shown are still the rows of the table. */
  predicate Current(c: Context, book: Book) {
    Unique(book.anchors) && forall i :: 0 <= i < |c.anchors| ==> c.anchors[i] in book.anchors
  }

  /** The request that carries an engine's verdict to the service, everything else left open. */
  predicate Carries(q: Request, i: Intent, c: Context) {
    && q.account == i.account
    && c.risk.currency == Some(q.currency)
    && q.decision.outcome == Evaluate(i, c).outcome
    && q.decision.reserved == Evaluate(i, c).reserved
  }

  /** In a table with one row per scope and currency, that row is the one that gets locked. */
  lemma LocateIs(anchors: seq<Anchor>, row: Anchor)
    requires Unique(anchors) && row in anchors
    ensures var i := Locate(anchors, row.scope, row.currency);
            i < |anchors| && anchors[i] == row
  {
    var k :| 0 <= k < |anchors| && anchors[k] == row;
    assert Matches(anchors[k], row.scope, row.currency);
    var i := Locate(anchors, row.scope, row.currency);
  }

  /** Both locked rows have room for the amount, under the hard limit and under the policy's. */
  predicate RoomFor(anchors: seq<Anchor>, account: int, currency: int, amount: real, policyLimit: real) {
    && Locked(anchors, account, currency)
    && var g := anchors[Locate(anchors, Global, currency)];
    && var a := anchors[Locate(anchors, Account(account), currency)];
    && g.position + g.reserved + amount <= Min(g.limit, policyLimit)
    && a.position + a.reserved + amount <= Min(a.limit, policyLimit)
  }

  lemma ApprovalNeedsRoom(i: Intent, c: Context)
    requires Evaluate(i, c).outcome == Approve
    ensures i.account == c.account.account && MatchingAnchors(c).Some?
    ensures !ExceedsAnchorLimit(c.anchors, Evaluate(i, c).reserved, c.policy.maxTotalRisk)
  {
    if i.side == Sell {
      SaleVerdict(i, c);
    } else {
      PurchaseVerdict(i, c);
    }
  }

  /** The matched pair are rows of the table under the very keys the service locks. */
  lemma MatchedAreLocked(c: Context, book: Book, currency: int)
    requires MatchingAnchors(c).Some? && Current(c, book) && c.risk.currency == Some(currency)
    ensures Locked(book.anchors, c.account.account, currency)
    ensures book.anchors[Locate(book.anchors, Global, currency)] in c.anchors
    ensures book.anchors[Locate(book.anchors, Account(c.account.account), currency)] in c.anchors
  {
    var pair := MatchingAnchors(c).value;
    assert pair.0 in OfScope(c.anchors, Global) && pair.1 in OfScope(c.anchors, Account(c.account.account));
    LocateIs(book.anchors, pair.0);
    LocateIs(book.anchors, pair.1);
  }

  lemma ApprovalHasRoom(c: Context, book: Book, currency: int, amount: real)
    requires MatchingAnchors(c).Some? && Current(c, book) && c.risk.currency == Some(currency)
    requires !ExceedsAnchorLimit(c.anchors, amount, c.policy.maxTotalRisk)
    ensures RoomFor(book.anchors, c.account.account, currency, amount, c.policy.maxTotalRisk)
  {
    MatchedAreLocked(c, book, currency);
  }

  /** With room for the amount the service's own check passes. */
  lemma RoomIsEnough(book: Book, q: Request, policyLimit: real)
    requires RoomFor(book.anchors, q.account, q.currency, q.decision.reserved, policyLimit)
    ensures Persist(book, q) != Err(AnchorsRequired)
    ensures Persist(book, q) != Err(LimitExceeded)
  {
  }

  lemma BookedLeavesRoom(anchors: seq<Anchor>, account: int, currency: int, amount: real, policyLimit: real)
    requires RoomFor(anchors, account, currency, amount, policyLimit) && BothFit(anchors, account, currency, amount)
    ensures RoomFor(Booked(anchors, account, currency, amount), account, currency, 0.0, policyLimit)
  {
    var booked := Booked(anchors, account, currency, amount);
    BookedKeeps(anchors, account, currency, amount);
    LocateKept(anchors, booked, Global, currency);
    LocateKept(anchors, booked, Account(account), currency);
    DistinctRows(anchors, account, currency);
  }

  /** And once the amount is booked, room is left over. */
  lemma RoomIsLeft(book: Book, q: Request, policyLimit: real)
    requires RoomFor(book.anchors, q.account, q.currency, q.decision.reserved, policyLimit)
    ensures Next(book, q).anchors != book.anchors ==>
              RoomFor(Next(book, q).anchors, q.account, q.currency, 0.0, policyLimit)
  {
    StepBooks(book, q);
    BookedLeavesRoom(book.anchors, q.account, q.currency, q.decision.reserved, policyLimit);
  }

  /** An approval on unchanged anchors is never refused for want of anchors or of room, and once it is
      persisted both anchors are still within the policy's limit as well as their own. */
  lemma ApprovalIsNeverRefusedForRoom(i: Intent, c: Context, book: Book, q: Request)
    requires Evaluate(i, c).outcome == Approve && Current(c, book) && Carries(q, i, c)
    ensures Persist(book, q) != Err(AnchorsRequired)
    ensures Persist(book, q) != Err(LimitExceeded)
    ensures Next(book, q).anchors != book.anchors ==>
              RoomFor(Next(book, q).anchors, i.account, q.currency, 0.0, c.policy.maxTotalRisk)
  {
    ApprovalNeedsRoom(i, c);
    ApprovalHasRoom(c, book, q.currency, q.decision.reserved);
    RoomIsEnough(book, q, c.policy.maxTotalRisk);
    RoomIsLeft(book, q, c.policy.maxTotalRisk);
  }

  /** A new approval carried in a coherent request is committed, and each anchor grows by exactly what
      the engine reserved. */
  lemma ApprovalIsCommitted(i: Intent, c: Context, book: Book, q: Request)
    requires Evaluate(i, c).outcome == Approve && Current(c, book) && Carries(q, i, c) && Coherent(q)
    requires DecisionFor(book.decisions, q.decision.intent) == None
    requires ReservationFor(book.reservations, q.decision.id) == None
    requires DecisionEnters(book.decisions, q.decision)
    requires ReservationEnters(book.reservations, RowFor(q.reservation, q.decision))
    ensures Persist(book, q).Ok?
    ensures Locked(book.anchors, q.account, q.currency)
    ensures Next(book, q).anchors == Booked(book.anchors, q.account, q.currency, Evaluate(i, c).reserved)
  {
    ApprovalNeedsRoom(i, c);
    ApprovalHasRoom(c, book, q.currency, q.decision.reserved);
    NewApprovalIsBooked(book, q);
  }

  lemma NewApprovalIsBooked(book: Book, q: Request)
    requires Coherent(q) && q.decision.outcome == Approve
    requires Locked(book.anchors, q.account, q.currency)
    requires BothFit(book.anchors, q.account, q.currency, q.decision.reserved)
    requires DecisionFor(book.decisions, q.decision.intent) == None
    requires ReservationFor(book.reservations, q.decision.id) == None
    requires DecisionEnters(book.decisions, q.decision)
    requires ReservationEnters(book.reservations, RowFor(q.reservation, q.decision))
    ensures Persist(book, q).Ok?
    ensures Next(book, q).anchors == Booked(book.anchors, q.account, q.currency, q.decision.reserved)
  {
    FreshRequestIsCommittedIff(book, q);
    DecisionAppend(book.decisions, q.decision);
  }
}
