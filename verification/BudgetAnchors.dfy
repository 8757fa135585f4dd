/** Persisting an approval against its two budget anchors, as one transaction that is rolled back
    when it is refused, and what every sequence of such transactions keeps. */
module BudgetAnchors {
  import opened Common

  datatype Scope = Global | Account(id: int) | Unknown(key: int)

  datatype Anchor = Anchor(scope: Scope, currency: int, position: real, reserved: real, limit: real, version: int)

  datatype Outcome = Approve | Reduce | Reject | ObservedBlocking

  datatype Decision = Decision(
    id: int, intent: int, outcome: Outcome, requested: real, approved: real, reserved: real, currency: int, hash: int)

  datatype Status = Active | PartiallyConsumed | Consumed | Released

  datatype Reservation = Reservation(
    id: int, decision: int, intent: int, account: int, currency: Option<int>, asset: Option<int>,
    initial: real, consumed: real, remaining: real, released: real, status: Status)

  datatype Request = Request(decision: Decision, reservation: Reservation, account: int, currency: int)

  datatype Refusal =
    | AnchorsRequired
    | NotOfTheDecision
    | AccountOrCurrencyMismatch
    | AmountMismatch
    | ReductionMustBeEmpty
    | NoReservationForOutcome
    | DecisionUnreadable
    | DecisionCollision
    | ReservationUnreadable
    | ReservationCollision
    | LimitExceeded

  /** The three tables a transaction touches. */
  datatype Book = Book(anchors: seq<Anchor>, decisions: seq<Decision>, reservations: seq<Reservation>)

  // ---- Rows ----

  predicate Matches(row: Anchor, scope: Scope, currency: int) { row.scope == scope && row.currency == currency }

  /** One anchor per scope and currency. */
  predicate Unique(anchors: seq<Anchor>) {
    forall i, j :: 0 <= i < j < |anchors| ==> !Matches(anchors[j], anchors[i].scope, anchors[i].currency)
  }

  /** The index of the row for a scope and currency; the number of rows when there is none. */
  function Locate(anchors: seq<Anchor>, scope: Scope, currency: int): (i: nat)
    ensures i <= |anchors|
    ensures i < |anchors| ==> Matches(anchors[i], scope, currency)
    ensures i == |anchors| ==> forall k :: 0 <= k < |anchors| ==> !Matches(anchors[k], scope, currency)
  {
    if anchors == [] then 0
    else if Matches(anchors[0], scope, currency) then 0
    else 1 + Locate(anchors[1..], scope, currency)
  }

  predicate Locked(anchors: seq<Anchor>, account: int, currency: int) {
    Locate(anchors, Global, currency) < |anchors| && Locate(anchors, Account(account), currency) < |anchors|
  }

  predicate Fits(row: Anchor, amount: real) { row.position + row.reserved + amount <= row.limit }

  function Raised(row: Anchor, amount: real): Anchor {
    row.(reserved := row.reserved + amount, version := row.version + 1)
  }

  /** Both anchors raised by the amount. */
  function Booked(anchors: seq<Anchor>, account: int, currency: int, amount: real): (r: seq<Anchor>)
    requires Locked(anchors, account, currency)
    ensures |r| == |anchors|
  {
    var g := Locate(anchors, Global, currency);
    var a := Locate(anchors, Account(account), currency);
    anchors[g := Raised(anchors[g], amount)][a := Raised(anchors[a], amount)]
  }

  predicate BothFit(anchors: seq<Anchor>, account: int, currency: int, amount: real)
    requires Locked(anchors, account, currency)
  {
    && Fits(anchors[Locate(anchors, Global, currency)], amount)
    && Fits(anchors[Locate(anchors, Account(account), currency)], amount)
  }

  /** The stored decision for an intent. */
  function DecisionFor(decisions: seq<Decision>, intent: int): (r: Option<Decision>)
    ensures r.Some? ==> r.value in decisions && r.value.intent == intent
  {
    if decisions == [] then None
    else if decisions[0].intent == intent then Some(decisions[0])
    else DecisionFor(decisions[1..], intent)
  }

  /** The stored reservation for a decision. */
  function ReservationFor(reservations: seq<Reservation>, decision: int): (r: Option<Reservation>)
    ensures r.Some? ==> r.value in reservations && r.value.decision == decision
  {
    if reservations == [] then None
    else if reservations[0].decision == decision then Some(reservations[0])
    else ReservationFor(reservations[1..], decision)
  }

  /** Whether the decision table's own checks and unique keys let the row in. */
  predicate DecisionEnters(decisions: seq<Decision>, d: Decision) {
    && d.requested > 0.0 && 0.0 <= d.approved <= d.requested && d.reserved >= 0.0
    && forall k :: 0 <= k < |decisions| ==> decisions[k].id != d.id && decisions[k].intent != d.intent
  }

  predicate Marked(r: Reservation) { r.status == Active || r.status == PartiallyConsumed }

  /** Whether the reservation table's own checks and unique keys let the row in. */
  predicate ReservationEnters(reservations: seq<Reservation>, r: Reservation) {
    && r.initial >= 0.0 && r.consumed >= 0.0 && r.remaining >= 0.0 && r.released >= 0.0
    && r.consumed + r.remaining + r.released == r.initial
    && r.currency.Some? != r.asset.Some?
    && forall k :: 0 <= k < |reservations| ==>
         && reservations[k].id != r.id
         && reservations[k].decision != r.decision
         && (Marked(reservations[k]) && Marked(r) ==> reservations[k].intent != r.intent)
  }

  /** The row written for a request: filed under the stored decision, in its currency by default. */
  function RowFor(r: Reservation, stored: Decision): Reservation {
    r.(decision := stored.id, currency := if r.currency.Some? then r.currency else Some(stored.currency))
  }

  predicate SamePayload(a: Reservation, b: Reservation) {
    a.intent == b.intent && a.initial == b.initial && a.currency == b.currency && a.asset == b.asset
  }

  // ---- The transaction as a value ----

  /** What the request alone decides. */
  function Objection(q: Request): Option<Refusal> {
    var d, r := q.decision, q.reservation;
    if r.decision != d.id then Some(NotOfTheDecision)
    else if r.account != q.account || d.currency != q.currency then Some(AccountOrCurrencyMismatch)
    else if d.outcome == Approve && r.remaining != d.reserved then Some(AmountMismatch)
    else if d.outcome == Reduce && !(d.reserved == 0.0 && r.initial == 0.0 && r.remaining == 0.0 && r.status == Consumed)
    then Some(ReductionMustBeEmpty)
    else if d.outcome != Approve && d.outcome != Reduce then Some(NoReservationForOutcome)
    else None
  }

  function WithDecision(decisions: seq<Decision>, d: Decision): seq<Decision> {
    if DecisionEnters(decisions, d) then decisions + [d] else decisions
  }

  function WithReservation(reservations: seq<Reservation>, row: Reservation): seq<Reservation> {
    if ReservationEnters(reservations, row) then reservations + [row] else reservations
  }

  /** The whole transaction: the book it commits, or why it is rolled back. */
  function Persist(book: Book, q: Request): Result<Book, Refusal> {
    if !Locked(book.anchors, q.account, q.currency) then Err(AnchorsRequired)
    else if Objection(q).Some? then Err(Objection(q).value)
    else
      var decisions := WithDecision(book.decisions, q.decision);
      var stored := DecisionFor(decisions, q.decision.intent);
      if stored == None then Err(DecisionUnreadable)
      else if stored.value.hash != q.decision.hash then Err(DecisionCollision)
      else Reserve(book.(decisions := decisions), q, RowFor(q.reservation, stored.value))
  }

  /** From the stored decision on. */
  function Reserve(book: Book, q: Request, row: Reservation): Result<Book, Refusal>
    requires Locked(book.anchors, q.account, q.currency)
  {
    var reservations := WithReservation(book.reservations, row);
    var existing := ReservationFor(reservations, row.decision);
    if existing == None then Err(ReservationUnreadable)
    else if !SamePayload(existing.value, row) then Err(ReservationCollision)
    else if reservations == book.reservations || q.decision.outcome != Approve then Ok(book.(reservations := reservations))
    else if !BothFit(book.anchors, q.account, q.currency, row.remaining) then Err(LimitExceeded)
    else Ok(book.(anchors := Booked(book.anchors, q.account, q.currency, row.remaining), reservations := reservations))
  }

  /** A refused transaction leaves the book as it was. */
  function Next(book: Book, q: Request): Book {
    match Persist(book, q)
    case Ok(after) => after
    case Err(_) => book
  }

  function Final(book: Book, qs: seq<Request>): Book
    decreases |qs|
  {
    if qs == [] then book else Final(Next(book, qs[0]), qs[1..])
  }

  // ---- The transaction as the service runs it ----

  lemma DistinctRows(anchors: seq<Anchor>, account: int, currency: int)
    requires Locked(anchors, account, currency)
    ensures Locate(anchors, Global, currency) != Locate(anchors, Account(account), currency)
  {
  }

  class RiskTables {
    var anchors: seq<Anchor>
    var decisions: seq<Decision>
    var reservations: seq<Reservation>

    constructor (book: Book)
      ensures Contents() == book
    {
      anchors, decisions, reservations := book.anchors, book.decisions, book.reservations;
    }

    function Contents(): Book
      reads this
    {
      Book(anchors, decisions, reservations)
    }

    /** Checks and raises the locked rows one after the other. When a later row is full the earlier
        ones are already raised: undoing that is the transaction's business. */
    method RaiseAnchors(rows: seq<nat>, amount: real) returns (full: bool)
      requires forall k :: 0 <= k < |rows| ==> rows[k] < |anchors|
      requires forall k, l :: 0 <= k < l < |rows| ==> rows[k] != rows[l]
      modifies this`anchors
      ensures |anchors| == |old(anchors)|
      ensures full <==> exists k :: 0 <= k < |rows| && !Fits(old(anchors)[rows[k]], amount)
      ensures !full ==> forall i :: 0 <= i < |anchors| ==>
                anchors[i] == if i in rows then Raised(old(anchors)[i], amount) else old(anchors)[i]
    {
      for k := 0 to |rows|
        invariant |anchors| == |old(anchors)|
        invariant forall l :: 0 <= l < k ==> Fits(old(anchors)[rows[l]], amount)
        invariant forall i :: 0 <= i < |anchors| ==>
                    anchors[i] == if i in rows[..k] then Raised(old(anchors)[i], amount) else old(anchors)[i]
      {
        var i := rows[k];
        assert i !in rows[..k];
        var row := anchors[i];
        if row.position + row.reserved + amount > row.limit {
          return true;
        }
        anchors := anchors[i := row.(reserved := row.reserved + amount, version := row.version + 1)];
        assert rows[..k + 1] == rows[..k] + [i];
      }
      assert rows[..|rows|] == rows;
      full := false;
    }

    /** Inserts the decision unless the table ignores it, and reads back what the intent has. */
    method PersistDecision(d: Decision) returns (r: Result<Decision, Refusal>)
      modifies this`decisions
      ensures decisions == WithDecision(old(decisions), d)
      ensures var stored := DecisionFor(decisions, d.intent);
              r == if stored == None then Err(DecisionUnreadable)
                   else if stored.value.hash != d.hash then Err(DecisionCollision)
                   else Ok(stored.value)
    {
      if DecisionEnters(decisions, d) {
        decisions := decisions + [d];
      }
      var stored := DecisionFor(decisions, d.intent);
      if stored == None {
        return Err(DecisionUnreadable);
      }
      r := if stored.value.hash != d.hash then Err(DecisionCollision) else Ok(stored.value);
    }

    /** Inserts the reservation unless the table ignores it; says whether it was inserted. */
    method PersistReservation(row: Reservation) returns (r: Result<bool, Refusal>)
      modifies this`reservations
      ensures reservations == WithReservation(old(reservations), row)
      ensures var existing := ReservationFor(reservations, row.decision);
              r == if existing == None then Err(ReservationUnreadable)
                   else if !SamePayload(existing.value, row) then Err(ReservationCollision)
                   else Ok(reservations != old(reservations))
    {
      var inserted := ReservationEnters(reservations, row);
      if inserted {
        reservations := reservations + [row];
      }
      var existing := ReservationFor(reservations, row.decision);
      if existing == None {
        return Err(ReservationUnreadable);
      }
      r := if !SamePayload(existing.value, row) then Err(ReservationCollision) else Ok(inserted);
    }

    /** Raises the GLOBAL and the ACCOUNT row, or finds one of them full. */
    method RaiseBoth(account: int, currency: int, amount: real) returns (full: bool)
      requires Locked(anchors, account, currency)
      modifies this`anchors
      ensures full <==> !BothFit(old(anchors), account, currency, amount)
      ensures !full ==> anchors == Booked(old(anchors), account, currency, amount)
    {
      var g := Locate(anchors, Global, currency);
      var a := Locate(anchors, Account(account), currency);
      DistinctRows(anchors, account, currency);
      ghost var booked := Booked(anchors, account, currency, amount);
      var rows := [g, a];
      assert rows[0] == g && rows[1] == a;
      full := RaiseAnchors(rows, amount);
      assert !full ==> anchors == booked;
    }

    /** From the stored decision on: the reservation, then the anchors if it is a new approval. */
    method ReserveRow(q: Request, row: Reservation) returns (refusal: Option<Refusal>)
      requires Locked(anchors, q.account, q.currency)
      modifies this`reservations, this`anchors
      ensures match Reserve(old(Contents()), q, row)
              case Ok(after) => refusal == None && Contents() == after
              case Err(why) => refusal == Some(why)
    {
      var created := PersistReservation(row);
      if created.Err? {
        return Some(created.error);
      }
      refusal := None;
      if created.value && q.decision.outcome == Approve {
        var full := RaiseBoth(q.account, q.currency, row.remaining);
        if full {
          refusal := Some(LimitExceeded);
        }
      }
    }

    /** The service's steps, with whatever they have written so far left in place on a refusal. */
    method Attempt(q: Request) returns (refusal: Option<Refusal>)
      modifies this
      ensures match Persist(old(Contents()), q)
              case Ok(after) => refusal == None && Contents() == after
              case Err(why) => refusal == Some(why)
    {
      if Locate(anchors, Global, q.currency) == |anchors| || Locate(anchors, Account(q.account), q.currency) == |anchors| {
        return Some(AnchorsRequired);
      }
      refusal := Objection(q);
      if refusal != None {
        return;
      }
      var stored := PersistDecision(q.decision);
      if stored.Err? {
        return Some(stored.error);
      }
      refusal := ReserveRow(q, RowFor(q.reservation, stored.value));
    }

    /** The transaction: committed whole, or rolled back to the tables it found. */
    method PersistApproval(q: Request) returns (refusal: Option<Refusal>)
      modifies this
      ensures Contents() == Next(old(Contents()), q)
      ensures refusal.Some? <==> Persist(old(Contents()), q).Err?
      ensures refusal.Some? ==> Persist(old(Contents()), q) == Err(refusal.value)
    {
      var before := Contents();
      refusal := Attempt(q);
      if refusal != None {
        anchors, decisions, reservations := before.anchors, before.decisions, before.reservations;
      }
    }
  }

  // ---- What every sequence of transactions keeps ----

  predicate WithinLimit(row: Anchor) { row.position + row.reserved <= row.limit }

  /** Anchor by anchor: it stands as it was, or it is within its limit. One within its limit stays
      within it, and one already over its limit is never raised, whatever the others do. */
  predicate LimitsHeld(a: seq<Anchor>, b: seq<Anchor>) {
    |a| == |b| && forall i :: 0 <= i < |a| ==> b[i] == a[i] || WithinLimit(b[i])
  }

  /** Everything about an anchor but its reservation and its version. */
  predicate SameAnchor(a: Anchor, b: Anchor) {
    a.scope == b.scope && a.currency == b.currency && a.position == b.position && a.limit == b.limit
  }

  predicate SameAnchors(a: seq<Anchor>, b: seq<Anchor>) {
    |a| == |b| && forall i :: 0 <= i < |a| ==> SameAnchor(a[i], b[i])
  }

  /** What the anchors of one currency, or of every currency, hold in reserve: the GLOBAL ones, or the
      ACCOUNT ones. */
  function Held(anchors: seq<Anchor>, global: bool, currency: Option<int>): real {
    if anchors == [] then 0.0
    else Held(anchors[1..], global, currency) + Part(anchors[0], global, currency)
  }

  function Part(row: Anchor, global: bool, currency: Option<int>): real {
    if Covers(currency, row.currency) && (if global then row.scope.Global? else row.scope.Account?) then row.reserved
    else 0.0
  }

  predicate Covers(currency: Option<int>, one: int) { currency == None || currency == Some(one) }

  /** What the reservations still hold, whatever their currency. */
  function Outstanding(reservations: seq<Reservation>): real {
    if reservations == [] then 0.0
    else Outstanding(reservations[..|reservations| - 1]) + reservations[|reservations| - 1].remaining
  }

  lemma {:induction false} HeldUpdate(anchors: seq<Anchor>, i: nat, row: Anchor, global: bool, currency: Option<int>)
    requires i < |anchors|
    ensures Held(anchors[i := row], global, currency) ==
            Held(anchors, global, currency) - Part(anchors[i], global, currency) + Part(row, global, currency)
  {
    if i == 0 {
      assert anchors[i := row][1..] == anchors[1..];
    } else {
      HeldUpdate(anchors[1..], i - 1, row, global, currency);
      assert anchors[i := row][1..] == anchors[1..][i - 1 := row];
    }
  }

  /** Booking adds the amount once to the GLOBAL side and once to the ACCOUNT side of its currency,
      and to no other currency. */
  lemma BookedHolds(
    anchors: seq<Anchor>, account: int, currency: int, amount: real, global: bool, other: Option<int>)
    requires Locked(anchors, account, currency)
    ensures Held(Booked(anchors, account, currency, amount), global, other) ==
            Held(anchors, global, other) + if Covers(other, currency) then amount else 0.0
  {
    var g := Locate(anchors, Global, currency);
    var a := Locate(anchors, Account(account), currency);
    var first := anchors[g := Raised(anchors[g], amount)];
    HeldUpdate(anchors, g, Raised(anchors[g], amount), global, other);
    HeldUpdate(first, a, Raised(anchors[a], amount), global, other);
  }

  lemma BookedKeeps(anchors: seq<Anchor>, account: int, currency: int, amount: real)
    requires Locked(anchors, account, currency) && BothFit(anchors, account, currency, amount)
    ensures SameAnchors(anchors, Booked(anchors, account, currency, amount))
    ensures LimitsHeld(anchors, Booked(anchors, account, currency, amount))
  {
  }

  /** Row by row: the two locked anchors hold the amount more and are one version on, and no other row and
      nothing else of these two changes. */
  lemma BookedRowByRow(anchors: seq<Anchor>, account: int, currency: int, amount: real, i: nat)
    requires Locked(anchors, account, currency) && i < |anchors|
    ensures var b := Booked(anchors, account, currency, amount)[i];
            var locked := i == Locate(anchors, Global, currency) || i == Locate(anchors, Account(account), currency);
            && SameAnchor(b, anchors[i])
            && b.reserved == anchors[i].reserved + (if locked then amount else 0.0)
            && b.version == anchors[i].version + (if locked then 1 else 0)
  {
    DistinctRows(anchors, account, currency);
  }

  /** How much the GLOBAL anchors of a currency, or of every currency, grow by. */
  function Growth(a: seq<Anchor>, b: seq<Anchor>, global: bool, currency: Option<int>): real {
    Held(b, global, currency) - Held(a, global, currency)
  }

  predicate Balanced(a: seq<Anchor>, b: seq<Anchor>, currency: Option<int>) {
    Growth(a, b, true, currency) == Growth(a, b, false, currency)
  }

  /** How transactions move the anchors: within their limits, both sides by the same amount. */
  ghost predicate AnchorsMove(a: seq<Anchor>, b: seq<Anchor>) {
    && SameAnchors(a, b)
    && LimitsHeld(a, b)
    && forall currency :: Balanced(a, b, currency)
  }

  /** How they move the book: the tables only grow, and what the GLOBAL anchors grow by is what the
      new reservations hold. */
  ghost predicate Moves(a: Book, b: Book) {
    && AnchorsMove(a.anchors, b.anchors)
    && a.decisions <= b.decisions
    && a.reservations <= b.reservations
    && Growth(a.anchors, b.anchors, true, None) == Outstanding(b.reservations) - Outstanding(a.reservations)
  }

  lemma BookedMoves(anchors: seq<Anchor>, account: int, currency: int, amount: real)
    requires Locked(anchors, account, currency) && BothFit(anchors, account, currency, amount)
    ensures AnchorsMove(anchors, Booked(anchors, account, currency, amount))
    ensures Growth(anchors, Booked(anchors, account, currency, amount), true, None) == amount
  {
    BookedKeeps(anchors, account, currency, amount);
    forall other
      ensures Balanced(anchors, Booked(anchors, account, currency, amount), other)
    {
      BookedHolds(anchors, account, currency, amount, true, other);
      BookedHolds(anchors, account, currency, amount, false, other);
    }
    BookedHolds(anchors, account, currency, amount, true, None);
  }

  lemma StayingMoves(anchors: seq<Anchor>)
    ensures AnchorsMove(anchors, anchors) && Growth(anchors, anchors, true, None) == 0.0
  {
  }

  lemma OutstandingAppend(reservations: seq<Reservation>, row: Reservation)
    ensures Outstanding(reservations + [row]) == Outstanding(reservations) + row.remaining
  {
    assert (reservations + [row])[..|reservations|] == reservations;
  }

  /** A reservation that books nothing: a replay, or one that holds nothing. */
  lemma UnbookedMoves(book: Book, reservations: seq<Reservation>, row: Reservation)
    requires reservations == book.reservations || (reservations == book.reservations + [row] && row.remaining == 0.0)
    ensures Moves(book, book.(reservations := reservations))
  {
    StayingMoves(book.anchors);
    OutstandingAppend(book.reservations, row);
  }

  /** A new approval, booked on both sides. */
  lemma BookingMoves(book: Book, q: Request, row: Reservation)
    requires Locked(book.anchors, q.account, q.currency)
    requires BothFit(book.anchors, q.account, q.currency, row.remaining)
    ensures Moves(
              book,
              book.(anchors := Booked(book.anchors, q.account, q.currency, row.remaining),
                    reservations := book.reservations + [row]))
  {
    BookedMoves(book.anchors, q.account, q.currency, row.remaining);
    OutstandingAppend(book.reservations, row);
  }

  /** How a committed reservation ends: unbooked, holding nothing new, or booked on both sides. */
  lemma ReserveShape(book: Book, q: Request, row: Reservation)
    requires Locked(book.anchors, q.account, q.currency) && row.remaining == q.reservation.remaining
    requires Objection(q) == None && Reserve(book, q, row).Ok?
    ensures var after := Reserve(book, q, row).value;
            || (&& after == book.(reservations := after.reservations)
                && (|| after.reservations == book.reservations
                    || (after.reservations == book.reservations + [row] && row.remaining == 0.0)))
            || (&& BothFit(book.anchors, q.account, q.currency, row.remaining)
                && after == book.(anchors := Booked(book.anchors, q.account, q.currency, row.remaining),
                                  reservations := book.reservations + [row]))
  {
  }

  lemma ReserveMoves(book: Book, q: Request, row: Reservation)
    requires Locked(book.anchors, q.account, q.currency) && row.remaining == q.reservation.remaining
    requires Objection(q) == None && Reserve(book, q, row).Ok?
    ensures Moves(book, Reserve(book, q, row).value)
  {
    ReserveShape(book, q, row);
    var after := Reserve(book, q, row).value;
    if after == book.(reservations := after.reservations)
      && (after.reservations == book.reservations || (after.reservations == book.reservations + [row] && row.remaining == 0.0)) {
      UnbookedMoves(book, after.reservations, row);
    } else {
      BookingMoves(book, q, row);
    }
  }

  lemma StepMoves(book: Book, q: Request)
    ensures Moves(book, Next(book, q))
  {
    if Persist(book, q).Ok? {
      var decisions := WithDecision(book.decisions, q.decision);
      var stored := DecisionFor(decisions, q.decision.intent).value;
      ReserveMoves(book.(decisions := decisions), q, RowFor(q.reservation, stored));
    } else {
      StayingMoves(book.anchors);
    }
  }

  /** What one transaction does to the anchors: nothing, or the approved risk booked on both sides. */
  lemma StepBooks(book: Book, q: Request)
    ensures var after := Next(book, q).anchors;
            || after == book.anchors
            || (&& Locked(book.anchors, q.account, q.currency)
                && BothFit(book.anchors, q.account, q.currency, q.decision.reserved)
                && after == Booked(book.anchors, q.account, q.currency, q.decision.reserved))
  {
  }

  lemma MovesCompose(a: Book, b: Book, c: Book)
    requires Moves(a, b) && Moves(b, c)
    ensures Moves(a, c)
  {
    forall currency
      ensures Balanced(a.anchors, c.anchors, currency)
    {
      assert Balanced(a.anchors, b.anchors, currency) && Balanced(b.anchors, c.anchors, currency);
    }
  }

  /** Over every interleaving of approval transactions, for any number of accounts and currencies: no
      anchor passes its hard limit, in each currency the GLOBAL anchor grows by exactly what the
      ACCOUNT anchors grow by together, and all of it is held by the reservations. */
  lemma {:induction false} EveryRunMoves(book: Book, qs: seq<Request>)
    ensures Moves(book, Final(book, qs))
    decreases |qs|
  {
    if qs != [] {
      StepMoves(book, qs[0]);
      EveryRunMoves(Next(book, qs[0]), qs[1..]);
      MovesCompose(book, Next(book, qs[0]), Final(book, qs));
    } else {
      StayingMoves(book.anchors);
    }
  }

  // ---- Keys and collisions ----

  /** One decision per id and per intent. */
  predicate DecidedOnce(decisions: seq<Decision>) {
    forall i, j :: 0 <= i < j < |decisions| ==>
      decisions[i].id != decisions[j].id && decisions[i].intent != decisions[j].intent
  }

  /** One reservation per id and per decision, each accounting for its amount. */
  predicate ReservedOnce(reservations: seq<Reservation>) {
    && (forall i, j :: 0 <= i < j < |reservations| ==>
          reservations[i].id != reservations[j].id && reservations[i].decision != reservations[j].decision)
    && (forall i :: 0 <= i < |reservations| ==> Accounts(reservations[i]))
  }

  predicate Accounts(r: Reservation) {
    && r.initial >= 0.0 && r.consumed >= 0.0 && r.remaining >= 0.0 && r.released >= 0.0
    && r.consumed + r.remaining + r.released == r.initial
    && (r.currency.Some? <==> r.asset.None?)
  }

  predicate Keyed(book: Book) { DecidedOnce(book.decisions) && ReservedOnce(book.reservations) }

  lemma DecisionKeepsKeys(decisions: seq<Decision>, d: Decision)
    requires DecidedOnce(decisions)
    ensures DecidedOnce(WithDecision(decisions, d))
  {
  }

  lemma ReservationKeepsKeys(reservations: seq<Reservation>, row: Reservation)
    requires ReservedOnce(reservations)
    ensures ReservedOnce(WithReservation(reservations, row))
  {
  }

  lemma ReserveWrites(book: Book, q: Request, row: Reservation)
    requires Locked(book.anchors, q.account, q.currency) && Reserve(book, q, row).Ok?
    ensures var after := Reserve(book, q, row).value;
            after.decisions == book.decisions && after.reservations == WithReservation(book.reservations, row)
  {
  }

  lemma StepKeepsKeys(book: Book, q: Request)
    requires Keyed(book)
    ensures Keyed(Next(book, q))
  {
    if Persist(book, q).Ok? {
      var middle := book.(decisions := WithDecision(book.decisions, q.decision));
      var row := RowFor(q.reservation, DecisionFor(middle.decisions, q.decision.intent).value);
      DecisionKeepsKeys(book.decisions, q.decision);
      ReserveWrites(middle, q, row);
      ReservationKeepsKeys(book.reservations, row);
    }
  }

  /** Over every interleaving the tables stay keyed: no intent is ever decided twice and no decision ever
      reserved twice. */
  lemma {:induction false} EveryRunKeepsKeys(book: Book, qs: seq<Request>)
    requires Keyed(book)
    ensures Keyed(Final(book, qs))
    decreases |qs|
  {
    if qs != [] {
      StepKeepsKeys(book, qs[0]);
      EveryRunKeepsKeys(Next(book, qs[0]), qs[1..]);
    }
  }

  lemma {:induction false} DecisionForIs(decisions: seq<Decision>, i: nat)
    requires i < |decisions|
    requires forall j, k :: 0 <= j < k < |decisions| ==> decisions[j].intent != decisions[k].intent
    ensures DecisionFor(decisions, decisions[i].intent) == Some(decisions[i])
  {
    if i > 0 {
      DecisionForIs(decisions[1..], i - 1);
    }
  }

  lemma {:induction false} ReservationForIs(reservations: seq<Reservation>, i: nat)
    requires i < |reservations|
    requires forall j, k :: 0 <= j < k < |reservations| ==> reservations[j].decision != reservations[k].decision
    ensures ReservationFor(reservations, reservations[i].decision) == Some(reservations[i])
  {
    if i > 0 {
      ReservationForIs(reservations[1..], i - 1);
    }
  }

  /** An intent already decided otherwise is refused, and so is a decision already reserved for another
      intent, amount, currency or asset; nothing is changed. */
  lemma CollisionsAreRefused(book: Book, q: Request, i: nat, k: nat)
    requires Keyed(book) && i < |book.decisions| && book.decisions[i].intent == q.decision.intent
    ensures book.decisions[i].hash != q.decision.hash ==> Persist(book, q).Err? && Next(book, q) == book
    ensures k < |book.reservations| && book.reservations[k].decision == book.decisions[i].id
            && (|| book.reservations[k].intent != q.reservation.intent
                || book.reservations[k].initial != q.reservation.initial
                || book.reservations[k].asset != q.reservation.asset
                || (q.reservation.currency.Some? && book.reservations[k].currency != q.reservation.currency)) ==>
              Persist(book, q).Err? && Next(book, q) == book
  {
    DecisionForIs(book.decisions, i);
    assert WithDecision(book.decisions, q.decision) == book.decisions;
    if k < |book.reservations| && book.reservations[k].decision == book.decisions[i].id {
      ReservationForIs(book.reservations, k);
      var row := RowFor(q.reservation, book.decisions[i]);
      assert WithReservation(book.reservations, row) == book.reservations;
    }
  }

  // ---- Currency by currency ----

  /** What the reservations written in one currency still hold. */
  function OutstandingIn(reservations: seq<Reservation>, currency: int): real {
    if reservations == [] then 0.0
    else
      var last := reservations[|reservations| - 1];
      OutstandingIn(reservations[..|reservations| - 1], currency) + if last.currency == Some(currency) then last.remaining else 0.0
  }

  /** In this currency the GLOBAL anchor grew by what the new reservations hold. */
  predicate Filed(a: Book, b: Book, currency: int) {
    Growth(a.anchors, b.anchors, true, Some(currency)) ==
    OutstandingIn(b.reservations, currency) - OutstandingIn(a.reservations, currency)
  }

  /** The reservation names no currency of its own, or the one its anchors are in. The service compares
      the decision's currency with the anchors' and never the reservation's. */
  predicate InItsCurrency(q: Request) { q.reservation.currency == None || q.reservation.currency == Some(q.currency) }

  /** A decision's hash is taken over its currency too, so it tells it. */
  predicate HashTells(d: Decision, currencyOf: int -> int) { d.currency == currencyOf(d.hash) }

  predicate HashesTell(decisions: seq<Decision>, currencyOf: int -> int) {
    forall d :: d in decisions ==> HashTells(d, currencyOf)
  }

  lemma OutstandingInAppend(reservations: seq<Reservation>, row: Reservation, currency: int)
    ensures OutstandingIn(reservations + [row], currency) ==
            OutstandingIn(reservations, currency) + if row.currency == Some(currency) then row.remaining else 0.0
  {
    assert (reservations + [row])[..|reservations|] == reservations;
  }

  lemma UnbookedIsFiled(book: Book, reservations: seq<Reservation>, row: Reservation, currency: int)
    requires reservations == book.reservations || (reservations == book.reservations + [row] && row.remaining == 0.0)
    ensures Filed(book, book.(reservations := reservations), currency)
  {
    OutstandingInAppend(book.reservations, row, currency);
  }

  /** A booking is filed in every currency exactly when its row is in its anchors' currency, or holds
      nothing. */
  lemma BookingIsFiledIff(book: Book, after: Book, account: int, currency: int, row: Reservation)
    requires Locked(book.anchors, account, currency)
    requires after.anchors == Booked(book.anchors, account, currency, row.remaining)
    requires after.reservations == book.reservations + [row]
    ensures (forall c :: Filed(book, after, c)) <==> row.currency == Some(currency) || row.remaining == 0.0
  {
    forall c
      ensures Filed(book, after, c) <==>
                (if c == currency then row.remaining else 0.0) == if row.currency == Some(c) then row.remaining else 0.0
    {
      BookedHolds(book.anchors, account, currency, row.remaining, true, Some(c));
      OutstandingInAppend(book.reservations, row, c);
    }
    if forall c :: Filed(book, after, c) {
      assert Filed(book, after, currency);
    }
  }

  /** The stored decision is in the request's currency. */
  lemma StoredCurrency(decisions: seq<Decision>, d: Decision, currencyOf: int -> int)
    requires HashesTell(decisions, currencyOf) && HashTells(d, currencyOf)
    ensures HashesTell(WithDecision(decisions, d), currencyOf)
    ensures var stored := DecisionFor(WithDecision(decisions, d), d.intent);
            stored.Some? && stored.value.hash == d.hash ==> stored.value.currency == d.currency
  {
  }

  lemma ReserveIsFiledIff(book: Book, q: Request, row: Reservation)
    requires Locked(book.anchors, q.account, q.currency) && row.remaining == q.reservation.remaining
    requires Objection(q) == None && Reserve(book, q, row).Ok?
    ensures var after := Reserve(book, q, row).value;
            (forall c :: Filed(book, after, c)) <==>
              after.reservations == book.reservations || row.currency == Some(q.currency) || row.remaining == 0.0
  {
    ReserveShape(book, q, row);
    var after := Reserve(book, q, row).value;
    if after == book.(reservations := after.reservations)
      && (after.reservations == book.reservations || (after.reservations == book.reservations + [row] && row.remaining == 0.0)) {
      forall c
        ensures Filed(book, after, c)
      {
        UnbookedIsFiled(book, after.reservations, row, c);
      }
    } else {
      BookingIsFiledIff(book, after, q.account, q.currency, row);
    }
  }

  /** Exactly when a committed request keeps the books currency by currency: it was a replay, it holds
      nothing, or its reservation is in its own currency. */
  lemma StepIsFiledIff(book: Book, q: Request, currencyOf: int -> int)
    requires Persist(book, q).Ok? && HashesTell(book.decisions, currencyOf) && HashTells(q.decision, currencyOf)
    ensures (forall c :: Filed(book, Next(book, q), c)) <==>
              || Next(book, q).reservations == book.reservations
              || q.reservation.remaining == 0.0
              || InItsCurrency(q)
  {
    var decisions := WithDecision(book.decisions, q.decision);
    StoredCurrency(book.decisions, q.decision, currencyOf);
    var stored := DecisionFor(decisions, q.decision.intent).value;
    var row := RowFor(q.reservation, stored);
    var middle := book.(decisions := decisions);
    ReserveIsFiledIff(middle, q, row);
    assert forall c :: Filed(book, Next(book, q), c) <==> Filed(middle, Reserve(middle, q, row).value, c);
  }

  lemma NextTells(book: Book, q: Request, currencyOf: int -> int)
    requires HashesTell(book.decisions, currencyOf) && HashTells(q.decision, currencyOf)
    ensures HashesTell(Next(book, q).decisions, currencyOf)
  {
    StoredCurrency(book.decisions, q.decision, currencyOf);
  }

  /** Over every interleaving of requests whose reservations are in their own currency, each currency's
      GLOBAL anchor grows by exactly what the reservations in that currency hold. */
  lemma {:induction false} EveryRunIsFiled(book: Book, qs: seq<Request>, currencyOf: int -> int, currency: int)
    requires HashesTell(book.decisions, currencyOf)
    requires forall q :: q in qs ==> HashTells(q.decision, currencyOf) && InItsCurrency(q)
    ensures Filed(book, Final(book, qs), currency)
    decreases |qs|
  {
    if qs != [] {
      var q, next := qs[0], Next(book, qs[0]);
      assert q in qs;
      NextTells(book, q, currencyOf);
      if Persist(book, q).Ok? {
        StepIsFiledIff(book, q, currencyOf);
      }
      assert Filed(book, next, currency);
      EveryRunIsFiled(next, qs[1..], currencyOf, currency);
    }
  }

  // ---- What a request must be ----

  /** What the request alone must be: a reservation of its own decision, account and currency, for
      exactly the approved risk or, for a reduction, for nothing and already consumed. */
  predicate Coherent(q: Request) {
    && q.reservation.decision == q.decision.id
    && q.reservation.account == q.account
    && q.decision.currency == q.currency
    && match q.decision.outcome
       case Approve => q.reservation.remaining == q.decision.reserved
       case Reduce =>
         && q.decision.reserved == 0.0 == q.reservation.initial == q.reservation.remaining
         && q.reservation.status == Consumed
       case _ => false
  }

  lemma ObjectionIff(q: Request)
    ensures Objection(q) == None <==> Coherent(q)
  {
  }

  /** When a new request is committed: it is coherent, its rows enter their tables, both anchors
      exist, and for an approval both have room. */
  lemma FreshRequestIsCommittedIff(book: Book, q: Request)
    requires DecisionFor(book.decisions, q.decision.intent) == None
    requires ReservationFor(book.reservations, q.decision.id) == None
    ensures Persist(book, q).Ok? <==>
              && Locked(book.anchors, q.account, q.currency)
              && Coherent(q)
              && DecisionEnters(book.decisions, q.decision)
              && ReservationEnters(book.reservations, RowFor(q.reservation, q.decision))
              && (q.decision.outcome == Approve ==>
                    var g := book.anchors[Locate(book.anchors, Global, q.currency)];
                    var a := book.anchors[Locate(book.anchors, Account(q.account), q.currency)];
                    && g.position + g.reserved + q.decision.reserved <= g.limit
                    && a.position + a.reserved + q.decision.reserved <= a.limit)
  {
    ObjectionIff(q);
    DecisionAppend(book.decisions, q.decision);
    ReservationAppend(book.reservations, RowFor(q.reservation, q.decision));
  }

  lemma {:induction false} DecisionAppend(decisions: seq<Decision>, d: Decision)
    requires DecisionFor(decisions, d.intent) == None
    ensures DecisionFor(decisions + [d], d.intent) == Some(d)
  {
    if decisions != [] {
      assert (decisions + [d])[1..] == decisions[1..] + [d];
      DecisionAppend(decisions[1..], d);
    }
  }

  lemma {:induction false} ReservationAppend(reservations: seq<Reservation>, r: Reservation)
    requires ReservationFor(reservations, r.decision) == None
    ensures ReservationFor(reservations + [r], r.decision) == Some(r)
  {
    if reservations != [] {
      assert (reservations + [r])[1..] == reservations[1..] + [r];
      ReservationAppend(reservations[1..], r);
    }
  }

  // ---- Replays ----

  lemma {:induction false} LocateKept(a: seq<Anchor>, b: seq<Anchor>, scope: Scope, currency: int)
    requires SameAnchors(a, b)
    ensures Locate(a, scope, currency) == Locate(b, scope, currency)
  {
    if a != [] {
      assert SameAnchor(a[0], b[0]);
      forall i | 0 <= i < |a| - 1
        ensures SameAnchor(a[1..][i], b[1..][i])
      {
        assert SameAnchor(a[i + 1], b[i + 1]);
      }
      LocateKept(a[1..], b[1..], scope, currency);
    }
  }

  lemma {:induction false} DecisionKept(a: seq<Decision>, b: seq<Decision>, intent: int)
    requires a <= b && DecisionFor(a, intent).Some?
    ensures DecisionFor(b, intent) == DecisionFor(a, intent)
  {
    if a[0].intent != intent {
      DecisionKept(a[1..], b[1..], intent);
    }
  }

  lemma {:induction false} ReservationKept(a: seq<Reservation>, b: seq<Reservation>, decision: int)
    requires a <= b && ReservationFor(a, decision).Some?
    ensures ReservationFor(b, decision) == ReservationFor(a, decision)
  {
    if a[0].decision != decision {
      ReservationKept(a[1..], b[1..], decision);
    }
  }

  /** The request's decision and reservation are on file under its intent. */
  predicate OnFile(book: Book, q: Request) {
    && Locked(book.anchors, q.account, q.currency)
    && Objection(q) == None
    && var stored := DecisionFor(book.decisions, q.decision.intent);
    && stored.Some? && stored.value.hash == q.decision.hash
    && var existing := ReservationFor(book.reservations, stored.value.id);
    && existing.Some? && SamePayload(existing.value, RowFor(q.reservation, stored.value))
  }

  lemma ReserveFiles(book: Book, q: Request, row: Reservation)
    requires Locked(book.anchors, q.account, q.currency) && Reserve(book, q, row).Ok?
    ensures var after := Reserve(book, q, row).value;
            var existing := ReservationFor(after.reservations, row.decision);
            after.decisions == book.decisions && existing.Some? && SamePayload(existing.value, row)
  {
  }

  lemma AnchorsStayLocked(a: Book, b: Book, account: int, currency: int)
    requires Locked(a.anchors, account, currency) && SameAnchors(a.anchors, b.anchors)
    ensures Locked(b.anchors, account, currency)
  {
    LocateKept(a.anchors, b.anchors, Global, currency);
    LocateKept(a.anchors, b.anchors, Account(account), currency);
  }

  lemma AcceptedIsOnFile(book: Book, q: Request)
    requires Persist(book, q).Ok?
    ensures OnFile(Next(book, q), q)
  {
    StepMoves(book, q);
    AnchorsStayLocked(book, Next(book, q), q.account, q.currency);
    var decisions := WithDecision(book.decisions, q.decision);
    var stored := DecisionFor(decisions, q.decision.intent).value;
    ReserveFiles(book.(decisions := decisions), q, RowFor(q.reservation, stored));
  }

  lemma OnFileKept(a: Book, b: Book, q: Request)
    requires OnFile(a, q) && Moves(a, b)
    ensures OnFile(b, q)
  {
    AnchorsStayLocked(a, b, q.account, q.currency);
    DecisionKept(a.decisions, b.decisions, q.decision.intent);
    ReservationKept(a.reservations, b.reservations, DecisionFor(a.decisions, q.decision.intent).value.id);
  }

  lemma OnFileReplays(book: Book, q: Request)
    requires OnFile(book, q)
    ensures Persist(book, q) == Ok(book)
  {
    var stored := DecisionFor(book.decisions, q.decision.intent).value;
    assert !DecisionEnters(book.decisions, q.decision);
    var row := RowFor(q.reservation, stored);
    assert !ReservationEnters(book.reservations, row);
  }

  /** Once accepted, a request may be sent again at any later point of any run: it is accepted, the
      limits are not consulted again, and nothing changes. */
  lemma {:induction false} ReplayChangesNothing(book: Book, q: Request, later: seq<Request>)
    requires Persist(book, q).Ok?
    ensures var at := Final(Next(book, q), later);
            Persist(at, q) == Ok(at)
  {
    AcceptedIsOnFile(book, q);
    EveryRunMoves(Next(book, q), later);
    OnFileKept(Next(book, q), Final(Next(book, q), later), q);
    OnFileReplays(Final(Next(book, q), later), q);
  }
}
