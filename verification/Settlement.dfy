/** Settling a venue's trades into the fill ledger: one committed trade at a time, resuming from the
    highest id on the ledger, over whatever windows the venue answers with. */
module Settlement {
  import opened Common
  import opened Sequences

  /** `entry` tells whether the linked order was placed to open a position. */
  datatype Trade = Trade(id: int, order: int, quantity: real, entry: bool)

  function IdOf(trade: Trade): int { trade.id }

  function ById(): Trade -> int { (trade: Trade) => IdOf(trade) }

  // ---- The ledger and its cursor ----

  predicate Above(cursor: Option<int>, id: int) { cursor == None || id > cursor.value }

  /** The highest id on the ledger. */
  function Cursor(fills: seq<Trade>): (c: Option<int>)
    ensures c == None <==> fills == []
    ensures forall i :: 0 <= i < |fills| ==> !Above(c, fills[i].id)
    ensures c.Some? ==> exists i :: 0 <= i < |fills| && fills[i].id == c.value
  {
    if fills == [] then None
    else
      var rest := Cursor(fills[1..]);
      if Above(rest, fills[0].id) then Some(fills[0].id) else rest
  }

  predicate Recorded(fills: seq<Trade>, id: int) { exists i :: 0 <= i < |fills| && fills[i].id == id }

  /** The ledger records a trade once, whatever it is told. */
  function Record(fills: seq<Trade>, trade: Trade): seq<Trade> {
    if Recorded(fills, trade.id) then fills else fills + [trade]
  }

  /** What one trade of a pass leaves behind. */
  datatype Books = Books(fills: seq<Trade>, unmatched: nat)

  function ApplyTrade(books: Books, linked: set<int>, cursor: Option<int>, trade: Trade): Books {
    if !Above(cursor, trade.id) then books
    else if trade.order !in linked then books.(unmatched := books.unmatched + 1)
    else books.(fills := Record(books.fills, trade))
  }

  function ApplyAll(books: Books, linked: set<int>, cursor: Option<int>, trades: seq<Trade>): Books {
    if trades == [] then books
    else ApplyTrade(ApplyAll(books, linked, cursor, trades[..|trades| - 1]), linked, cursor, trades[|trades| - 1])
  }

  /** The trades of a pass that opened something to protect, in the order they were settled. */
  function Opens(linked: set<int>, cursor: Option<int>): Trade -> bool {
    (trade: Trade) => Above(cursor, trade.id) && trade.order in linked && trade.entry
  }

  class FillSettlement {
    var fills: seq<Trade>
    var unmatched: nat
    var handed: seq<Trade>

    constructor ()
      ensures fills == [] && unmatched == 0 && handed == []
    {
      fills, unmatched, handed := [], 0, [];
    }

    /** The loop over the sorted trades: each applied and committed, the entries among them listed. */
    method CommitAll(trades: seq<Trade>, linked: set<int>, cursor: Option<int>) returns (settled: seq<Trade>)
      modifies this`fills, this`unmatched
      ensures Books(fills, unmatched) == ApplyAll(Books(old(fills), old(unmatched)), linked, cursor, trades)
      ensures settled == Filter(trades, Opens(linked, cursor))
    {
      settled := [];
      for i := 0 to |trades|
        invariant Books(fills, unmatched) == ApplyAll(Books(old(fills), old(unmatched)), linked, cursor, trades[..i])
        invariant settled == Filter(trades[..i], Opens(linked, cursor))
      {
        var trade := trades[i];
        assert trades[..i + 1][..i] == trades[..i] && trades[..i + 1][i] == trade;
        if Above(cursor, trade.id) {
          if trade.order !in linked {
            unmatched := unmatched + 1;
          } else {
            if !Recorded(fills, trade.id) {
              fills := fills + [trade];
            }
            if trade.entry {
              settled := settled + [trade];
            }
          }
        }
      }
      assert trades[..|trades|] == trades;
    }

    /** The loop over what was listed. */
    method HandAllOver(settled: seq<Trade>)
      modifies this`handed
      ensures handed == old(handed) + settled
    {
      for i := 0 to |settled|
        invariant handed == old(handed) + settled[..i]
      {
        handed := handed + [settled[i]];
      }
      assert settled[..|settled|] == settled;
    }

    /** One pass nothing interrupts: every trade of the answer in id order, each committed, and then
        every entry among them handed over for its stop. */
    method Settle(answer: seq<Trade>, linked: set<int>) returns (count: nat)
      modifies this
      ensures var cursor := Cursor(old(fills));
              && Books(fills, unmatched) ==
                 ApplyAll(Books(old(fills), old(unmatched)), linked, cursor, Sorted(answer, ById()))
              && handed == old(handed) + Filter(Sorted(answer, ById()), Opens(linked, cursor))
      ensures count == |answer|
    {
      var cursor := Cursor(fills);
      var settled := CommitAll(Sorted(answer, ById()), linked, cursor);
      HandAllOver(settled);
      count := |answer|;
    }
  }

  // ---- Passes that may stop anywhere ----

  /** A pass under way: the cursor it read, the venue's answer, what is left of it in id order, and the
      entries it has settled and still has to hand over for their stops, which it keeps in memory only. */
  datatype Pass = Pass(cursor: Option<int>, answer: seq<Trade>, rest: seq<Trade>, protect: seq<Trade>)

  /** `shown` is the highest id the venue has ever answered with. `handed` remembers every entry handed
      over for its stop, `dropped` every entry whose pass stopped before it was. */
  datatype State = State(
    venue: seq<Trade>, linked: set<int>, books: Books, shown: Option<int>, pass: Option<Pass>,
    handed: seq<Trade>, dropped: seq<Trade>)

  datatype Event =
    | Trades(trade: Trade)
    | Link(order: int)
    | Begin(answer: seq<Trade>)
    | ApplyOne
    | HandOver
    | Stop

  /** The window reaches back to the cursor: a trade above it is in the answer if a later one is. */
  predicate CoversTheGap(venue: seq<Trade>, cursor: Option<int>, answer: seq<Trade>) {
    forall t, u :: t in venue && u in answer && Above(cursor, t.id) && t.id <= u.id ==> t in answer
  }

  /** Trade ids are never reused and never appear below one already shown; an order is linked before
      any of its trades is shown. */
  predicate Legal(s: State, e: Event) {
    match e
    case Trades(t) => Above(s.shown, t.id) && !Recorded(s.venue, t.id)
    case Link(order) => forall t :: t in s.venue && t.order == order ==> Above(s.shown, t.id)
    case Begin(answer) =>
      && s.pass == None
      && (forall t :: t in answer ==> t in s.venue)
      && CoversTheGap(s.venue, Cursor(s.books.fills), answer)
    case ApplyOne => s.pass.Some? && s.pass.value.rest != []
    case HandOver => s.pass.Some? && s.pass.value.rest == [] && s.pass.value.protect != []
    case Stop => true
  }

  function Highest(cursor: Option<int>, trades: seq<Trade>): (c: Option<int>)
    ensures forall i :: 0 <= i < |trades| ==> !Above(c, trades[i].id)
    ensures cursor.Some? ==> !Above(c, cursor.value)
  {
    if trades == [] then cursor
    else
      var rest := Highest(cursor, trades[1..]);
      if Above(rest, trades[0].id) then Some(trades[0].id) else rest
  }

  function NotIn(trades: seq<Trade>): Trade -> bool { (trade: Trade) => trade !in trades }

  /** What a pass that stops now leaves without a stop. */
  function Unhanded(s: State): seq<Trade> {
    if s.pass == None then [] else Filter(s.pass.value.protect, NotIn(s.handed))
  }

  function Next(s: State, e: Event): State
    requires Legal(s, e)
  {
    match e
    case Trades(t) => s.(venue := s.venue + [t])
    case Link(order) => s.(linked := s.linked + {order})
    case Begin(answer) =>
      s.(pass := Some(Pass(Cursor(s.books.fills), answer, Sorted(answer, ById()), [])), shown := Highest(s.shown, answer))
    case ApplyOne =>
      var p, trade := s.pass.value, s.pass.value.rest[0];
      var listed := if Opens(s.linked, p.cursor)(trade) then p.protect + [trade] else p.protect;
      s.(books := ApplyTrade(s.books, s.linked, p.cursor, trade), pass := Some(p.(rest := p.rest[1..], protect := listed)))
    case HandOver =>
      var p := s.pass.value;
      s.(handed := s.handed + [p.protect[0]], pass := Some(p.(protect := p.protect[1..])))
    case Stop => s.(pass := None, dropped := s.dropped + Unhanded(s))
  }

  predicate LegalRun(s: State, es: seq<Event>)
    decreases |es|
  {
    es == [] || (Legal(s, es[0]) && LegalRun(Next(s, es[0]), es[1..]))
  }

  function Final(s: State, es: seq<Event>): State
    requires LegalRun(s, es)
    decreases |es|
  {
    if es == [] then s else Final(Next(s, es[0]), es[1..])
  }

  const Start := State([], {}, Books([], 0), None, None, [], [])

  // ---- What every run keeps ----

  predicate OneIdEach(venue: seq<Trade>) { forall t, u :: t in venue && u in venue && t.id == u.id ==> t == u }

  predicate Ascending(fills: seq<Trade>) { forall i, j :: 0 <= i < j < |fills| ==> fills[i].id < fills[j].id }

  predicate Matched(venue: seq<Trade>, linked: set<int>, t: Trade) { t in venue && t.order in linked }

  /** The ledger holds every matched trade up to its own highest id. */
  ghost predicate LacksNothing(venue: seq<Trade>, linked: set<int>, fills: seq<Trade>) {
    forall t :: Matched(venue, linked, t) && !Above(Cursor(fills), t.id) ==> t in fills
  }

  ghost predicate OnlyMatched(venue: seq<Trade>, linked: set<int>, fills: seq<Trade>) {
    forall t :: t in fills ==> Matched(venue, linked, t)
  }

  /** The ledger is exactly the matched trades up to its own highest id, each once, in order. */
  ghost predicate Exact(venue: seq<Trade>, linked: set<int>, fills: seq<Trade>) {
    Ascending(fills) && OnlyMatched(venue, linked, fills) && LacksNothing(venue, linked, fills)
  }

  predicate AllShown(venue: seq<Trade>, shown: Option<int>, trades: seq<Trade>) {
    forall t :: t in trades ==> t in venue && !Above(shown, t.id)
  }

  predicate Before(t: Trade, rest: seq<Trade>) { forall u :: u in rest ==> t.id <= u.id }

  /** Every matched trade the answer reaches is settled already or still to come in the pass. */
  ghost predicate Reached(venue: seq<Trade>, linked: set<int>, fills: seq<Trade>, p: Pass) {
    forall t, u :: Matched(venue, linked, t) && Above(p.cursor, t.id) && u in p.answer && t.id <= u.id ==>
      t in fills || t in p.rest
  }

  /** What the pass has recorded lies below what it has left. */
  ghost predicate PassInOrder(fills: seq<Trade>, p: Pass) {
    && Ordered(p.rest, ById())
    && (forall t :: t in fills && Above(p.cursor, t.id) ==> Before(t, p.rest))
    && (p.cursor.Some? ==> !Above(Cursor(fills), p.cursor.value))
  }

  ghost predicate PassInv(s: State, p: Pass) {
    && AllShown(s.venue, s.shown, p.answer)
    && (forall u :: u in p.rest ==> u in p.answer)
    && PassInOrder(s.books.fills, p)
    && Reached(s.venue, s.linked, s.books.fills, p)
  }

  ghost predicate Inv(s: State) {
    && OneIdEach(s.venue)
    && Exact(s.venue, s.linked, s.books.fills)
    && AllShown(s.venue, s.shown, s.books.fills)
    && (s.pass.Some? ==> PassInv(s, s.pass.value))
  }

  lemma TradesKeeps(s: State, trade: Trade)
    requires Inv(s) && Legal(s, Trades(trade))
    ensures Inv(Next(s, Trades(trade)))
  {
    var after := Next(s, Trades(trade));
    assert forall t :: t in after.venue <==> t in s.venue || t == trade;
    forall t | t in s.venue
      ensures t.id != trade.id
    {
      var i :| 0 <= i < |s.venue| && s.venue[i] == t;
    }
    if s.books.fills != [] {
      assert s.books.fills[0] in s.books.fills;
    }
    CursorIsShown(s);
  }

  /** Nothing on the ledger, and so not its cursor either, is above what the venue has shown. */
  lemma CursorIsShown(s: State)
    requires AllShown(s.venue, s.shown, s.books.fills)
    ensures forall id :: Above(s.shown, id) ==> Above(Cursor(s.books.fills), id)
  {
    var c := Cursor(s.books.fills);
    if c.Some? {
      var i :| 0 <= i < |s.books.fills| && s.books.fills[i].id == c.value;
      assert s.books.fills[i] in s.books.fills;
    }
  }

  lemma LinkKeeps(s: State, order: int)
    requires Inv(s) && Legal(s, Link(order))
    ensures Inv(Next(s, Link(order)))
  {
    CursorIsShown(s);
  }

  lemma BeginKeeps(s: State, answer: seq<Trade>)
    requires Inv(s) && Legal(s, Begin(answer))
    ensures Inv(Next(s, Begin(answer)))
  {
    var after := Next(s, Begin(answer));
    SortedIsOrdered(answer, ById());
    forall t
      ensures t in Sorted(answer, ById()) <==> t in answer
    {
      SortedMembers(answer, ById(), t);
    }
    assert forall id :: !Above(s.shown, id) ==> !Above(after.shown, id);
    forall t | t in s.books.fills
      ensures !Above(Cursor(s.books.fills), t.id)
    {
    }
  }

  lemma HeadIsLowest(rest: seq<Trade>)
    requires rest != [] && Ordered(rest, ById())
    ensures Before(rest[0], rest) && Ordered(rest[1..], ById())
    ensures forall t :: t in rest <==> t == rest[0] || t in rest[1..]
  {
    assert rest == [rest[0]] + rest[1..];
    forall u | u in rest
      ensures rest[0].id <= u.id
    {
      var i :| 0 <= i < |rest| && rest[i] == u;
      assert ById()(rest[0]) == rest[0].id && ById()(rest[i]) == u.id;
    }
    forall i, j | 0 <= i < j < |rest| - 1
      ensures ById()(rest[1..][i]) <= ById()(rest[1..][j])
    {
      assert rest[1..][i] == rest[i + 1] && rest[1..][j] == rest[j + 1];
    }
  }

  /** Leaving a trade that need not be recorded, or is already. */
  lemma SkipKeeps(s: State, p: Pass, unmatched: nat)
    requires Inv(s) && s.pass == Some(p) && p.rest != []
    requires var u := p.rest[0];
             !Above(p.cursor, u.id) || u.order !in s.linked || u in s.books.fills
    ensures Inv(s.(books := Books(s.books.fills, unmatched), pass := Some(p.(rest := p.rest[1..]))))
  {
    RestKeeps(s.venue, s.linked, s.books.fills, s.books.fills, p);
  }

  lemma RecordedIsThere(s: State, u: Trade)
    requires Inv(s) && u in s.venue
    ensures Recorded(s.books.fills, u.id) <==> u in s.books.fills
  {
    if Recorded(s.books.fills, u.id) {
      var i :| 0 <= i < |s.books.fills| && s.books.fills[i].id == u.id;
      assert s.books.fills[i] in s.books.fills;
    }
  }

  /** A trade recorded next goes above everything recorded before it. */
  lemma RecordGoesOnTop(s: State, p: Pass, u: Trade)
    requires Inv(s) && s.pass == Some(p) && p.rest != [] && u == p.rest[0]
    requires Above(p.cursor, u.id) && u !in s.books.fills
    ensures forall t :: t in s.books.fills ==> t.id < u.id
    ensures Above(Cursor(s.books.fills), u.id)
  {
    assert u in p.rest && u in s.venue;
    forall t | t in s.books.fills
      ensures t.id < u.id
    {
      if Above(p.cursor, t.id) {
        assert Before(t, p.rest);
      }
    }
    var c := Cursor(s.books.fills);
    if c.Some? {
      var i :| 0 <= i < |s.books.fills| && s.books.fills[i].id == c.value;
      assert s.books.fills[i] in s.books.fills;
    }
  }

  lemma CursorAfter(fills: seq<Trade>, u: Trade)
    requires Above(Cursor(fills), u.id)
    ensures Cursor(fills + [u]) == Some(u.id)
  {
    var more := fills + [u];
    var c := Cursor(more);
    assert more[|fills|] == u;
    var i :| 0 <= i < |more| && more[i].id == c.value;
  }

  lemma AscendingAppend(fills: seq<Trade>, u: Trade)
    requires Ascending(fills) && forall t :: t in fills ==> t.id < u.id
    ensures Ascending(fills + [u])
  {
    var more := fills + [u];
    forall i, j | 0 <= i < j < |more|
      ensures more[i].id < more[j].id
    {
      assert more[i] == fills[i] && fills[i] in fills;
    }
  }

  /** Up to the trade just recorded, the ledger still lacks nothing. */
  lemma RecordLacksNothing(venue: seq<Trade>, linked: set<int>, fills: seq<Trade>, p: Pass, u: Trade)
    requires OneIdEach(venue) && LacksNothing(venue, linked, fills) && Reached(venue, linked, fills, p)
    requires PassInOrder(fills, p) && p.rest != [] && u == p.rest[0] && u in p.answer && u in venue
    requires Cursor(fills + [u]) == Some(u.id)
    ensures LacksNothing(venue, linked, fills + [u])
  {
    HeadIsLowest(p.rest);
    forall t | Matched(venue, linked, t) && t.id <= u.id
      ensures t in fills + [u]
    {
      if !Above(p.cursor, t.id) {
        assert !Above(Cursor(fills), t.id);
      } else {
        assert t in fills || t in p.rest;
      }
    }
  }

  /** The rest of the pass, one trade on, after recording its head or not. */
  lemma RestKeeps(venue: seq<Trade>, linked: set<int>, fills: seq<Trade>, more: seq<Trade>, p: Pass)
    requires p.rest != [] && PassInOrder(fills, p) && Reached(venue, linked, fills, p)
    requires more == fills || (more == fills + [p.rest[0]] && Cursor(more) == Some(p.rest[0].id))
    requires Above(p.cursor, p.rest[0].id) && p.rest[0].order in linked ==> p.rest[0] in more
    requires more != fills ==> Above(p.cursor, p.rest[0].id)
    ensures PassInOrder(more, p.(rest := p.rest[1..])) && Reached(venue, linked, more, p.(rest := p.rest[1..]))
  {
    HeadIsLowest(p.rest);
    assert forall t :: t in more ==> t in fills || t == p.rest[0];
    assert forall t :: t in fills ==> t in more;
  }

  lemma RecordAscends(s: State, p: Pass, u: Trade)
    requires Inv(s) && s.pass == Some(p) && p.rest != [] && u == p.rest[0]
    requires Above(p.cursor, u.id) && u !in s.books.fills
    ensures Ascending(s.books.fills + [u]) && Cursor(s.books.fills + [u]) == Some(u.id)
  {
    RecordGoesOnTop(s, p, u);
    CursorAfter(s.books.fills, u);
    AscendingAppend(s.books.fills, u);
  }

  lemma RecordIsMatched(venue: seq<Trade>, linked: set<int>, shown: Option<int>, fills: seq<Trade>, u: Trade)
    requires OnlyMatched(venue, linked, fills) && AllShown(venue, shown, fills)
    requires u in venue && u.order in linked && !Above(shown, u.id)
    ensures OnlyMatched(venue, linked, fills + [u]) && AllShown(venue, shown, fills + [u])
  {
    assert forall t :: t in fills + [u] <==> t in fills || t == u;
  }

  lemma RecordStaysExact(s: State, p: Pass, u: Trade)
    requires Inv(s) && s.pass == Some(p) && p.rest != [] && u == p.rest[0] && u in p.answer && u in s.venue
    requires Above(p.cursor, u.id) && u.order in s.linked && u !in s.books.fills
    ensures Exact(s.venue, s.linked, s.books.fills + [u]) && AllShown(s.venue, s.shown, s.books.fills + [u])
    ensures Cursor(s.books.fills + [u]) == Some(u.id)
  {
    RecordAscends(s, p, u);
    RecordIsMatched(s.venue, s.linked, s.shown, s.books.fills, u);
    RecordLacksNothing(s.venue, s.linked, s.books.fills, p, u);
  }

  lemma RecordKeeps(s: State, p: Pass, u: Trade)
    requires Inv(s) && s.pass == Some(p) && p.rest != [] && u == p.rest[0]
    requires Above(p.cursor, u.id) && u.order in s.linked && u !in s.books.fills
    ensures Inv(s.(books := s.books.(fills := s.books.fills + [u]), pass := Some(p.(rest := p.rest[1..]))))
  {
    assert u in p.rest && u in p.answer && u in s.venue;
    RecordStaysExact(s, p, u);
    RestKeeps(s.venue, s.linked, s.books.fills, s.books.fills + [u], p);
  }

  /** The exactness of the ledger has nothing to do with what is listed or handed over. */
  lemma ListsAside(s: State, t: State)
    requires Inv(s) && t.venue == s.venue && t.linked == s.linked && t.books == s.books && t.shown == s.shown
    requires t.pass.Some? ==> s.pass.Some? && t.pass.value == s.pass.value.(protect := t.pass.value.protect)
    ensures Inv(t)
  {
    if t.pass.Some? {
      var p, r := s.pass.value, t.pass.value;
      assert p.rest == r.rest && p.cursor == r.cursor && p.answer == r.answer;
      assert PassInOrder(s.books.fills, r);
      assert Reached(s.venue, s.linked, s.books.fills, r);
    }
  }

  lemma ApplyKeeps(s: State)
    requires Inv(s) && Legal(s, ApplyOne)
    ensures Inv(Next(s, ApplyOne))
  {
    var p := s.pass.value;
    var u := p.rest[0];
    assert u in p.rest;
    RecordedIsThere(s, u);
    var books := ApplyTrade(s.books, s.linked, p.cursor, u);
    if Above(p.cursor, u.id) && u.order in s.linked && u !in s.books.fills {
      RecordKeeps(s, p, u);
    } else {
      SkipKeeps(s, p, books.unmatched);
    }
    ListsAside(s.(books := books, pass := Some(p.(rest := p.rest[1..]))), Next(s, ApplyOne));
  }

  lemma StepIsExact(s: State, e: Event)
    requires Inv(s) && Legal(s, e)
    ensures Inv(Next(s, e))
  {
    match e
    case Trades(trade) => TradesKeeps(s, trade);
    case Link(order) => LinkKeeps(s, order);
    case Begin(answer) => BeginKeeps(s, answer);
    case ApplyOne => ApplyKeeps(s);
    case _ => ListsAside(s, Next(s, e));
  }

  /** In every run, over overlapping and unordered answers, with a stop between any two commits: the
      ledger is exactly the matched trades up to its highest id, each once, in ascending order. */
  lemma {:induction false} EveryRunIsExact(s: State, es: seq<Event>)
    requires Inv(s) && LegalRun(s, es)
    ensures Inv(Final(s, es))
    decreases |es|
  {
    if es != [] {
      StepIsExact(s, es[0]);
      EveryRunIsExact(Next(s, es[0]), es[1..]);
    }
  }

  /** When a pass has nothing left, every matched trade its answer reaches is on the ledger: with an
      answer that reaches the newest trade, that is all of them. */
  lemma FinishedPassSkipsNothing(es: seq<Event>, t: Trade, u: Trade)
    requires LegalRun(Start, es)
    requires var s := Final(Start, es);
             s.pass.Some? && s.pass.value.rest == [] && u in s.pass.value.answer && Matched(s.venue, s.linked, t) && t.id <= u.id
    ensures t in Final(Start, es).books.fills
  {
    EveryRunIsExact(Start, es);
    var s := Final(Start, es);
    if !Above(s.pass.value.cursor, t.id) {
      assert !Above(Cursor(s.books.fills), t.id);
    }
  }

  // ---- The count of trades placed by hand ----

  /** Trades above the cursor that belong to no linked order. */
  function ByHand(linked: set<int>, cursor: Option<int>): Trade -> bool {
    (trade: Trade) => Above(cursor, trade.id) && trade.order !in linked
  }

  lemma {:induction false} PassCountsByHand(books: Books, linked: set<int>, cursor: Option<int>, trades: seq<Trade>)
    ensures ApplyAll(books, linked, cursor, trades).unmatched ==
            books.unmatched + |Filter(trades, ByHand(linked, cursor))|
  {
    if trades != [] {
      PassCountsByHand(books, linked, cursor, trades[..|trades| - 1]);
    }
  }

  /** The counter is not a count of such trades: a pass that records nothing leaves the cursor where
      it was, so the same answer again counts the same trades again. */
  lemma CountedAgain(books: Books, linked: set<int>, answer: seq<Trade>)
    requires var cursor := Cursor(books.fills);
             ApplyAll(books, linked, cursor, Sorted(answer, ById())).fills == books.fills
    ensures var cursor := Cursor(books.fills);
            var trades := Sorted(answer, ById());
            var once := ApplyAll(books, linked, cursor, trades);
            var twice := ApplyAll(once, linked, Cursor(once.fills), trades);
            twice.unmatched - once.unmatched == once.unmatched - books.unmatched == |Filter(trades, ByHand(linked, cursor))|
  {
    var cursor := Cursor(books.fills);
    var trades := Sorted(answer, ById());
    PassCountsByHand(books, linked, cursor, trades);
    PassCountsByHand(ApplyAll(books, linked, cursor, trades), linked, cursor, trades);
  }

  /** Exactly when a trade placed by hand is counted by a pass: while nothing at or above it has been
      recorded. */
  lemma CountedWhileNothingPassedIt(fills: seq<Trade>, linked: set<int>, trade: Trade)
    requires trade.order !in linked
    ensures ByHand(linked, Cursor(fills))(trade) <==> forall i :: 0 <= i < |fills| ==> fills[i].id < trade.id
  {
  }
}
