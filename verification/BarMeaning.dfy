/** What each emitted bar says of the tape it was read from. */
module BarMeaning {
  import opened Common
  import opened Arithmetic
  import opened Sequences
  import opened TapeBars

  /** The trade is read, and falls in the bucket. */
  predicate In(t: Trade, first: int, end: int, start: int, duration: int)
    requires duration > 0
  {
    first <= t.us < end && Bucket(t.us, duration) == start
  }

  function InOf(first: int, end: int, start: int, duration: int): Trade -> bool
    requires duration > 0
  {
    (t: Trade) => In(t, first, end, start, duration)
  }

  /** The quantity traded in the bucket. */
  function QuantityIn(tape: seq<Trade>, first: int, end: int, start: int, duration: int): real
    requires duration > 0
  {
    if tape == [] then 0.0
    else
      var last := tape[|tape| - 1];
      QuantityIn(tape[..|tape| - 1], first, end, start, duration) +
      if In(last, first, end, start, duration) then last.quantity else 0.0
  }

  /** A bucket begins on a whole multiple of its length, and holds its trades' milliseconds. */
  lemma BucketIs(us: nat, duration: int)
    requires duration > 0
    ensures exists n: nat :: Bucket(us, duration) == n * duration
    ensures Bucket(us, duration) <= us / 1000 < Bucket(us, duration) + duration
  {
    var ms := us / 1000;
    assert ms == ms / duration * duration + ms % duration;
    assert Bucket(us, duration) == (ms / duration) * duration;
  }

  // ---- A filtered tape ----

  lemma {:induction false} FilterTwice(s: seq<Trade>, f: Trade -> bool, g: Trade -> bool, both: Trade -> bool)
    requires forall t :: both(t) <==> f(t) && g(t)
    ensures Filter(Filter(s, f), g) == Filter(s, both)
  {
    if s != [] {
      var front, last := s[..|s| - 1], s[|s| - 1];
      FilterTwice(front, f, g, both);
      FilterConcat(Filter(front, f), if f(last) then [last] else [], g);
      if f(last) {
        OnlyOne(last, g);
      }
    }
  }

  lemma OnlyOne(t: Trade, g: Trade -> bool)
    ensures Filter([t], g) == if g(t) then [t] else []
  {
    assert [t][..0] == [];
  }

  /** The first and the last of a filtered tape are the first and the last kept. */
  lemma {:induction false} FirstAndLast(s: seq<Trade>, keep: Trade -> bool) returns (i: nat, j: nat)
    requires Filter(s, keep) != []
    ensures i <= j < |s| && keep(s[i]) && keep(s[j])
    ensures Filter(s, keep)[0] == s[i] && Filter(s, keep)[|Filter(s, keep)| - 1] == s[j]
    ensures forall k :: 0 <= k < |s| && keep(s[k]) ==> i <= k <= j
  {
    var front, last := s[..|s| - 1], s[|s| - 1];
    if Filter(front, keep) == [] {
      NoneKept(front, keep);
      i, j := |s| - 1, |s| - 1;
    } else {
      i, j := FirstAndLast(front, keep);
      if keep(last) {
        j := |s| - 1;
      }
    }
  }

  lemma NoneKept(s: seq<Trade>, keep: Trade -> bool)
    requires Filter(s, keep) == []
    ensures forall k :: 0 <= k < |s| ==> !keep(s[k])
  {
    forall k | 0 <= k < |s|
      ensures !keep(s[k])
    {
      FilterMembers(s, keep, s[k]);
    }
  }

  lemma TradedAppend(trades: seq<Trade>, t: Trade)
    ensures Traded(trades + [t]) == Traded(trades) + t.quantity
  {
    assert (trades + [t])[..|trades|] == trades;
  }

  lemma {:induction false} FilteredQuantity(tape: seq<Trade>, first: int, end: int, start: int, duration: int)
    requires duration > 0
    ensures Traded(Filter(tape, InOf(first, end, start, duration))) == QuantityIn(tape, first, end, start, duration)
  {
    if tape != [] {
      var front, last := tape[..|tape| - 1], tape[|tape| - 1];
      FilteredQuantity(front, first, end, start, duration);
      var keep := InOf(first, end, start, duration);
      var kept := Filter(front, keep);
      TradedAppend(kept, last);
      assert Filter(tape, keep) == if keep(last) then kept + [last] else kept;
    }
  }

  // ---- What a bar says ----

  /** The bucket's first and last trades on the tape. */
  predicate Spans(tape: seq<Trade>, first: int, end: int, start: int, duration: int, i: int, j: int)
    requires duration > 0
  {
    && 0 <= i <= j < |tape| && In(tape[i], first, end, start, duration) && In(tape[j], first, end, start, duration)
    && forall k :: 0 <= k < |tape| && In(tape[k], first, end, start, duration) ==> i <= k <= j
  }

  /** It opens at the price of its bucket's first trade on the tape, closes at that of the last, its high
      and low bound every trade of the bucket and are each reached by one, and its volume is theirs. */
  ghost predicate Describes(tape: seq<Trade>, first: int, end: int, duration: int, bar: Bar)
    requires duration > 0
  {
    && (exists i, j :: Spans(tape, first, end, bar.start, duration, i, j)
                    && bar.open == tape[i].price && bar.close == tape[j].price)
    && (forall k :: 0 <= k < |tape| && In(tape[k], first, end, bar.start, duration) ==>
          bar.low <= tape[k].price <= bar.high)
    && (exists k :: 0 <= k < |tape| && In(tape[k], first, end, bar.start, duration) && tape[k].price == bar.high)
    && (exists k :: 0 <= k < |tape| && In(tape[k], first, end, bar.start, duration) && tape[k].price == bar.low)
    && bar.volume == QuantityIn(tape, first, end, bar.start, duration)
  }

  lemma KeptIsOnTape(tape: seq<Trade>, keep: Trade -> bool, t: Trade) returns (k: nat)
    requires t in Filter(tape, keep)
    ensures k < |tape| && tape[k] == t && keep(t)
  {
    FilterMembers(tape, keep, t);
    k :| 0 <= k < |tape| && tape[k] == t;
  }

  lemma OpensAndCloses(tape: seq<Trade>, first: int, end: int, start: int, duration: int, kept: seq<Trade>)
    returns (i: nat, j: nat)
    requires duration > 0 && kept == Filter(tape, InOf(first, end, start, duration)) && kept != []
    ensures Spans(tape, first, end, start, duration, i, j)
    ensures BarOf(start, kept).open == tape[i].price && BarOf(start, kept).close == tape[j].price
  {
    var keep := InOf(first, end, start, duration);
    i, j := FirstAndLast(tape, keep);
    forall k | 0 <= k < |tape| && In(tape[k], first, end, start, duration)
      ensures i <= k <= j
    {
      assert keep(tape[k]);
    }
  }

  lemma BoundsAreReached(tape: seq<Trade>, first: int, end: int, start: int, duration: int, kept: seq<Trade>)
    requires duration > 0 && kept == Filter(tape, InOf(first, end, start, duration)) && kept != []
    ensures forall k :: 0 <= k < |tape| && In(tape[k], first, end, start, duration) ==>
              BarOf(start, kept).low <= tape[k].price <= BarOf(start, kept).high
    ensures exists k :: 0 <= k < |tape| && In(tape[k], first, end, start, duration) && tape[k].price == BarOf(start, kept).high
    ensures exists k :: 0 <= k < |tape| && In(tape[k], first, end, start, duration) && tape[k].price == BarOf(start, kept).low
  {
    var keep := InOf(first, end, start, duration);
    forall k | 0 <= k < |tape| && In(tape[k], first, end, start, duration)
      ensures BarOf(start, kept).low <= tape[k].price <= BarOf(start, kept).high
    {
      FilterMembers(tape, keep, tape[k]);
      var n :| 0 <= n < |kept| && kept[n] == tape[k];
    }
    var h :| 0 <= h < |kept| && kept[h].price == Highest(kept);
    var l :| 0 <= l < |kept| && kept[l].price == Lowest(kept);
    var high := KeptIsOnTape(tape, keep, kept[h]);
    var low := KeptIsOnTape(tape, keep, kept[l]);
  }

  lemma KeptBarDescribes(tape: seq<Trade>, first: int, end: int, start: int, duration: int, kept: seq<Trade>)
    requires duration > 0 && kept == Filter(tape, InOf(first, end, start, duration)) && kept != []
    ensures Describes(tape, first, end, duration, BarOf(start, kept))
  {
    var i, j := OpensAndCloses(tape, first, end, start, duration, kept);
    BoundsAreReached(tape, first, end, start, duration, kept);
    FilteredQuantity(tape, first, end, start, duration);
  }

  lemma PickedIsKept(tape: seq<Trade>, first: int, end: int, start: int, duration: int)
    requires duration > 0
    ensures Pick(Page(tape, first, end), start, duration) == Filter(tape, InOf(first, end, start, duration))
  {
    FilterTwice(tape, Between(first, end), InBucket(start, duration), InOf(first, end, start, duration));
  }

  /** Every row of one pass describes the tape, and every trade read has its row. */
  lemma BarsDescribe(tape: seq<Trade>, first: int, end: int, duration: int)
    requires duration > 0
    ensures var rows := BarsOf(Page(tape, first, end), duration);
            && (forall r :: 0 <= r < |rows| ==> Describes(tape, first, end, duration, rows[r]))
            && (forall k :: 0 <= k < |tape| && first <= tape[k].us < end ==>
                  exists r :: 0 <= r < |rows| && rows[r].start == Bucket(tape[k].us, duration))
  {
    var page := Page(tape, first, end);
    var starts, rows := SortedKeys(page, duration), BarsOf(page, duration);
    forall r | 0 <= r < |rows|
      ensures Describes(tape, first, end, duration, rows[r])
    {
      assert starts[r] in Keys(page, duration);
      KeysPick(page, starts[r], duration);
      PickedIsKept(tape, first, end, starts[r], duration);
      KeptBarDescribes(tape, first, end, starts[r], duration, Pick(page, starts[r], duration));
    }
    forall k | 0 <= k < |tape| && first <= tape[k].us < end
      ensures exists r :: 0 <= r < |rows| && rows[r].start == Bucket(tape[k].us, duration)
    {
      FilterMembers(tape, Between(first, end), tape[k]);
      var n :| 0 <= n < |page| && page[n] == tape[k];
      TradeHasKey(page, n, duration);
      var r :| 0 <= r < |starts| && starts[r] == Bucket(tape[k].us, duration);
      assert rows[r].start == starts[r];
    }
  }

  /** Main result. Read page by page from the aligned cursor, every row describes the tape between the
      aligned start and the end, every trade there has its row, and there is one row to a bucket. */
  lemma AggregateDescribes(tape: seq<Trade>, seconds: int, start: nat, end: nat)
    requires TimeOrdered(tape) && seconds > 0 && 3600 % seconds == 0
    ensures var duration := seconds * 1000;
            var first := FirstCursor(start, duration);
            var rows := Paged(tape, duration, first, end);
            && (forall r :: 0 <= r < |rows| ==> Describes(tape, first, end, duration, rows[r]))
            && (forall k :: 0 <= k < |tape| && first <= tape[k].us < end ==>
                  exists r :: 0 <= r < |rows| && rows[r].start == Bucket(tape[k].us, duration))
            && StrictlyAscending(rows)
  {
    AggregateIsOnePass(tape, seconds, start, end);
    BarsDescribe(tape, FirstCursor(start, seconds * 1000), end, seconds * 1000);
  }

  /** The aligned start is the start of the bucket the first trade falls in, so no trade from it on is
      left out. */
  lemma CursorIsAtOrBefore(start: nat, duration: int)
    requires duration > 0
    ensures 0 <= FirstCursor(start, duration) <= start < FirstCursor(start, duration) + duration * 1000
  {
    BucketIs(start, duration);
  }
}
