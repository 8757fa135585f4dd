/** Sub-minute bars from the trade tape, read page by page.

    Trade times are microseconds since the epoch; the tape is in the order the query returns it. */
module TapeBars {
  import opened Common
  import opened Arithmetic
  import opened Sequences

  datatype Trade = Trade(us: nat, price: real, quantity: real)

  datatype Bar = Bar(start: int, open: real, high: real, low: real, close: real, volume: real)

  const PAGE_US := 3_600_000_000

  predicate TimeOrdered(tape: seq<Trade>) {
    forall i, j :: 0 <= i < j < |tape| ==> tape[i].us <= tape[j].us
  }

  /** The open time, in milliseconds, of the bucket a microsecond falls in. */
  function Bucket(us: nat, duration: int): int
    requires duration > 0
  {
    us / 1000 / duration * duration
  }

  function InBucket(start: int, duration: int): Trade -> bool
    requires duration > 0
  {
    (t: Trade) => Bucket(t.us, duration) == start
  }

  function Between(low: int, high: int): Trade -> bool { (t: Trade) => low <= t.us < high }

  // ---- One bar ----

  function Highest(trades: seq<Trade>): (r: real)
    requires trades != []
    ensures forall i :: 0 <= i < |trades| ==> trades[i].price <= r
    ensures exists i :: 0 <= i < |trades| && trades[i].price == r
  {
    if |trades| == 1 then trades[0].price
    else Max(Highest(trades[..|trades| - 1]), trades[|trades| - 1].price)
  }

  function Lowest(trades: seq<Trade>): (r: real)
    requires trades != []
    ensures forall i :: 0 <= i < |trades| ==> trades[i].price >= r
    ensures exists i :: 0 <= i < |trades| && trades[i].price == r
  {
    if |trades| == 1 then trades[0].price
    else Min(Lowest(trades[..|trades| - 1]), trades[|trades| - 1].price)
  }

  function Traded(trades: seq<Trade>): real {
    if trades == [] then 0.0 else Traded(trades[..|trades| - 1]) + trades[|trades| - 1].quantity
  }

  function BarOf(start: int, trades: seq<Trade>): Bar
    requires trades != []
  {
    Bar(start, trades[0].price, Highest(trades), Lowest(trades), trades[|trades| - 1].price, Traded(trades))
  }

  // ---- Bars of a stretch of tape, in one pass ----

  function Self(x: int): int { x }

  /** The buckets that traded, in order of first trade: the keys of an insertion-ordered dictionary. */
  function Keys(trades: seq<Trade>, duration: int): seq<int>
    requires duration > 0
  {
    if trades == [] then []
    else
      var keys := Keys(trades[..|trades| - 1], duration);
      var key := Bucket(trades[|trades| - 1].us, duration);
      if key in keys then keys else keys + [key]
  }

  function Pick(trades: seq<Trade>, start: int, duration: int): seq<Trade>
    requires duration > 0
  {
    Filter(trades, InBucket(start, duration))
  }

  lemma {:induction false} KeysAreDistinct(trades: seq<Trade>, duration: int)
    requires duration > 0
    ensures Distinct(Keys(trades, duration))
  {
    if trades != [] {
      KeysAreDistinct(trades[..|trades| - 1], duration);
    }
  }

  lemma {:induction false} KeysPick(trades: seq<Trade>, x: int, duration: int)
    requires duration > 0
    ensures x in Keys(trades, duration) <==> Pick(trades, x, duration) != []
  {
    if trades != [] {
      KeysPick(trades[..|trades| - 1], x, duration);
    }
  }

  lemma KeyHasTrade(trades: seq<Trade>, x: int, duration: int)
    requires duration > 0 && x in Keys(trades, duration)
    ensures exists i :: 0 <= i < |trades| && Bucket(trades[i].us, duration) == x
  {
    KeysPick(trades, x, duration);
    var t := Pick(trades, x, duration)[0];
    FilterMembers(trades, InBucket(x, duration), t);
  }

  lemma TradeHasKey(trades: seq<Trade>, i: nat, duration: int)
    requires duration > 0 && i < |trades|
    ensures Bucket(trades[i].us, duration) in Keys(trades, duration)
  {
    var x := Bucket(trades[i].us, duration);
    FilterMembers(trades, InBucket(x, duration), trades[i]);
    KeysPick(trades, x, duration);
  }

  /** The keys are the distinct buckets of the trades. */
  lemma {:induction false} KeysAreTheBuckets(trades: seq<Trade>, duration: int)
    requires duration > 0
    ensures Distinct(Keys(trades, duration))
    ensures forall x :: x in Keys(trades, duration) <==> Pick(trades, x, duration) != []
    ensures forall i :: 0 <= i < |trades| ==> Bucket(trades[i].us, duration) in Keys(trades, duration)
    ensures forall x :: x in Keys(trades, duration) ==> exists i :: 0 <= i < |trades| && Bucket(trades[i].us, duration) == x
  {
    KeysAreDistinct(trades, duration);
    forall x
      ensures x in Keys(trades, duration) <==> Pick(trades, x, duration) != []
    {
      KeysPick(trades, x, duration);
    }
    forall i | 0 <= i < |trades|
      ensures Bucket(trades[i].us, duration) in Keys(trades, duration)
    {
      TradeHasKey(trades, i, duration);
    }
    forall x | x in Keys(trades, duration)
      ensures exists i :: 0 <= i < |trades| && Bucket(trades[i].us, duration) == x
    {
      KeyHasTrade(trades, x, duration);
    }
  }

  function BarAt(trades: seq<Trade>, start: int, duration: int): Bar
    requires duration > 0 && start in Keys(trades, duration)
  {
    KeysAreTheBuckets(trades, duration);
    BarOf(start, Pick(trades, start, duration))
  }

  function BarsAt(trades: seq<Trade>, starts: seq<int>, duration: int): seq<Bar>
    requires duration > 0 && forall x :: x in starts ==> x in Keys(trades, duration)
  {
    seq(|starts|, i requires 0 <= i < |starts| => BarAt(trades, starts[i], duration))
  }

  function SortedKeys(trades: seq<Trade>, duration: int): (r: seq<int>)
    requires duration > 0
    ensures forall x :: x in r <==> x in Keys(trades, duration)
  {
    var keys := Keys(trades, duration);
    assert forall x :: x in Sorted(keys, Self) <==> x in keys by {
      forall x
        ensures x in Sorted(keys, Self) <==> x in keys
      {
        SortedMembers(keys, Self, x);
      }
    }
    Sorted(keys, Self)
  }

  /** The reference definition: one bar per bucket that traded, in ascending order of start. */
  function BarsOf(trades: seq<Trade>, duration: int): seq<Bar>
    requires duration > 0
  {
    BarsAt(trades, SortedKeys(trades, duration), duration)
  }

  predicate StrictlyAscending(rows: seq<Bar>) {
    forall i, j :: 0 <= i < j < |rows| ==> rows[i].start < rows[j].start
  }

  lemma KeysAscendStrictly(keys: seq<int>)
    requires Distinct(keys)
    ensures forall i, j :: 0 <= i < j < |Sorted(keys, Self)| ==> Sorted(keys, Self)[i] < Sorted(keys, Self)[j]
  {
    var starts := Sorted(keys, Self);
    SortedIsOrdered(keys, Self);
    SortedIsDistinct(keys, Self);
    forall i, j | 0 <= i < j < |starts|
      ensures starts[i] < starts[j]
    {
      assert Self(starts[i]) <= Self(starts[j]);
    }
  }

  lemma BarsAreAscending(trades: seq<Trade>, duration: int)
    requires duration > 0
    ensures StrictlyAscending(BarsOf(trades, duration))
  {
    KeysAreTheBuckets(trades, duration);
    KeysAscendStrictly(Keys(trades, duration));
  }

  /** No bucket of `a` is at or past a bucket of `b`. */
  predicate BucketsPrecede(a: seq<Trade>, b: seq<Trade>, duration: int)
    requires duration > 0
  {
    forall i, j :: 0 <= i < |a| && 0 <= j < |b| ==> Bucket(a[i].us, duration) < Bucket(b[j].us, duration)
  }

  lemma {:induction false} KeysPrecede(a: seq<Trade>, b: seq<Trade>, duration: int)
    requires duration > 0 && BucketsPrecede(a, b, duration)
    ensures forall x, y :: x in Keys(a, duration) && y in Keys(b, duration) ==> x < y
  {
    KeysAreTheBuckets(a, duration);
    KeysAreTheBuckets(b, duration);
  }

  lemma {:induction false} KeysSplit(a: seq<Trade>, b: seq<Trade>, duration: int)
    requires duration > 0 && forall x :: x in Keys(a, duration) ==> x !in Keys(b, duration)
    ensures Keys(a + b, duration) == Keys(a, duration) + Keys(b, duration)
  {
    if b == [] {
      assert a + b == a;
    } else {
      var front := b[..|b| - 1];
      assert (a + b)[..|a + b| - 1] == a + front;
      KeysAreTheBuckets(b, duration);
      KeysSplit(a, front, duration);
    }
  }

  lemma PickSplits(a: seq<Trade>, b: seq<Trade>, start: int, duration: int)
    requires duration > 0
    ensures start !in Keys(b, duration) ==> Pick(a + b, start, duration) == Pick(a, start, duration)
    ensures start !in Keys(a, duration) ==> Pick(a + b, start, duration) == Pick(b, start, duration)
  {
    FilterConcat(a, b, InBucket(start, duration));
    KeysAreTheBuckets(a, duration);
    KeysAreTheBuckets(b, duration);
  }

  /** Bars over part of the keys, when the rest of the trades are in other buckets. */
  lemma BarsAtLeft(a: seq<Trade>, b: seq<Trade>, starts: seq<int>, duration: int)
    requires duration > 0 && Keys(a + b, duration) == Keys(a, duration) + Keys(b, duration)
    requires forall x :: x in starts ==> x in Keys(a, duration) && x !in Keys(b, duration)
    ensures BarsAt(a + b, starts, duration) == BarsAt(a, starts, duration)
  {
    forall i | 0 <= i < |starts|
      ensures BarAt(a + b, starts[i], duration) == BarAt(a, starts[i], duration)
    {
      PickSplits(a, b, starts[i], duration);
    }
  }

  lemma BarsAtRight(a: seq<Trade>, b: seq<Trade>, starts: seq<int>, duration: int)
    requires duration > 0 && Keys(a + b, duration) == Keys(a, duration) + Keys(b, duration)
    requires forall x :: x in starts ==> x in Keys(b, duration) && x !in Keys(a, duration)
    ensures BarsAt(a + b, starts, duration) == BarsAt(b, starts, duration)
  {
    forall i | 0 <= i < |starts|
      ensures BarAt(a + b, starts[i], duration) == BarAt(b, starts[i], duration)
    {
      PickSplits(a, b, starts[i], duration);
    }
  }

  lemma BarsAtConcat(trades: seq<Trade>, s: seq<int>, t: seq<int>, duration: int)
    requires duration > 0 && forall x :: x in s + t ==> x in Keys(trades, duration)
    ensures forall x :: x in s ==> x in Keys(trades, duration)
    ensures forall x :: x in t ==> x in Keys(trades, duration)
    ensures BarsAt(trades, s + t, duration) == BarsAt(trades, s, duration) + BarsAt(trades, t, duration)
  {
    assert forall x :: x in s ==> x in s + t;
    assert forall x :: x in t ==> x in s + t;
  }

  /** Two stretches of tape whose buckets do not interleave give their bars one after the other. */
  lemma BarsSplit(a: seq<Trade>, b: seq<Trade>, duration: int)
    requires duration > 0 && BucketsPrecede(a, b, duration)
    ensures BarsOf(a + b, duration) == BarsOf(a, duration) + BarsOf(b, duration)
  {
    KeysPrecede(a, b, duration);
    KeysSplit(a, b, duration);
    SortedSplits(Keys(a, duration), Keys(b, duration), Self);
    var sa, sb := SortedKeys(a, duration), SortedKeys(b, duration);
    BarsAtLeft(a, b, sa, duration);
    BarsAtRight(a, b, sb, duration);
    BarsAtConcat(a + b, sa, sb, duration);
  }

  // ---- Paging ----

  /** The rows a page query returns. */
  function Page(tape: seq<Trade>, low: int, high: int): seq<Trade> { Filter(tape, Between(low, high)) }

  /** The bars of every page from a cursor to the end, page after page. */
  function Paged(tape: seq<Trade>, duration: int, cursor: int, end: int): seq<Bar>
    requires duration > 0
    decreases end - cursor
  {
    if cursor >= end then []
    else
      var stop := if cursor + PAGE_US <= end then cursor + PAGE_US else end;
      BarsOf(Page(tape, cursor, stop), duration) + Paged(tape, duration, stop, end)
  }

  /** The first cursor: the start of the bucket the first trade falls in, in microseconds. */
  function FirstCursor(start: nat, duration: int): int
    requires duration > 0
  {
    Bucket(start, duration) * 1000
  }

  /** On an ordered tape, adjacent pages join into one. */
  lemma {:induction false} PagesJoin(tape: seq<Trade>, low: int, middle: int, high: int)
    requires TimeOrdered(tape) && low <= middle <= high
    ensures Page(tape, low, high) == Page(tape, low, middle) + Page(tape, middle, high)
  {
    if tape != [] {
      var front, last := tape[..|tape| - 1], tape[|tape| - 1];
      PagesJoin(front, low, middle, high);
      if last.us < middle {
        forall t | t in front
          ensures t.us < middle
        {
          var i :| 0 <= i < |front| && front[i] == t;
          assert tape[i].us <= tape[|tape| - 1].us;
        }
        FilterNone(front, Between(middle, high));
      }
    }
  }

  lemma PageBounds(tape: seq<Trade>, low: int, high: int)
    ensures forall i :: 0 <= i < |Page(tape, low, high)| ==> low <= Page(tape, low, high)[i].us < high
  {
    forall i | 0 <= i < |Page(tape, low, high)|
      ensures low <= Page(tape, low, high)[i].us < high
    {
      FilterMembers(tape, Between(low, high), Page(tape, low, high)[i]);
    }
  }

  /** A page boundary on a bucket boundary: earlier trades are in strictly earlier buckets. */
  lemma BoundarySplitsBuckets(early: nat, late: nat, duration: int, n: int)
    requires duration > 0 && early < n * duration * 1000 <= late
    ensures Bucket(early, duration) < n * duration <= Bucket(late, duration)
  {
    var e, l := early / 1000, late / 1000;
    assert e < n * duration <= l;
    QuotientBelow(e, duration, n);
    QuotientAtLeast(l, duration, n);
  }

  lemma QuotientBelow(x: int, d: int, n: int)
    requires d > 0 && x < n * d
    ensures x / d * d < n * d
  {
  }

  lemma QuotientAtLeast(x: int, d: int, n: int)
    requires d > 0 && n * d <= x
    ensures n * d <= x / d * d
  {
    var q := x / d;
    assert q * d + x % d == x;
    if q < n {
      MulAtMost(q + 1, n, d);
    } else {
      MulAtMost(n, q, d);
    }
  }

  lemma BarsOfNothing(duration: int)
    requires duration > 0
    ensures BarsOf([], duration) == []
  {
  }

  lemma NextBoundary(n: int, pages: int, unit: int)
    ensures n * unit + pages * unit == (n + pages) * unit
  {
  }

  /** Pages cut on a bucket boundary keep every bucket whole. */
  lemma BoundaryPagesPrecede(tape: seq<Trade>, low: int, n: int, high: int, duration: int)
    requires duration > 0
    ensures BucketsPrecede(Page(tape, low, n * duration * 1000), Page(tape, n * duration * 1000, high), duration)
  {
    var stop := n * duration * 1000;
    var a, b := Page(tape, low, stop), Page(tape, stop, high);
    PageBounds(tape, low, stop);
    PageBounds(tape, stop, high);
    forall i, j | 0 <= i < |a| && 0 <= j < |b|
      ensures Bucket(a[i].us, duration) < Bucket(b[j].us, duration)
    {
      BoundarySplitsBuckets(a[i].us, b[j].us, duration, n);
    }
  }

  /** A page that stops on a bucket boundary gives its own bars, and the rest of the tape the rest. */
  lemma OnePageOff(tape: seq<Trade>, duration: int, cursor: int, n: int, stop: int, end: int)
    requires TimeOrdered(tape) && duration > 0 && stop == n * (duration * 1000) && cursor <= stop <= end
    ensures BarsOf(Page(tape, cursor, end), duration)
            == BarsOf(Page(tape, cursor, stop), duration) + BarsOf(Page(tape, stop, end), duration)
  {
    PagesJoin(tape, cursor, stop, end);
    assert stop == n * duration * 1000;
    BoundaryPagesPrecede(tape, cursor, n, end, duration);
    BarsSplit(Page(tape, cursor, stop), Page(tape, stop, end), duration);
  }

  /** With a page a whole number of buckets and the cursor on a boundary, paging changes nothing. */
  lemma {:induction false} PagedIsOnePass(
      tape: seq<Trade>, duration: int, pages: int, n: int, cursor: int, end: int)
    requires TimeOrdered(tape) && duration > 0 && PAGE_US == pages * (duration * 1000)
    requires cursor == n * (duration * 1000) && cursor <= end
    ensures Paged(tape, duration, cursor, end) == BarsOf(Page(tape, cursor, end), duration)
    decreases end - cursor
  {
    if cursor == end {
      FilterNone(tape, Between(cursor, end));
      BarsOfNothing(duration);
    } else if cursor + PAGE_US <= end {
      var stop := cursor + PAGE_US;
      NextBoundary(n, pages, duration * 1000);
      PagedIsOnePass(tape, duration, pages, n + pages, stop, end);
      OnePageOff(tape, duration, cursor, n + pages, stop, end);
    } else {
      assert Paged(tape, duration, end, end) == [];
    }
  }

  // ---- Conservation ----

  function VolumeOf(rows: seq<Bar>): real {
    if rows == [] then 0.0 else VolumeOf(rows[..|rows| - 1]) + rows[|rows| - 1].volume
  }

  function PickedTotal(trades: seq<Trade>, keys: seq<int>, duration: int): real
    requires duration > 0
  {
    if keys == [] then 0.0
    else PickedTotal(trades, keys[..|keys| - 1], duration) + Traded(Pick(trades, keys[|keys| - 1], duration))
  }

  lemma {:induction false} OneMoreTrade(trades: seq<Trade>, t: Trade, keys: seq<int>, duration: int)
    requires duration > 0 && Distinct(keys)
    ensures PickedTotal(trades + [t], keys, duration)
            == PickedTotal(trades, keys, duration) + if Bucket(t.us, duration) in keys then t.quantity else 0.0
  {
    if keys != [] {
      var front, last := keys[..|keys| - 1], keys[|keys| - 1];
      assert keys == front + [last];
      assert last !in front;
      OneMoreTrade(trades, t, front, duration);
      PickAppend(trades, t, last, duration);
    }
  }

  lemma PickAppend(trades: seq<Trade>, t: Trade, key: int, duration: int)
    requires duration > 0
    ensures Traded(Pick(trades + [t], key, duration))
            == Traded(Pick(trades, key, duration)) + if Bucket(t.us, duration) == key then t.quantity else 0.0
  {
    assert (trades + [t])[..|trades|] == trades;
    var picked := Pick(trades, key, duration);
    if Bucket(t.us, duration) == key {
      assert Pick(trades + [t], key, duration) == picked + [t];
      assert (picked + [t])[..|picked + [t]| - 1] == picked;
    } else {
      assert Pick(trades + [t], key, duration) == picked + [] == picked;
    }
  }

  lemma {:induction false} PickedTotalOfNothing(keys: seq<int>, duration: int)
    requires duration > 0
    ensures PickedTotal([], keys, duration) == 0.0
  {
    if keys != [] {
      PickedTotalOfNothing(keys[..|keys| - 1], duration);
    }
  }

  lemma {:induction false} PickedTotalIsAll(trades: seq<Trade>, keys: seq<int>, duration: int)
    requires duration > 0 && Distinct(keys)
    requires forall i :: 0 <= i < |trades| ==> Bucket(trades[i].us, duration) in keys
    ensures PickedTotal(trades, keys, duration) == Traded(trades)
  {
    if trades == [] {
      PickedTotalOfNothing(keys, duration);
    } else {
      var front, last := trades[..|trades| - 1], trades[|trades| - 1];
      PickedTotalIsAll(front, keys, duration);
      OneMoreTrade(front, last, keys, duration);
      assert trades == front + [last];
    }
  }

  lemma {:induction false} BarsCarryThePickedTotal(trades: seq<Trade>, keys: seq<int>, duration: int)
    requires duration > 0 && forall x :: x in keys ==> x in Keys(trades, duration)
    ensures VolumeOf(BarsAt(trades, keys, duration)) == PickedTotal(trades, keys, duration)
  {
    if keys != [] {
      var front := keys[..|keys| - 1];
      BarsCarryThePickedTotal(trades, front, duration);
      assert BarsAt(trades, keys, duration)[..|keys| - 1] == BarsAt(trades, front, duration);
    }
  }

  /** Every unit traded is in exactly one bar. */
  lemma {:induction false} VolumeIsConserved(trades: seq<Trade>, duration: int)
    requires duration > 0
    ensures VolumeOf(BarsOf(trades, duration)) == Traded(trades)
  {
    var keys := Keys(trades, duration);
    KeysAreTheBuckets(trades, duration);
    SortedIsDistinct(keys, Self);
    PickedTotalIsAll(trades, SortedKeys(trades, duration), duration);
    BarsCarryThePickedTotal(trades, SortedKeys(trades, duration), duration);
  }

  // ---- The aggregation as it is written ----

  /** Fill a dictionary of buckets; `keys` is its insertion order. */
  method FillBuckets(trades: seq<Trade>, duration: int) returns (keys: seq<int>, buckets: map<int, seq<Trade>>)
    requires duration > 0
    ensures keys == Keys(trades, duration)
    ensures forall k :: k in keys ==> k in buckets && buckets[k] == Pick(trades, k, duration)
  {
    keys, buckets := [], map[];
    for i := 0 to |trades|
      invariant keys == Keys(trades[..i], duration)
      invariant forall k :: k in buckets <==> k in keys
      invariant forall k :: k in buckets ==> buckets[k] == Pick(trades[..i], k, duration)
    {
      assert trades[..i + 1][..i] == trades[..i];
      KeysAreTheBuckets(trades[..i], duration);
      var start := Bucket(trades[i].us, duration);
      if start in buckets {
        buckets := buckets[start := buckets[start] + [trades[i]]];
      } else {
        keys := keys + [start];
        buckets := buckets[start := [trades[i]]];
      }
    }
    assert trades[..|trades|] == trades;
  }

  /** Emit one bar per bucket, in order of start. */
  method EmitBars(trades: seq<Trade>, duration: int, starts: seq<int>, buckets: map<int, seq<Trade>>)
    returns (rows: seq<Bar>)
    requires duration > 0 && forall x :: x in starts ==> x in Keys(trades, duration)
    requires forall x :: x in starts ==> x in buckets && buckets[x] == Pick(trades, x, duration)
    ensures rows == BarsAt(trades, starts, duration)
  {
    KeysAreTheBuckets(trades, duration);
    rows := [];
    for i := 0 to |starts|
      invariant |rows| == i && forall j :: 0 <= j < i ==> rows[j] == BarAt(trades, starts[j], duration)
    {
      assert starts[i] in starts;
      rows := rows + [BarOf(starts[i], buckets[starts[i]])];
    }
  }

  /** One page: fill the buckets, then emit them sorted. */
  method PageBars(trades: seq<Trade>, duration: int) returns (rows: seq<Bar>)
    requires duration > 0
    ensures rows == BarsOf(trades, duration)
  {
    var keys, buckets := FillBuckets(trades, duration);
    var starts := Sorted(keys, Self);
    assert starts == SortedKeys(trades, duration);
    rows := EmitBars(trades, duration, starts, buckets);
  }

  datatype AggregateError = PagingMisaligned

  /** One turn of the loop: the bars of one page, and where the next begins. */
  method ReadPage(tape: seq<Trade>, duration: int, cursor: int, end: int) returns (page: seq<Bar>, stop: int)
    requires duration > 0 && cursor < end
    ensures cursor < stop <= end
    ensures Paged(tape, duration, cursor, end) == page + Paged(tape, duration, stop, end)
  {
    stop := if cursor + PAGE_US <= end then cursor + PAGE_US else end;
    page := PageBars(Page(tape, cursor, stop), duration);
  }

  lemma Regroup(a: seq<Bar>, b: seq<Bar>, c: seq<Bar>)
    ensures (a + b) + c == a + (b + c)
  {
  }

  /** The loop over the pages. */
  method ReadPages(tape: seq<Trade>, duration: int, first: int, end: int) returns (rows: seq<Bar>)
    requires duration > 0
    ensures rows == Paged(tape, duration, first, end)
  {
    var cursor := first;
    rows := [];
    while cursor < end
      invariant rows + Paged(tape, duration, cursor, end) == Paged(tape, duration, first, end)
      decreases end - cursor
    {
      var page, stop := ReadPage(tape, duration, cursor, end);
      Regroup(rows, page, Paged(tape, duration, stop, end));
      rows := rows + page;
      cursor := stop;
    }
    assert rows + [] == rows;
  }

  /** Page by page from the aligned cursor, then the check that starts ascend. */
  method Aggregate(tape: seq<Trade>, seconds: int, start: nat, end: nat)
    returns (r: Result<seq<Bar>, AggregateError>)
    requires seconds > 0
    ensures var all := Paged(tape, seconds * 1000, FirstCursor(start, seconds * 1000), end);
            r == if StrictlyAscending(all) then Ok(all) else Err(PagingMisaligned)
  {
    var rows := ReadPages(tape, seconds * 1000, FirstCursor(start, seconds * 1000), end);
    var ascending := CheckAscending(rows);
    r := if ascending then Ok(rows) else Err(PagingMisaligned);
  }

  /** The pairwise scan over neighbouring starts. */
  method CheckAscending(rows: seq<Bar>) returns (ok: bool)
    ensures ok <==> StrictlyAscending(rows)
  {
    for i := 0 to |rows|
      invariant StrictlyAscending(rows[..i])
    {
      if i > 0 && rows[i].start <= rows[i - 1].start {
        return false;
      }
      assert forall j :: 0 <= j < i ==> rows[..i][j] == rows[j];
      assert i > 0 ==> forall j :: 0 <= j < i ==> rows[j].start <= rows[i - 1].start;
    }
    assert rows[..|rows|] == rows;
    return true;
  }

  // ---- Main results ----

  /** Main result. When the bucket length divides an hour, which every length that divides a minute
      does, paging yields exactly the bars of one pass over [aligned start, end), conserves the
      traded volume and keeps starts strictly ascending, so the misaligned exit is never taken. */
  lemma {:induction false} AggregateIsOnePass(tape: seq<Trade>, seconds: int, start: nat, end: nat)
    requires TimeOrdered(tape) && seconds > 0 && 3600 % seconds == 0
    ensures var first := FirstCursor(start, seconds * 1000);
            var all := Paged(tape, seconds * 1000, first, end);
            && all == BarsOf(Page(tape, first, end), seconds * 1000)
            && VolumeOf(all) == Traded(Page(tape, first, end))
            && StrictlyAscending(all)
  {
    var duration := seconds * 1000;
    var first := FirstCursor(start, duration);
    if first <= end {
      PageIsWholeBuckets(seconds);
      CursorIsAligned(start, duration);
      PagedIsOnePass(tape, duration, 3600 / seconds, start / 1000 / duration, first, end);
    } else {
      FilterNone(tape, Between(first, end));
      BarsOfNothing(duration);
    }
    BarsAreAscending(Page(tape, first, end), duration);
    VolumeIsConserved(Page(tape, first, end), duration);
  }

  lemma PageIsWholeBuckets(seconds: int)
    requires seconds > 0 && 3600 % seconds == 0
    ensures PAGE_US == (3600 / seconds) * (seconds * 1000 * 1000)
  {
    var k := 3600 / seconds;
    assert k * seconds == 3600;
    assert k * (seconds * 1000 * 1000) == k * seconds * 1000000;
  }

  lemma CursorIsAligned(start: nat, duration: int)
    requires duration > 0
    ensures FirstCursor(start, duration) == (start / 1000 / duration) * (duration * 1000)
  {
    var q := start / 1000 / duration;
    assert q * duration * 1000 == q * (duration * 1000);
  }

  lemma MinuteDividesHour(seconds: int)
    requires seconds > 0 && 60 % seconds == 0
    ensures 3600 % seconds == 0
  {
    var k := 60 / seconds;
    assert 60 == k * seconds;
    assert 3600 == (60 * k) * seconds;
    RemainderOfMultiple(60 * k, seconds);
  }

  lemma RemainderOfMultiple(k: int, d: int)
    requires d > 0
    ensures k * d % d == 0
  {
    var r := k * d % d;
    var q := k * d / d;
    assert k * d == q * d + r;
    assert (k - q) * d == r;
    if k - q >= 1 {
      MulAtMost(1, k - q, d);
    } else if k - q <= -1 {
      MulAtMost(k - q, -1, d);
    }
  }

  // ---- When the misaligned exit can be taken ----

  lemma QuotientIs(x: int, d: int, n: int)
    requires d > 0 && n * d <= x < (n + 1) * d
    ensures x / d == n
  {
    var q := x / d;
    assert q * d <= x < q * d + d;
    if q < n {
      MulAtMost(q + 1, n, d);
    } else if q > n {
      MulAtMost(n + 1, q, d);
    }
  }

  lemma BarOfOneTrade(t: Trade, duration: int)
    requires duration > 0
    ensures |BarsOf([t], duration)| == 1 && BarsOf([t], duration)[0].start == Bucket(t.us, duration)
  {
    assert [t][..0] == [];
    assert Keys([t][..0], duration) == [];
    assert Keys([t], duration) == [Bucket(t.us, duration)];
    var keys := [Bucket(t.us, duration)];
    assert keys[..0] == [];
    assert Sorted(keys[..0], Self) == [];
    assert Sorted(keys, Self) == keys;
  }

  lemma PageOfTwo(a: Trade, b: Trade, low: int, high: int)
    ensures Page([a, b], low, high)
            == (if low <= a.us < high then [a] else []) + (if low <= b.us < high then [b] else [])
  {
    assert [a, b][..1] == [a];
    assert [a][..0] == [];
    assert Filter([a][..0], Between(low, high)) == [];
    assert Filter([a], Between(low, high)) == if low <= a.us < high then [a] else [];
  }

  /** A moment before the first page boundary whose bucket straddles that boundary. */
  lemma {:induction false} StraddlingMoment(seconds: int) returns (early: nat)
    requires seconds > 0 && 3600 % seconds != 0
    ensures early < PAGE_US && Bucket(early, seconds * 1000) == Bucket(PAGE_US, seconds * 1000)
  {
    var k, duration := 3600 / seconds, seconds * 1000;
    assert k * seconds + 3600 % seconds == 3600 && 0 < 3600 % seconds < seconds;
    early := k * seconds * 1000000;
    assert early / 1000 == k * seconds * 1000;
    assert k * duration == k * seconds * 1000;
    assert (k + 1) * duration == k * duration + duration;
    QuotientIs(early / 1000, duration, k);
    assert PAGE_US / 1000 == 3600000;
    QuotientIs(3600000, duration, k);
  }

  lemma CursorAtEpoch(duration: int)
    requires duration > 0
    ensures FirstCursor(0, duration) == 0
  {
    QuotientIs(0, duration, 0);
  }

  /** The exit is taken on some tape exactly when the bucket length does not divide an hour. */
  lemma MisalignedExitIff(seconds: int)
    requires seconds > 0
    ensures 3600 % seconds == 0 <==>
              forall tape: seq<Trade>, start: nat, end: nat :: TimeOrdered(tape) ==>
                StrictlyAscending(Paged(tape, seconds * 1000, FirstCursor(start, seconds * 1000), end))
  {
    if 3600 % seconds == 0 {
      forall tape: seq<Trade>, start: nat, end: nat | TimeOrdered(tape)
        ensures StrictlyAscending(Paged(tape, seconds * 1000, FirstCursor(start, seconds * 1000), end))
      {
        AggregateIsOnePass(tape, seconds, start, end);
      }
    } else {
      var tape, start, end := MisalignedTape(seconds);
      assert TimeOrdered(tape)
             && !StrictlyAscending(Paged(tape, seconds * 1000, FirstCursor(start, seconds * 1000), end));
    }
  }

  lemma {:induction false} TwoPages(a: Trade, b: Trade, duration: int)
    requires duration > 0 && a.us < PAGE_US == b.us
    ensures Paged([a, b], duration, 0, PAGE_US + 1) == BarsOf([a], duration) + BarsOf([b], duration)
  {
    var tape, end := [a, b], PAGE_US + 1;
    PageOfTwo(a, b, 0, PAGE_US);
    PageOfTwo(a, b, PAGE_US, end);
    assert Page(tape, 0, PAGE_US) == [a] && Page(tape, PAGE_US, end) == [b];
    assert Paged(tape, duration, end, end) == [];
    assert Paged(tape, duration, PAGE_US, end) == BarsOf([b], duration);
  }

  lemma SameStartTwice(x: seq<Bar>, y: seq<Bar>)
    requires |x| == 1 && |y| == 1 && x[0].start == y[0].start
    ensures !StrictlyAscending(x + y)
  {
    var rows := x + y;
    assert rows[0] == x[0] && rows[1] == y[0];
  }

  lemma TwoTradesMisalign(a: Trade, b: Trade, duration: int)
    requires duration > 0 && a.us < PAGE_US == b.us && Bucket(a.us, duration) == Bucket(b.us, duration)
    ensures !StrictlyAscending(Paged([a, b], duration, 0, PAGE_US + 1))
  {
    TwoPages(a, b, duration);
    BarOfOneTrade(a, duration);
    BarOfOneTrade(b, duration);
    SameStartTwice(BarsOf([a], duration), BarsOf([b], duration));
  }

  lemma {:induction false} MisalignedTape(seconds: int) returns (tape: seq<Trade>, start: nat, end: nat)
    requires seconds > 0 && 3600 % seconds != 0
    ensures TimeOrdered(tape)
    ensures !StrictlyAscending(Paged(tape, seconds * 1000, FirstCursor(start, seconds * 1000), end))
  {
    var early := StraddlingMoment(seconds);
    var a, b := Trade(early, 1.0, 1.0), Trade(PAGE_US, 1.0, 1.0);
    tape, start, end := [a, b], 0, PAGE_US + 1;
    CursorAtEpoch(seconds * 1000);
    TwoTradesMisalign(a, b, seconds * 1000);
  }
}
