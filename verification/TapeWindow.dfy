/** The thirty-minute window before each entry, read from one pass over the trade archive.

    Entry times are whole microseconds and trade stamps whole milliseconds since the epoch. */
module TapeWindow {
  import opened Sequences

  datatype Trade = Trade(id: int, ms: int, price: real, quantity: real, buyerMaker: bool)

  datatype Entry = Entry(at: int, tag: int)

  /** What one entry was judged on. The verdict is a function of the window alone. */
  datatype Judgement = Judgement(entry: Entry, window: seq<Trade>)

  datatype Span = Span(start: int, end: int)

  const WINDOW_US := 1_800_000_000

  /** Whole milliseconds, truncated toward zero. */
  function Ms(us: int): int { if us >= 0 then us / 1000 else -((-us) / 1000) }

  predicate InWindow(t: Trade, at: int) { at - WINDOW_US <= t.ms * 1000 < at }

  function InWindowOf(at: int): Trade -> bool { (t: Trade) => InWindow(t, at) }

  function InWindowBefore(at: int, ms: int): Trade -> bool { (t: Trade) => InWindow(t, at) && t.ms < ms }

  /** The half-open window of a whole stream: the reference definition. */
  function WindowOf(rows: seq<Trade>, at: int): seq<Trade> { Filter(rows, InWindowOf(at)) }

  /** The same window cut before a stamp. */
  function WindowBefore(rows: seq<Trade>, at: int, ms: int): seq<Trade> { Filter(rows, InWindowBefore(at, ms)) }

  predicate TimeOrdered(rows: seq<Trade>) {
    forall i, j :: 0 <= i < j < |rows| ==> rows[i].ms <= rows[j].ms
  }

  function AtOf(e: Entry): int { e.at }

  // ---- Truncation to milliseconds ----

  lemma MsMonotone(a: int, b: int)
    requires a <= b
    ensures Ms(a) <= Ms(b)
  {
  }

  /** A stamp strictly before the truncated entry time is strictly before the entry. */
  lemma BeforeMsIsBefore(stamp: int, at: int)
    requires stamp < Ms(at)
    ensures stamp * 1000 < at
  {
  }

  /** A stamp inside a window is inside the millisecond span kept for it. */
  lemma WindowIsInsideSpan(t: Trade, at: int)
    requires InWindow(t, at)
    ensures Ms(at - WINDOW_US) <= t.ms <= Ms(at)
  {
  }

  /** The only trades a window holds past its whole millisecond carry that very stamp. */
  lemma PastTheMillisecond(t: Trade, at: int)
    ensures InWindow(t, at) && t.ms >= Ms(at) <==> at >= 0 && at % 1000 != 0 && t.ms == Ms(at)
  {
  }

  // ---- Spans ----

  /** The milliseconds an entry needs. */
  function NeedOf(e: Entry): Span { Span(Ms(e.at - WINDOW_US), Ms(e.at)) }

  predicate Disjoint(spans: seq<Span>) {
    && (forall k :: 0 <= k < |spans| ==> spans[k].start <= spans[k].end)
    && (forall j, k :: 0 <= j < k < |spans| ==> spans[j].end < spans[k].start)
  }

  predicate Within(need: Span, span: Span) { span.start <= need.start && need.end <= span.end }

  predicate Covers(spans: seq<Span>, need: Span) {
    exists k :: 0 <= k < |spans| && Within(need, spans[k])
  }

  /** Needs arrive with both ends ascending, as they do for entries sorted by time. */
  predicate Ascending(needs: seq<Span>) {
    && (forall i :: 0 <= i < |needs| ==> needs[i].start <= needs[i].end)
    && (forall i, j :: 0 <= i < j < |needs| ==> needs[i].start <= needs[j].start && needs[i].end <= needs[j].end)
  }

  /** One more need: lengthen the last span if it reaches it, else start a new one. */
  function Merge(spans: seq<Span>, need: Span): seq<Span> {
    if spans != [] && need.start <= spans[|spans| - 1].end then
      var last := spans[|spans| - 1];
      spans[|spans| - 1 := Span(last.start, if last.end >= need.end then last.end else need.end)]
    else spans + [need]
  }

  lemma MergeStaysDisjoint(spans: seq<Span>, need: Span)
    requires Disjoint(spans) && need.start <= need.end
    requires spans != [] ==> spans[|spans| - 1].start <= need.start && spans[|spans| - 1].end <= need.end
    ensures Disjoint(Merge(spans, need))
    ensures Merge(spans, need)[|Merge(spans, need)| - 1].end == need.end
    ensures Within(need, Merge(spans, need)[|Merge(spans, need)| - 1])
  {
    var merged := Merge(spans, need);
    if spans != [] && need.start > spans[|spans| - 1].end {
      forall j | 0 <= j < |spans|
        ensures spans[j].end < need.start
      {
        assert j < |spans| - 1 ==> spans[j].end < spans[|spans| - 1].start;
      }
    }
  }

  /** The spans merged from the needs so far. */
  predicate Merged(spans: seq<Span>, needs: seq<Span>) {
    && Disjoint(spans) && (needs == [] <==> spans == [])
    && (forall j :: 0 <= j < |needs| ==> Covers(spans, needs[j]))
    && (needs != [] ==>
          && spans[|spans| - 1].end == needs[|needs| - 1].end
          && spans[|spans| - 1].start <= needs[|needs| - 1].start)
  }

  lemma MergeOne(spans: seq<Span>, needs: seq<Span>, need: Span)
    requires Merged(spans, needs) && need.start <= need.end
    requires needs != [] ==> needs[|needs| - 1].start <= need.start && needs[|needs| - 1].end <= need.end
    ensures Merged(Merge(spans, need), needs + [need])
  {
    var after := Merge(spans, need);
    MergeStaysDisjoint(spans, need);
    GrownSpansCover(spans, after, needs);
    assert Covers(after, need);
  }

  /** Lengthen the last span in place, or append. */
  method MergeInto(spans: seq<Span>, need: Span, ghost needs: seq<Span>) returns (merged: seq<Span>)
    requires Merged(spans, needs) && need.start <= need.end
    requires needs != [] ==> needs[|needs| - 1].start <= need.start && needs[|needs| - 1].end <= need.end
    ensures Merged(merged, needs + [need])
  {
    MergeOne(spans, needs, need);
    if spans != [] && need.start <= spans[|spans| - 1].end {
      var last := spans[|spans| - 1];
      merged := spans[|spans| - 1 := Span(last.start, if last.end >= need.end then last.end else need.end)];
    } else {
      merged := spans + [need];
    }
  }

  lemma NextNeed(needs: seq<Span>, i: nat)
    requires Ascending(needs) && i < |needs|
    ensures needs[i].start <= needs[i].end
    ensures i > 0 ==> needs[i - 1].start <= needs[i].start && needs[i - 1].end <= needs[i].end
  {
  }

  /** Merge needs into disjoint ascending spans. */
  method MergeSpans(needs: seq<Span>) returns (spans: seq<Span>)
    requires Ascending(needs)
    ensures Disjoint(spans)
    ensures forall i :: 0 <= i < |needs| ==> Covers(spans, needs[i])
  {
    spans := [];
    ghost var done: seq<Span> := [];
    for i := 0 to |needs|
      invariant done == needs[..i] && Merged(spans, done)
    {
      NextNeed(needs, i);
      spans := MergeInto(spans, needs[i], done);
      done := done + [needs[i]];
    }
    assert done == needs;
  }

  /** Lengthening the last span or adding one loses no need. */
  lemma GrownSpansCover(before: seq<Span>, after: seq<Span>, needs: seq<Span>)
    requires |before| <= |after|
    requires forall k :: 0 <= k < |before| ==> after[k].start == before[k].start && before[k].end <= after[k].end
    requires forall j :: 0 <= j < |needs| ==> Covers(before, needs[j])
    ensures forall j :: 0 <= j < |needs| ==> Covers(after, needs[j])
  {
    forall j | 0 <= j < |needs|
      ensures Covers(after, needs[j])
    {
      var k :| 0 <= k < |before| && Within(needs[j], before[k]);
      assert Within(needs[j], after[k]);
    }
  }

  /** With every earlier span over, a stamp outside the current span is outside every need covered. */
  lemma OutsideEverySpan(spans: seq<Span>, cursor: nat, stamp: int, need: Span)
    requires Disjoint(spans) && cursor <= |spans| && Covers(spans, need)
    requires forall k :: 0 <= k < cursor ==> spans[k].end < stamp
    requires cursor < |spans| ==> stamp <= spans[cursor].end && stamp < spans[cursor].start
    ensures !(need.start <= stamp <= need.end)
  {
    var k :| 0 <= k < |spans| && Within(need, spans[k]);
    if cursor < k {
      assert spans[cursor].end < spans[k].start;
    }
  }

  // ---- The pass ----

  /** The buffer answers for a pending entry as the whole stream read so far would. */
  predicate Answers(buffer: seq<Trade>, read: seq<Trade>, e: Entry) {
    WindowOf(buffer, e.at) == WindowOf(read, e.at)
  }

  lemma WindowAppend(rows: seq<Trade>, t: Trade, at: int)
    ensures WindowOf(rows + [t], at) == WindowOf(rows, at) + (if InWindow(t, at) then [t] else [])
  {
    assert (rows + [t])[..|rows|] == rows;
  }

  lemma WindowDropFirst(rows: seq<Trade>, at: int)
    requires rows != [] && !InWindow(rows[0], at)
    ensures WindowOf(rows[1..], at) == WindowOf(rows, at)
  {
    assert rows == [rows[0]] + rows[1..];
    FilterConcat([rows[0]], rows[1..], InWindowOf(at));
    FilterNone([rows[0]], InWindowOf(at));
  }

  lemma StampsBefore(rows: seq<Trade>, i: nat, ms: int)
    requires TimeOrdered(rows) && i <= |rows| && (i > 0 ==> rows[i - 1].ms < ms)
    ensures forall t :: t in rows[..i] ==> t.ms < ms
  {
    forall k | 0 <= k < i
      ensures rows[k].ms < ms
    {
      assert k < i - 1 ==> rows[k].ms <= rows[i - 1].ms;
    }
  }

  lemma StampsFrom(rows: seq<Trade>, i: nat, ms: int)
    requires TimeOrdered(rows) && i < |rows| && ms <= rows[i].ms
    ensures forall t :: t in rows[i..] ==> ms <= t.ms
  {
    forall k | i <= k < |rows|
      ensures ms <= rows[k].ms
    {
      assert i < k ==> rows[i].ms <= rows[k].ms;
    }
  }

  /** With everything read before a stamp and the rest at or past it, what was read is the window before it. */
  lemma ReadIsTheWindow(read: seq<Trade>, rest: seq<Trade>, at: int, ms: int)
    requires forall t :: t in read ==> t.ms < ms
    requires forall t :: t in rest ==> ms <= t.ms
    ensures WindowOf(read, at) == WindowBefore(read + rest, at, ms)
  {
    FilterConcat(read, rest, InWindowBefore(at, ms));
    FilterAgree(read, InWindowOf(at), InWindowBefore(at, ms));
    FilterNone(rest, InWindowBefore(at, ms));
  }

  /** Drop trades older than the window of the newest row. */
  method Evict(buffer: seq<Trade>, stamp: int, ghost pending: seq<Entry>) returns (kept: seq<Trade>)
    requires forall e :: e in pending ==> stamp < Ms(e.at)
    ensures forall e :: e in pending ==> WindowOf(kept, e.at) == WindowOf(buffer, e.at)
  {
    kept := buffer;
    while kept != [] && kept[0].ms * 1000 < stamp * 1000 - WINDOW_US
      invariant forall e :: e in pending ==> WindowOf(kept, e.at) == WindowOf(buffer, e.at)
      decreases |kept|
    {
      forall e | e in pending
        ensures WindowOf(kept[1..], e.at) == WindowOf(buffer, e.at)
      {
        BeforeMsIsBefore(stamp, e.at);
        WindowDropFirst(kept, e.at);
      }
      kept := kept[1..];
    }
  }

  lemma SortedNeedsAscend(entries: seq<Entry>)
    requires Ordered(entries, AtOf)
    ensures Ascending(Needs(entries))
  {
    forall i, j | 0 <= i <= j < |entries|
      ensures Needs(entries)[i].start <= Needs(entries)[j].start && Needs(entries)[i].end <= Needs(entries)[j].end
    {
      assert i < j ==> AtOf(entries[i]) <= AtOf(entries[j]);
      MsMonotone(entries[i].at - WINDOW_US, entries[j].at - WINDOW_US);
      MsMonotone(entries[i].at, entries[j].at);
    }
    forall i | 0 <= i < |entries|
      ensures Needs(entries)[i].start <= Needs(entries)[i].end
    {
      MsMonotone(entries[i].at - WINDOW_US, entries[i].at);
    }
  }

  function Needs(entries: seq<Entry>): seq<Span> {
    seq(|entries|, i requires 0 <= i < |entries| => NeedOf(entries[i]))
  }

  /** The judgement an entry should get from the whole stream. */
  function Judged(rows: seq<Trade>, e: Entry): Judgement { JudgedAt(rows, e, Ms(e.at)) }

  function JudgedAt(rows: seq<Trade>, e: Entry, ms: int): Judgement { Judgement(e, WindowBefore(rows, e.at, ms)) }

  lemma DueIsJudged(rows: seq<Trade>, i: nat, buffer: seq<Trade>, e: Entry, ms: int)
    requires TimeOrdered(rows) && i < |rows| && Answers(buffer, rows[..i], e)
    requires i > 0 ==> rows[i - 1].ms < ms
    requires ms <= rows[i].ms
    ensures Judgement(e, WindowOf(buffer, e.at)) == JudgedAt(rows, e, ms)
  {
    StampsBefore(rows, i, ms);
    StampsFrom(rows, i, ms);
    assert rows == rows[..i] + rows[i..];
    ReadIsTheWindow(rows[..i], rows[i..], e.at, ms);
  }

  /** One entry judged from the buffer as it stands. */
  method JudgeOne(rows: seq<Trade>, i: nat, buffer: seq<Trade>, e: Entry, ms: int) returns (judgement: Judgement)
    requires TimeOrdered(rows) && i < |rows| && Answers(buffer, rows[..i], e)
    requires i > 0 ==> rows[i - 1].ms < ms
    requires ms <= rows[i].ms
    ensures judgement == JudgedAt(rows, e, ms)
  {
    DueIsJudged(rows, i, buffer, e, ms);
    judgement := Judgement(e, WindowOf(buffer, e.at));
  }

  /** What is due from `next` on lies past the stamp, once the first of it does. */
  lemma RestIsNotDue(needs: seq<Span>, next: nat, ms: int)
    requires Ascending(needs) && (next < |needs| ==> ms < needs[next].end)
    ensures forall j :: next <= j < |needs| ==> ms < needs[j].end
  {
    forall j | next <= j < |needs|
      ensures ms < needs[j].end
    {
      assert next < j ==> needs[next].end <= needs[j].end;
    }
  }

  /** Judge every pending entry at or before this row, from the buffer as it stands. */
  method JudgeDue(rows: seq<Trade>, i: nat, buffer: seq<Trade>, entries: seq<Entry>, needs: seq<Span>, first: nat)
    returns (judged: seq<Judgement>, next: nat)
    requires TimeOrdered(rows) && i < |rows| && first <= |entries| == |needs| && Ascending(needs)
    requires forall j :: first <= j < |entries| ==> Answers(buffer, rows[..i], entries[j])
    requires forall j :: first <= j < |entries| ==> (i > 0 ==> rows[i - 1].ms < needs[j].end)
    ensures first <= next <= |entries| && |judged| == next - first
    ensures forall j :: first <= j < next ==> judged[j - first] == JudgedAt(rows, entries[j], needs[j].end)
    ensures forall j :: first <= j < next ==> needs[j].end <= rows[i].ms
    ensures forall j :: next <= j < |entries| ==> rows[i].ms < needs[j].end
  {
    judged, next := [], first;
    while next < |entries| && needs[next].end <= rows[i].ms
      invariant first <= next <= |entries| && |judged| == next - first
      invariant forall j :: first <= j < next ==> judged[j - first] == JudgedAt(rows, entries[j], needs[j].end)
      invariant forall j :: first <= j < next ==> needs[j].end <= rows[i].ms
    {
      var judgement := JudgeOne(rows, i, buffer, entries[next], needs[next].end);
      judged := judged + [judgement];
      next := next + 1;
    }
    RestIsNotDue(needs, next, rows[i].ms);
  }

  /** Move past the spans that ended before this stamp. */
  method Advance(spans: seq<Span>, cursor: nat, stamp: int) returns (next: nat)
    requires cursor <= |spans| && forall k :: 0 <= k < cursor ==> spans[k].end < stamp
    ensures cursor <= next <= |spans| && forall k :: 0 <= k < next ==> spans[k].end < stamp
    ensures next < |spans| ==> stamp <= spans[next].end
  {
    next := cursor;
    while next < |spans| && stamp > spans[next].end
      invariant cursor <= next <= |spans| && forall k :: 0 <= k < next ==> spans[k].end < stamp
    {
      next := next + 1;
    }
  }

  /** Skipping a row outside the spans costs no pending entry anything. */
  lemma SkippedRowIsInNoWindow(
      buffer: seq<Trade>, read: seq<Trade>, t: Trade, spans: seq<Span>, cursor: nat, e: Entry)
    requires Answers(buffer, read, e) && Disjoint(spans) && Covers(spans, NeedOf(e)) && cursor <= |spans|
    requires forall k :: 0 <= k < cursor ==> spans[k].end < t.ms
    requires cursor < |spans| ==> t.ms <= spans[cursor].end && t.ms < spans[cursor].start
    ensures Answers(buffer, read + [t], e)
  {
    OutsideEverySpan(spans, cursor, t.ms, NeedOf(e));
    if InWindow(t, e.at) {
      WindowIsInsideSpan(t, e.at);
    }
    WindowAppend(read, t, e.at);
  }

  lemma KeptRowAnswers(buffer: seq<Trade>, kept: seq<Trade>, read: seq<Trade>, t: Trade, e: Entry)
    requires Answers(buffer, read, e) && WindowOf(kept, e.at) == WindowOf(buffer + [t], e.at)
    ensures Answers(kept, read + [t], e)
  {
    WindowAppend(buffer, t, e.at);
    WindowAppend(read, t, e.at);
  }

  /** One row past the judging: filter by span, then append and evict. */
  method Absorb(buffer: seq<Trade>, ghost read: seq<Trade>, t: Trade, spans: seq<Span>, cursor: nat,
                ghost pending: seq<Entry>)
    returns (kept: seq<Trade>, next: nat)
    requires Disjoint(spans) && cursor <= |spans| && forall k :: 0 <= k < cursor ==> spans[k].end < t.ms
    requires forall e :: e in pending ==> Answers(buffer, read, e) && t.ms < Ms(e.at) && Covers(spans, NeedOf(e))
    ensures cursor <= next <= |spans| && forall k :: 0 <= k < next ==> spans[k].end < t.ms
    ensures forall e :: e in pending ==> Answers(kept, read + [t], e)
  {
    next := Advance(spans, cursor, t.ms);
    if next >= |spans| || t.ms < spans[next].start {
      kept := buffer;
      forall e | e in pending
        ensures Answers(kept, read + [t], e)
      {
        SkippedRowIsInNoWindow(buffer, read, t, spans, next, e);
      }
    } else {
      kept := Evict(buffer + [t], t.ms, pending);
      forall e | e in pending
        ensures Answers(kept, read + [t], e)
      {
        KeptRowAnswers(buffer, kept, read, t, e);
      }
    }
  }

  /** What the pass knows after `i` rows. */
  ghost predicate PassInv(
      rows: seq<Trade>, i: nat, entries: seq<Entry>, needs: seq<Span>, results: seq<Judgement>, buffer: seq<Trade>,
      spans: seq<Span>, cursor: nat)
    requires i <= |rows| && |needs| == |entries|
  {
    && |results| <= |entries| && cursor <= |spans|
    && (forall j :: 0 <= j < |results| ==> results[j] == JudgedAt(rows, entries[j], needs[j].end))
    && (forall j :: 0 <= j < |results| ==> i > 0 && needs[j].end <= rows[i - 1].ms)
    && (forall j :: |results| <= j < |entries| ==> Answers(buffer, rows[..i], entries[j]))
    && (forall j :: |results| <= j < |entries| ==> (i > 0 ==> rows[i - 1].ms < needs[j].end))
    && (forall k :: 0 <= k < cursor ==> i > 0 && spans[k].end < rows[i - 1].ms)
  }

  /** The entries still pending after judging at a row. */
  lemma PendingFacts(
      rows: seq<Trade>, i: nat, entries: seq<Entry>, needs: seq<Span>, next: nat, buffer: seq<Trade>, spans: seq<Span>)
    requires i < |rows| && needs == Needs(entries) && next <= |entries|
    requires forall j :: next <= j < |entries| ==> Answers(buffer, rows[..i], entries[j]) && rows[i].ms < needs[j].end
    requires forall j :: 0 <= j < |needs| ==> Covers(spans, needs[j])
    ensures forall e :: e in entries[next..] ==>
                          Answers(buffer, rows[..i], e) && rows[i].ms < Ms(e.at) && Covers(spans, NeedOf(e))
  {
    forall e | e in entries[next..]
      ensures Answers(buffer, rows[..i], e) && rows[i].ms < Ms(e.at) && Covers(spans, NeedOf(e))
    {
      var j :| next <= j < |entries| && entries[j] == e;
      assert needs[j] == NeedOf(e);
    }
  }

  /** What the pass knows once a row is judged and absorbed. */
  lemma PassAdvances(
      rows: seq<Trade>, i: nat, entries: seq<Entry>, needs: seq<Span>, results: seq<Judgement>, judged: seq<Judgement>,
      kept: seq<Trade>, spans: seq<Span>, cursor: nat)
    requires i < |rows| && |needs| == |entries| && |results + judged| <= |entries| && cursor <= |spans|
    requires forall j :: 0 <= j < |results| ==> results[j] == JudgedAt(rows, entries[j], needs[j].end)
    requires forall j :: 0 <= j < |results| ==> needs[j].end <= rows[i].ms
    requires forall j :: |results| <= j < |results + judged| ==>
               judged[j - |results|] == JudgedAt(rows, entries[j], needs[j].end) && needs[j].end <= rows[i].ms
    requires forall j :: |results + judged| <= j < |entries| ==>
               rows[i].ms < needs[j].end && Answers(kept, rows[..i + 1], entries[j])
    requires forall k :: 0 <= k < cursor ==> spans[k].end < rows[i].ms
    ensures PassInv(rows, i + 1, entries, needs, results + judged, kept, spans, cursor)
  {
  }

  /** One row: judge what is due, then absorb the row. */
  method ReadRow(rows: seq<Trade>, i: nat, entries: seq<Entry>, needs: seq<Span>, results: seq<Judgement>,
                 buffer: seq<Trade>, spans: seq<Span>, cursor: nat)
    returns (results': seq<Judgement>, buffer': seq<Trade>, cursor': nat)
    requires TimeOrdered(rows) && i < |rows| && needs == Needs(entries) && Ascending(needs) && Disjoint(spans)
    requires forall j :: 0 <= j < |needs| ==> Covers(spans, needs[j])
    requires PassInv(rows, i, entries, needs, results, buffer, spans, cursor)
    ensures PassInv(rows, i + 1, entries, needs, results', buffer', spans, cursor')
  {
    assert i > 0 ==> rows[i - 1].ms <= rows[i].ms;
    var judged, next := JudgeDue(rows, i, buffer, entries, needs, |results|);
    results' := results + judged;
    PendingFacts(rows, i, entries, needs, next, buffer, spans);
    buffer', cursor' := Absorb(buffer, rows[..i], rows[i], spans, cursor, entries[next..]);
    assert rows[..i + 1] == rows[..i] + [rows[i]];
    forall j | next <= j < |entries|
      ensures Answers(buffer', rows[..i + 1], entries[j])
    {
      assert entries[j] == entries[next..][j - next];
    }
    PassAdvances(rows, i, entries, needs, results, judged, buffer', spans, cursor');
  }

  /** Every entry the stream reaches is judged once, in time order, on the window before its millisecond. */
  predicate Judges(rows: seq<Trade>, entries: seq<Entry>, results: seq<Judgement>) {
    && |results| <= |entries|
    && (forall j :: 0 <= j < |results| ==> results[j] == Judged(rows, entries[j]))
    && (forall j :: 0 <= j < |entries| ==> (j < |results| <==> Reaches(rows, entries[j])))
  }

  /** The last row is at or past the entry's millisecond. */
  predicate Reaches(rows: seq<Trade>, e: Entry) { rows != [] && Ms(e.at) <= rows[|rows| - 1].ms }

  lemma FinishedPass(
      rows: seq<Trade>, entries: seq<Entry>, results: seq<Judgement>, buffer: seq<Trade>, spans: seq<Span>, cursor: nat)
    requires PassInv(rows, |rows|, entries, Needs(entries), results, buffer, spans, cursor)
    ensures Judges(rows, entries, results)
  {
    var needs := Needs(entries);
    forall j | 0 <= j < |entries|
      ensures j < |results| <==> Reaches(rows, entries[j])
    {
      assert needs[j].end == Ms(entries[j].at);
      if j < |results| {
        assert results[j] == JudgedAt(rows, entries[j], needs[j].end);
        assert needs[j].end <= rows[|rows| - 1].ms;
      }
    }
    forall j | 0 <= j < |results|
      ensures results[j] == Judged(rows, entries[j])
    {
      assert needs[j].end == Ms(entries[j].at);
    }
  }

  /** Main result. One pass over a time-ordered stream, whatever order the entries come in. */
  method Backfill(rows: seq<Trade>, unsorted: seq<Entry>) returns (results: seq<Judgement>)
    requires TimeOrdered(rows)
    ensures Judges(rows, Sorted(unsorted, AtOf), results)
  {
    var entries := Sorted(unsorted, AtOf);
    SortedIsOrdered(unsorted, AtOf);
    SortedNeedsAscend(entries);
    var needs := Needs(entries);
    var spans := MergeSpans(needs);
    results := [];
    var buffer: seq<Trade> := [];
    var cursor := 0;
    for i := 0 to |rows|
      invariant PassInv(rows, i, entries, needs, results, buffer, spans, cursor)
    {
      results, buffer, cursor := ReadRow(rows, i, entries, needs, results, buffer, spans, cursor);
    }
    FinishedPass(rows, entries, results, buffer, spans, cursor);
  }

  /** The judged window is the promised half-open window if and only if the entry falls on a whole
      millisecond (or before the epoch), or no trade carries the entry's own millisecond. */
  lemma JudgedWindowIsPromisedIff(rows: seq<Trade>, e: Entry)
    ensures Judged(rows, e).window == WindowOf(rows, e.at)
            <==> e.at < 0 || e.at % 1000 == 0 || forall t :: t in rows ==> t.ms != Ms(e.at)
  {
    if exists t :: t in rows && InWindow(t, e.at) && t.ms >= Ms(e.at) {
      var t :| t in rows && InWindow(t, e.at) && t.ms >= Ms(e.at);
      FilterMembers(rows, InWindowOf(e.at), t);
      FilterMembers(rows, InWindowBefore(e.at, Ms(e.at)), t);
      PastTheMillisecond(t, e.at);
    } else {
      forall t | t in rows
        ensures InWindow(t, e.at) ==> t.ms < Ms(e.at)
      {
      }
      FilterAgree(rows, InWindowOf(e.at), InWindowBefore(e.at, Ms(e.at)));
      forall t | t in rows
        ensures !(e.at >= 0 && e.at % 1000 != 0 && t.ms == Ms(e.at))
      {
        PastTheMillisecond(t, e.at);
      }
    }
  }

  /** Half a millisecond is enough: a trade half a millisecond before its entry is left out. */
  lemma HalfAMillisecondLosesATrade() returns (rows: seq<Trade>, e: Entry)
    ensures TimeOrdered(rows) && Reaches(rows, e)
    ensures WindowOf(rows, e.at) == rows && rows != [] && Judged(rows, e).window == []
  {
    var t := Trade(1, 1_800_000, 100.0, 1.0, true);
    rows, e := [t], Entry(1_800_000_500, 0);
    FilterAll(rows, InWindowOf(e.at));
    FilterNone(rows, InWindowBefore(e.at, Ms(e.at)));
  }
}
