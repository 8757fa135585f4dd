/** The byte streams hashed for a KRX snapshot and for its activation: every field after its length
    in four big-endian bytes. */
module KrxFraming {
  import opened Common
  import opened Sequences
  import opened Text
  import opened TextOrder

  type Bytes = seq<Byte>

  const LENGTH_LIMIT: int := 0x1_0000_0000

  // ---- Framing ----

  /** The length as the hash is fed it. A field longer than four bytes can say is an OverflowError. */
  function Length(n: nat): (r: Bytes)
    requires n < LENGTH_LIMIT
    ensures |r| == 4
  {
    [n / 16777216, n / 65536 % 256, n / 256 % 256, n % 256]
  }

  function Framed(fields: seq<Bytes>): Bytes
    requires forall i :: 0 <= i < |fields| ==> |fields[i]| < LENGTH_LIMIT
  {
    if fields == [] then [] else Length(|fields[0]|) + fields[0] + Framed(fields[1..])
  }

  /** Reading a stream back, field by field. */
  function LengthAt(stream: Bytes): nat
    requires |stream| >= 4
  {
    stream[0] as int * 16777216 + stream[1] as int * 65536 + stream[2] as int * 256 + stream[3] as int
  }

  function Unframed(stream: Bytes): Option<seq<Bytes>>
    decreases |stream|
  {
    if stream == [] then Some([])
    else if |stream| < 4 || LengthAt(stream) > |stream| - 4 then None
    else
      var end := 4 + LengthAt(stream);
      match Unframed(stream[end..])
      case None => None
      case Some(rest) => Some([stream[4..end]] + rest)
  }

  lemma LengthReadsBack(n: nat)
    requires n < LENGTH_LIMIT
    ensures LengthAt(Length(n)) == n
    ensures var r := Length(n);
            r[0] as int * 0x100_0000 + r[1] as int * 0x1_0000 + r[2] as int * 0x100 + r[3] as int == n
  {
    assert n / 256 == n / 65536 * 256 + n / 256 % 256;
    assert n / 65536 == n / 16777216 * 256 + n / 65536 % 256;
  }

  /** The stream can be decoded back to its field list, whatever bytes the fields hold. */
  lemma {:induction false} FramingReadsBack(fields: seq<Bytes>)
    requires forall i :: 0 <= i < |fields| ==> |fields[i]| < LENGTH_LIMIT
    ensures Unframed(Framed(fields)) == Some(fields)
  {
    if fields != [] {
      var n := |fields[0]|;
      var stream := Framed(fields);
      LengthReadsBack(n);
      assert stream[..4] == Length(n);
      assert stream[0] == Length(n)[0] && stream[1] == Length(n)[1] && stream[2] == Length(n)[2] && stream[3] == Length(n)[3];
      assert LengthAt(stream) == n;
      assert stream[4..4 + n] == fields[0];
      assert stream[4 + n..] == Framed(fields[1..]);
      FramingReadsBack(fields[1..]);
      assert fields == [fields[0]] + fields[1..];
    }
  }

  lemma FramedIsUnambiguous(a: seq<Bytes>, b: seq<Bytes>)
    requires forall i :: 0 <= i < |a| ==> |a[i]| < LENGTH_LIMIT
    requires forall i :: 0 <= i < |b| ==> |b[i]| < LENGTH_LIMIT
    requires Framed(a) == Framed(b)
    ensures a == b
  {
    FramingReadsBack(a);
    FramingReadsBack(b);
  }

  lemma FramedCons(first: Bytes, rest: seq<Bytes>)
    requires |first| < LENGTH_LIMIT && forall i :: 0 <= i < |rest| ==> |rest[i]| < LENGTH_LIMIT
    ensures forall i :: 0 <= i <= |rest| ==> |([first] + rest)[i]| < LENGTH_LIMIT
    ensures Framed([first] + rest) == Length(|first|) + first + Framed(rest)
  {
    assert ([first] + rest)[1..] == rest;
  }

  lemma Regroup(a: Bytes, b: Bytes, c: Bytes, d: Bytes)
    ensures a + (b + c + d) == a + b + c + d
  {
  }

  lemma {:induction false} FramedAppend(fields: seq<Bytes>, last: Bytes)
    requires forall i :: 0 <= i < |fields| ==> |fields[i]| < LENGTH_LIMIT
    requires |last| < LENGTH_LIMIT
    ensures forall i :: 0 <= i <= |fields| ==> |(fields + [last])[i]| < LENGTH_LIMIT
    ensures Framed(fields + [last]) == Framed(fields) + Length(|last|) + last
  {
    if fields == [] {
      FramedCons(last, []);
      assert fields + [last] == [last] + [];
    } else {
      var first, rest := fields[0], fields[1..];
      FramedAppend(rest, last);
      FramedCons(first, rest);
      FramedCons(first, rest + [last]);
      assert fields == [first] + rest && fields + [last] == [first] + (rest + [last]);
      Regroup(Length(|first|) + first, Framed(rest), Length(|last|), last);
    }
  }

  // ---- Snapshots ----

  datatype CashMarket = Kospi | Kosdaq

  datatype Instrument = Instrument(
    market: CashMarket, symbol: string, standardCode: string, name: string,
    securityGroup: string, etpClass: string, preferredClass: string)

  datatype Snapshot = Snapshot(capturedAt: Moment, kospiHash: Bytes, kosdaqHash: Bytes, instruments: seq<Instrument>)

  predicate IsDigit(c: char) { '0' <= c <= '9' }

  predicate SixDigits(s: string) { |s| == 6 && forall i :: 0 <= i < |s| ==> IsDigit(s[i]) }

  predicate StandardCode(s: string) {
    |s| == 12 && forall i :: 0 <= i < |s| ==> IsDigit(s[i]) || 'A' <= s[i] <= 'Z'
  }

  predicate Control(c: char) { c as int < 32 || 127 <= c as int < 160 }

  predicate ProperName(s: string) { Trimmed(s) && |s| <= 256 && forall i :: 0 <= i < |s| ==> !Control(s[i]) }

  predicate ProperInstrument(x: Instrument) {
    && SixDigits(x.symbol) && StandardCode(x.standardCode) && ProperName(x.name)
    && x.securityGroup == "ST" && (x.etpClass == "" || x.etpClass == "0") && x.preferredClass == "0"
  }

  /** Strictly ascending symbols: in order, and none twice. */
  predicate Ascending(symbols: seq<string>) { Strictly(symbols, Itself()) }

  function Symbols(xs: seq<Instrument>): (r: seq<string>)
    ensures |r| == |xs|
  {
    seq(|xs|, i requires 0 <= i < |xs| => xs[i].symbol)
  }

  predicate ProperInstruments(xs: seq<Instrument>) {
    xs != [] && (forall i :: 0 <= i < |xs| ==> ProperInstrument(xs[i])) && Ascending(Symbols(xs))
  }

  predicate ProperSnapshot(s: Snapshot) {
    RealMoment(s.capturedAt) && |s.kospiHash| == 32 && |s.kosdaqHash| == 32 && ProperInstruments(s.instruments)
  }

  lemma {:induction false} DistinctIffSetIsAsLong(s: seq<string>)
    ensures |set x | x in s| <= |s|
    ensures |set x | x in s| == |s| <==> DistinctKeys(s, Itself())
  {
    if s != [] {
      var front, last := s[..|s| - 1], s[|s| - 1];
      assert s == front + [last];
      DistinctIffSetIsAsLong(front);
      DistinctAppend(front, last, Itself());
      assert (set x | x in s) == (set x | x in front) + {last};
      assert last in front <==> exists i :: 0 <= i < |front| && Itself()(front[i]) == Itself()(last);
    } else {
      assert (set x | x in s) == {};
    }
  }

  /** The list equal to its own sort, and as long as its own set, is the strictly ascending list. */
  lemma SortedAndUniqueIffAscending(symbols: seq<string>)
    ensures symbols == SortBy(symbols, Itself()) && |symbols| == |set x | x in symbols| <==> Ascending(symbols)
  {
    DistinctIffSetIsAsLong(symbols);
    if Ascending(symbols) {
      StrictlyIs(symbols, Itself());
      SortOfOrdered(symbols, Earlier(Itself()));
    } else if symbols == SortBy(symbols, Itself()) && DistinctKeys(symbols, Itself()) {
      SortIsStrict(symbols, Itself());
      assert false;
    }
  }

  /** Accepts exactly the non-empty, well-formed, strictly ascending lists. */
  method ValidateInstruments(instruments: seq<Instrument>) returns (ok: bool)
    ensures ok <==> ProperInstruments(instruments)
  {
    if instruments == [] {
      return false;
    }
    var symbols: seq<string> := [];
    for k := 0 to |instruments|
      invariant forall i :: 0 <= i < k ==> ProperInstrument(instruments[i])
      invariant symbols == Symbols(instruments)[..k]
    {
      if !ProperInstrument(instruments[k]) {
        return false;
      }
      symbols := symbols + [instruments[k].symbol];
    }
    assert symbols == Symbols(instruments);
    SortedAndUniqueIffAscending(symbols);
    ok := symbols == SortBy(symbols, Itself()) && |symbols| == |set x | x in symbols|;
  }

  // ---- The streams ----

  function MarketText(market: CashMarket): string { if market == Kospi then "KOSPI" else "KOSDAQ" }

  const SNAPSHOT_TAG := "KIS_KRX_COMMON_STOCK_AUTHORITY_V2"

  const ACTIVATION_TAG := "KIS_KRX_COMMON_STOCK_AUTHORITY_ACTIVATION_V1"

  /** The bytes of an ASCII literal. */
  function Ascii(s: string): (r: Bytes)
    ensures |r| == |s|
  {
    seq(|s|, i requires 0 <= i < |s| => s[i] as int % 256)
  }

  function InstrumentFields(x: Instrument): (r: seq<Bytes>)
    ensures |r| == 7
  {
    [Ascii(MarketText(x.market)), Utf8(x.symbol), Utf8(x.standardCode), Utf8(x.name),
     Utf8(x.securityGroup), Utf8(x.etpClass), Utf8(x.preferredClass)]
  }

  function Joined(blocks: seq<seq<Bytes>>): seq<Bytes> {
    if blocks == [] then [] else Joined(blocks[..|blocks| - 1]) + blocks[|blocks| - 1]
  }

  function Blocks(xs: seq<Instrument>): (r: seq<seq<Bytes>>)
    ensures |r| == |xs| && SevenEach(r)
  {
    seq(|xs|, i requires 0 <= i < |xs| => InstrumentFields(xs[i]))
  }

  predicate SevenEach(blocks: seq<seq<Bytes>>) { forall i :: 0 <= i < |blocks| ==> |blocks[i]| == 7 }

  function AllFields(xs: seq<Instrument>): seq<Bytes> { Joined(Blocks(xs)) }

  function HeadFields(s: Snapshot): (r: seq<Bytes>)
    ensures |r| == 4
  {
    [Ascii(SNAPSHOT_TAG), Utf8(IsoMoment(s.capturedAt)), s.kospiHash, s.kosdaqHash]
  }

  function SnapshotFields(s: Snapshot): seq<Bytes> { HeadFields(s) + AllFields(s.instruments) }

  predicate Framable(fields: seq<Bytes>) { forall i :: 0 <= i < |fields| ==> |fields[i]| < LENGTH_LIMIT }

  lemma {:induction false} Utf8IsShort(s: string)
    ensures |Utf8(s)| <= 4 * |s|
  {
    if s != "" {
      Utf8IsShort(s[1..]);
    }
  }

  lemma InstrumentIsFramable(x: Instrument)
    requires ProperInstrument(x)
    ensures Framable(InstrumentFields(x))
  {
    Utf8IsShort(x.symbol);
    Utf8IsShort(x.standardCode);
    Utf8IsShort(x.name);
    Utf8IsShort(x.securityGroup);
    Utf8IsShort(x.etpClass);
    Utf8IsShort(x.preferredClass);
  }

  lemma {:induction false} JoinedIsFramable(blocks: seq<seq<Bytes>>)
    requires forall i :: 0 <= i < |blocks| ==> Framable(blocks[i])
    ensures Framable(Joined(blocks))
  {
    if blocks != [] {
      JoinedIsFramable(blocks[..|blocks| - 1]);
    }
  }

  lemma AllAreFramable(xs: seq<Instrument>)
    requires forall i :: 0 <= i < |xs| ==> ProperInstrument(xs[i])
    ensures Framable(AllFields(xs))
  {
    forall i | 0 <= i < |xs|
      ensures Framable(Blocks(xs)[i])
    {
      InstrumentIsFramable(xs[i]);
    }
    JoinedIsFramable(Blocks(xs));
  }

  /** No field of a valid snapshot is too long to frame, so the overflow cannot happen. */
  lemma SnapshotIsFramable(s: Snapshot)
    requires ProperSnapshot(s)
    ensures Framable(SnapshotFields(s))
  {
    Utf8IsShort(IsoMoment(s.capturedAt));
    AllAreFramable(s.instruments);
  }

  lemma JoinedStep(blocks: seq<seq<Bytes>>, k: nat)
    requires k < |blocks|
    ensures Joined(blocks[..k + 1]) == Joined(blocks[..k]) + blocks[k]
  {
    assert blocks[..k + 1][..k] == blocks[..k] && blocks[..k + 1][k] == blocks[k];
  }

  /** The value list, extended by one instrument's fields after the other's. */
  method CollectFields(head: seq<Bytes>, blocks: seq<seq<Bytes>>) returns (values: seq<Bytes>)
    ensures values == head + Joined(blocks)
  {
    values := head;
    for k := 0 to |blocks|
      invariant values == head + Joined(blocks[..k])
    {
      JoinedStep(blocks, k);
      values := values + blocks[k];
    }
    assert blocks[..|blocks|] == blocks;
  }

  /** The loop over the digest: each length, then each value. */
  method Feed(values: seq<Bytes>) returns (fed: Bytes)
    requires Framable(values)
    ensures fed == Framed(values)
  {
    fed := [];
    for k := 0 to |values|
      invariant fed == Framed(values[..k])
    {
      assert values[..k + 1] == values[..k] + [values[k]];
      FramedAppend(values[..k], values[k]);
      fed := fed + Length(|values[k]|);
      fed := fed + values[k];
    }
    assert values[..|values|] == values;
  }

  /** What the digest is fed for a snapshot. */
  method FeedSnapshot(s: Snapshot) returns (fed: Bytes)
    requires ProperSnapshot(s)
    ensures Framable(SnapshotFields(s)) && fed == Framed(SnapshotFields(s))
  {
    SnapshotIsFramable(s);
    var values := CollectFields(HeadFields(s), Blocks(s.instruments));
    fed := Feed(values);
  }

  lemma InstrumentFieldsInjective(x: Instrument, y: Instrument)
    requires InstrumentFields(x) == InstrumentFields(y)
    ensures x == y
  {
    var a, b := InstrumentFields(x), InstrumentFields(y);
    assert a[0] == b[0] && a[1] == b[1] && a[2] == b[2] && a[3] == b[3] && a[4] == b[4] && a[5] == b[5] && a[6] == b[6];
    assert |a[0]| == |MarketText(x.market)| && |b[0]| == |MarketText(y.market)|;
    Utf8Injective(x.symbol, y.symbol);
    Utf8Injective(x.standardCode, y.standardCode);
    Utf8Injective(x.name, y.name);
    Utf8Injective(x.securityGroup, y.securityGroup);
    Utf8Injective(x.etpClass, y.etpClass);
    Utf8Injective(x.preferredClass, y.preferredClass);
  }

  lemma {:induction false} JoinedLength(blocks: seq<seq<Bytes>>)
    requires SevenEach(blocks)
    ensures |Joined(blocks)| == 7 * |blocks|
  {
    if blocks != [] {
      JoinedLength(blocks[..|blocks| - 1]);
    }
  }

  lemma LastSplits(a: seq<Bytes>, x: seq<Bytes>, b: seq<Bytes>, y: seq<Bytes>)
    requires a + x == b + y && |a| == |b|
    ensures a == b && x == y
  {
    assert (a + x)[..|a|] == a && (b + y)[..|b|] == b;
    assert (a + x)[|a|..] == x && (b + y)[|b|..] == y;
  }

  lemma {:induction false} JoinedInjective(a: seq<seq<Bytes>>, b: seq<seq<Bytes>>)
    requires SevenEach(a) && SevenEach(b) && Joined(a) == Joined(b)
    ensures a == b
  {
    JoinedLength(a);
    JoinedLength(b);
    if a != [] {
      var n := |a| - 1;
      JoinedLength(a[..n]);
      JoinedLength(b[..n]);
      LastSplits(Joined(a[..n]), a[n], Joined(b[..n]), b[n]);
      JoinedInjective(a[..n], b[..n]);
      assert a == a[..n] + [a[n]] && b == b[..n] + [b[n]];
    }
  }

  lemma AllFieldsInjective(xs: seq<Instrument>, ys: seq<Instrument>)
    requires AllFields(xs) == AllFields(ys)
    ensures xs == ys
  {
    JoinedInjective(Blocks(xs), Blocks(ys));
    assert |xs| == |ys|;
    forall i | 0 <= i < |xs|
      ensures xs[i] == ys[i]
    {
      assert Blocks(xs)[i] == Blocks(ys)[i];
      InstrumentFieldsInjective(xs[i], ys[i]);
    }
  }

  lemma SnapshotFieldsInjective(s: Snapshot, t: Snapshot)
    requires RealMoment(s.capturedAt) && RealMoment(t.capturedAt) && SnapshotFields(s) == SnapshotFields(t)
    ensures s == t
  {
    var a, b := SnapshotFields(s), SnapshotFields(t);
    assert a[..4] == HeadFields(s) && b[..4] == HeadFields(t);
    assert a[4..] == AllFields(s.instruments) && b[4..] == AllFields(t.instruments);
    assert HeadFields(s)[1] == HeadFields(t)[1] && HeadFields(s)[2] == HeadFields(t)[2] && HeadFields(s)[3] == HeadFields(t)[3];
    AllFieldsInjective(s.instruments, t.instruments);
    Utf8Injective(IsoMoment(s.capturedAt), IsoMoment(t.capturedAt));
    IsoMomentInjective(s.capturedAt, t.capturedAt);
  }

  /** Two valid snapshots feed the hash the same bytes exactly when they are the same snapshot:
      capture time, source hashes, and instruments in the same order. */
  lemma SnapshotStreamIsUnambiguous(s: Snapshot, t: Snapshot)
    requires ProperSnapshot(s) && ProperSnapshot(t)
    ensures Framable(SnapshotFields(s)) && Framable(SnapshotFields(t))
    ensures Framed(SnapshotFields(s)) == Framed(SnapshotFields(t)) <==> s == t
  {
    SnapshotIsFramable(s);
    SnapshotIsFramable(t);
    if Framed(SnapshotFields(s)) == Framed(SnapshotFields(t)) {
      FramedIsUnambiguous(SnapshotFields(s), SnapshotFields(t));
      SnapshotFieldsInjective(s, t);
    }
  }

  // ---- Activations ----

  datatype Activation = Activation(
    snapshotId: Bytes, sourceHash: Bytes, sourceModifiedAt: Moment, tradingDate: Date,
    activatedAt: Moment, validFrom: Moment, validUntil: Moment, calendarHash: Bytes)

  predicate ProperActivation(a: Activation) {
    && |a.snapshotId| == 16 && |a.sourceHash| == 32 && |a.calendarHash| == 32
    && RealDate(a.tradingDate) && RealMoment(a.sourceModifiedAt)
    && RealMoment(a.activatedAt) && RealMoment(a.validFrom) && RealMoment(a.validUntil)
  }

  function ActivationFields(a: Activation): seq<Bytes> {
    [Ascii(ACTIVATION_TAG), a.snapshotId, a.sourceHash, Utf8(IsoMoment(a.sourceModifiedAt)), Utf8(IsoDate(a.tradingDate)),
     Utf8(IsoMoment(a.activatedAt)), Utf8(IsoMoment(a.validFrom)), Utf8(IsoMoment(a.validUntil)), a.calendarHash]
  }

  lemma MomentFieldInjective(m: Moment, n: Moment)
    requires RealMoment(m) && RealMoment(n) && Utf8(IsoMoment(m)) == Utf8(IsoMoment(n))
    ensures m == n
  {
    Utf8Injective(IsoMoment(m), IsoMoment(n));
    IsoMomentInjective(m, n);
  }

  lemma ActivationFieldsInjective(a: Activation, b: Activation)
    requires ProperActivation(a) && ProperActivation(b) && ActivationFields(a) == ActivationFields(b)
    ensures a == b
  {
    var x, y := ActivationFields(a), ActivationFields(b);
    assert x[1] == y[1] && x[2] == y[2] && x[3] == y[3] && x[4] == y[4];
    assert x[5] == y[5] && x[6] == y[6] && x[7] == y[7] && x[8] == y[8];
    MomentFieldInjective(a.sourceModifiedAt, b.sourceModifiedAt);
    Utf8Injective(IsoDate(a.tradingDate), IsoDate(b.tradingDate));
    IsoDateInjective(a.tradingDate, b.tradingDate);
    MomentFieldInjective(a.activatedAt, b.activatedAt);
    MomentFieldInjective(a.validFrom, b.validFrom);
    MomentFieldInjective(a.validUntil, b.validUntil);
  }

  lemma ActivationIsFramable(a: Activation)
    requires ProperActivation(a)
    ensures Framable(ActivationFields(a))
  {
    Utf8IsShort(IsoMoment(a.sourceModifiedAt));
    Utf8IsShort(IsoDate(a.tradingDate));
    Utf8IsShort(IsoMoment(a.activatedAt));
    Utf8IsShort(IsoMoment(a.validFrom));
    Utf8IsShort(IsoMoment(a.validUntil));
  }

  /** The same for activations. */
  lemma ActivationStreamIsUnambiguous(a: Activation, b: Activation)
    requires ProperActivation(a) && ProperActivation(b)
    ensures Framable(ActivationFields(a)) && Framable(ActivationFields(b))
    ensures Framed(ActivationFields(a)) == Framed(ActivationFields(b)) <==> a == b
  {
    ActivationIsFramable(a);
    ActivationIsFramable(b);
    if Framed(ActivationFields(a)) == Framed(ActivationFields(b)) {
      FramedIsUnambiguous(ActivationFields(a), ActivationFields(b));
      ActivationFieldsInjective(a, b);
    }
  }

  lemma TagsDiffer(s: Snapshot, a: Activation)
    ensures SnapshotFields(s) != ActivationFields(a)
  {
    assert |SnapshotFields(s)[0]| == |SNAPSHOT_TAG| && |ActivationFields(a)[0]| == |ACTIVATION_TAG|;
  }

  /** No activation feeds the bytes of any snapshot. */
  lemma StreamsNeverMeet(s: Snapshot, a: Activation)
    requires Framable(SnapshotFields(s)) && Framable(ActivationFields(a))
    ensures Framed(SnapshotFields(s)) != Framed(ActivationFields(a))
  {
    if Framed(SnapshotFields(s)) == Framed(ActivationFields(a)) {
      FramedIsUnambiguous(SnapshotFields(s), ActivationFields(a));
      TagsDiffer(s, a);
    }
  }

  // ---- Where each field is ----

  lemma {:induction false} JoinedAt(blocks: seq<seq<Bytes>>, k: nat, j: nat)
    requires SevenEach(blocks) && k < |blocks| && j < 7
    ensures 7 * k + j < |Joined(blocks)| && Joined(blocks)[7 * k + j] == blocks[k][j]
  {
    JoinedLength(blocks);
    var front := blocks[..|blocks| - 1];
    JoinedLength(front);
    if k < |blocks| - 1 {
      JoinedAt(front, k, j);
    }
  }

  lemma FieldAt(s: Snapshot, k: nat, j: nat)
    requires k < |s.instruments| && j < 7
    ensures 4 + (7 * k + j) < |SnapshotFields(s)|
    ensures SnapshotFields(s)[4 + (7 * k + j)] == InstrumentFields(s.instruments[k])[j]
  {
    JoinedAt(Blocks(s.instruments), k, j);
    assert SnapshotFields(s)[4..] == AllFields(s.instruments);
    assert SnapshotFields(s)[4..][7 * k + j] == SnapshotFields(s)[4 + (7 * k + j)];
  }

  /** Tag, time and the two source hashes come first. */
  lemma HeadIsInOrder(s: Snapshot)
    ensures var f := SnapshotFields(s);
            && |f| >= 4 && f[0] == Ascii(SNAPSHOT_TAG) && f[1] == Utf8(IsoMoment(s.capturedAt))
            && f[2] == s.kospiHash && f[3] == s.kosdaqHash
  {
  }

  /** Then each instrument's market and symbol, instrument after instrument. */
  lemma InstrumentIsInOrder(s: Snapshot, k: nat)
    requires k < |s.instruments|
    ensures var f, x, at := SnapshotFields(s), s.instruments[k], 4 + 7 * k;
            && at + 1 < |f|
            && f[at] == Ascii(if x.market == Kospi then "KOSPI" else "KOSDAQ") && f[at + 1] == Utf8(x.symbol)
  {
    FieldAt(s, k, 0);
    FieldAt(s, k, 1);
  }

  /** Its standard code and name. */
  lemma NamesAreInOrder(s: Snapshot, k: nat)
    requires k < |s.instruments|
    ensures var f, x, at := SnapshotFields(s), s.instruments[k], 4 + 7 * k;
            at + 3 < |f| && f[at + 2] == Utf8(x.standardCode) && f[at + 3] == Utf8(x.name)
  {
    FieldAt(s, k, 2);
    FieldAt(s, k, 3);
  }

  /** And its three class codes. */
  lemma ClassCodesAreInOrder(s: Snapshot, k: nat)
    requires k < |s.instruments|
    ensures var f, x, at := SnapshotFields(s), s.instruments[k], 4 + 7 * k;
            && at + 6 < |f|
            && f[at + 4] == Utf8(x.securityGroup) && f[at + 5] == Utf8(x.etpClass) && f[at + 6] == Utf8(x.preferredClass)
  {
    FieldAt(s, k, 4);
    FieldAt(s, k, 5);
    FieldAt(s, k, 6);
  }

  lemma ActivationIsInOrder(a: Activation)
    ensures var f := ActivationFields(a);
            && |f| == 9 && f[0] == Ascii(ACTIVATION_TAG) && f[1] == a.snapshotId && f[2] == a.sourceHash
            && f[3] == Utf8(IsoMoment(a.sourceModifiedAt)) && f[4] == Utf8(IsoDate(a.tradingDate))
            && f[5] == Utf8(IsoMoment(a.activatedAt)) && f[6] == Utf8(IsoMoment(a.validFrom))
            && f[7] == Utf8(IsoMoment(a.validUntil)) && f[8] == a.calendarHash
  {
  }
}
