/** Text as the canonical forms need it: the order of strings, fixed-width dates, JSON string
    literals and UTF-8, each with the law that makes it unambiguous. */
module Text {

  // ---- Order by code point ----

  predicate Less(a: string, b: string) {
    b != "" && (a == "" || a[0] < b[0] || (a[0] == b[0] && Less(a[1..], b[1..])))
  }

  lemma {:induction false} LessTransitive(a: string, b: string, c: string)
    requires Less(a, b) && Less(b, c)
    ensures Less(a, c)
  {
    if a != "" && a[0] == b[0] == c[0] {
      LessTransitive(a[1..], b[1..], c[1..]);
    }
  }

  lemma {:induction false} LessTotal(a: string, b: string)
    ensures Less(a, b) || Less(b, a) || a == b
    ensures !(Less(a, b) && Less(b, a)) && !Less(a, a)
  {
    if a != "" && b != "" {
      LessTotal(a[1..], b[1..]);
      LessTotal(a[1..], a[1..]);
      assert a == [a[0]] + a[1..] && b == [b[0]] + b[1..];
    } else if a != "" {
      LessTotal(a[1..], a[1..]);
    }
  }

  /** The order of a dictionary: at the first place they differ the smaller character, or the shorter text. */
  lemma {:induction false} LessMeans(a: string, b: string)
    ensures Less(a, b) <==>
              exists n :: 0 <= n <= |a| && n < |b| && a[..n] == b[..n] && (n == |a| || a[n] < b[n])
  {
    if a != "" && b != "" && a[0] == b[0] {
      LessMeans(a[1..], b[1..]);
      if n :| 0 <= n <= |a[1..]| && n < |b[1..]| && a[1..][..n] == b[1..][..n] && (n == |a[1..]| || a[1..][n] < b[1..][n]) {
        assert a[..n + 1] == [a[0]] + a[1..][..n] && b[..n + 1] == [b[0]] + b[1..][..n];
      }
      if n :| 0 <= n <= |a| && n < |b| && a[..n] == b[..n] && (n == |a| || a[n] < b[n]) {
        assert n > 0;
        assert a[1..][..n - 1] == a[..n][1..] && b[1..][..n - 1] == b[..n][1..];
      }
    } else {
      assert a[..0] == b[..0];
      assert forall n :: 0 < n <= |a| && n < |b| ==> a[..n][0] == a[0] && b[..n][0] == b[0];
    }
  }

  // ---- Trimmed text ----

  /** What stripping a text takes off its ends. */
  predicate Space(c: char) {
    var n := c as int;
    || 9 <= n <= 13 || 28 <= n <= 32 || n == 0x85 || n == 0xA0 || n == 0x1680 || 0x2000 <= n <= 0x200A
    || n == 0x2028 || n == 0x2029 || n == 0x202F || n == 0x205F || n == 0x3000
  }

  predicate Trimmed(s: string) { s != "" && !Space(s[0]) && !Space(s[|s| - 1]) }

  /** Stripping: spaces taken off the front, then off the end. */
  function StripFront(s: string): string { if s != "" && Space(s[0]) then StripFront(s[1..]) else s }

  function StripEnd(s: string): string { if s != "" && Space(s[|s| - 1]) then StripEnd(s[..|s| - 1]) else s }

  function Strip(s: string): string { StripEnd(StripFront(s)) }

  lemma {:induction false} StripFrontShortens(s: string)
    ensures |StripFront(s)| <= |s| && (|StripFront(s)| == |s| <==> s == "" || !Space(s[0]))
    ensures |StripFront(s)| == |s| ==> StripFront(s) == s
  {
    if s != "" && Space(s[0]) {
      StripFrontShortens(s[1..]);
    }
  }

  lemma {:induction false} StripEndShortens(s: string)
    ensures |StripEnd(s)| <= |s| && (|StripEnd(s)| == |s| <==> s == "" || !Space(s[|s| - 1]))
  {
    if s != "" && Space(s[|s| - 1]) {
      StripEndShortens(s[..|s| - 1]);
    }
  }

  /** A text is trimmed exactly when it is not empty and stripping leaves it as it is. */
  lemma TrimmedIff(s: string)
    ensures Trimmed(s) <==> s != "" && Strip(s) == s
  {
    StripFrontShortens(s);
    StripEndShortens(StripFront(s));
  }

  // ---- Fixed-width numbers and dates ----

  function Digit(n: nat): char
    requires n < 10
  {
    '0' + n as char
  }

  function Digits(n: nat, width: nat): (r: string)
    ensures |r| == width
  {
    if width == 0 then "" else Digits(n / 10, width - 1) + [Digit(n % 10)]
  }

  predicate FitsIn(n: nat, width: nat) { if width == 0 then n == 0 else FitsIn(n / 10, width - 1) }

  lemma {:induction false} DigitsInjective(m: nat, n: nat, width: nat)
    requires FitsIn(m, width) && FitsIn(n, width) && Digits(m, width) == Digits(n, width)
    ensures m == n
  {
    if width > 0 {
      assert Digits(m, width)[..width - 1] == Digits(m / 10, width - 1);
      assert Digits(n, width)[..width - 1] == Digits(n / 10, width - 1);
      DigitsInjective(m / 10, n / 10, width - 1);
      assert Digits(m, width)[width - 1] == Digit(m % 10) && Digits(n, width)[width - 1] == Digit(n % 10);
      assert m == 10 * (m / 10) + m % 10 && n == 10 * (n / 10) + n % 10;
    }
  }

  /** A decimal numeral read from the left. */
  function Numeral(s: string): int {
    if s == "" then 0 else 10 * Numeral(s[..|s| - 1]) + (s[|s| - 1] as int - '0' as int)
  }

  lemma {:induction false} DigitsRead(n: nat, width: nat)
    requires FitsIn(n, width)
    ensures Numeral(Digits(n, width)) == n
  {
    if width > 0 {
      var s := Digits(n, width);
      assert s[..|s| - 1] == Digits(n / 10, width - 1);
      DigitsRead(n / 10, width - 1);
      assert n == 10 * (n / 10) + n % 10;
    }
  }

  datatype Date = Date(year: nat, month: nat, day: nat)

  predicate RealDate(d: Date) { 1 <= d.year <= 9999 && 1 <= d.month <= 12 && 1 <= d.day <= 31 }

  function IsoDate(d: Date): (r: string)
    ensures |r| == 10
  {
    Digits(d.year, 4) + "-" + Digits(d.month, 2) + "-" + Digits(d.day, 2)
  }

  lemma FitsTwo(n: nat)
    requires n < 100
    ensures FitsIn(n, 2)
  {
    assert n / 10 < 10;
    assert FitsIn(n / 10 / 10, 0);
    assert FitsIn(n / 10, 1);
  }

  lemma FitsFour(n: nat)
    requires n < 10000
    ensures FitsIn(n, 4)
  {
    FitsTwo(n / 10 / 10);
    assert FitsIn(n / 10, 3);
  }

  lemma TwoDigits(m: nat, n: nat)
    requires m < 100 && n < 100 && Digits(m, 2) == Digits(n, 2)
    ensures m == n
  {
    FitsTwo(m);
    FitsTwo(n);
    DigitsInjective(m, n, 2);
  }

  lemma FourDigits(m: nat, n: nat)
    requires m < 10000 && n < 10000 && Digits(m, 4) == Digits(n, 4)
    ensures m == n
  {
    FitsFour(m);
    FitsFour(n);
    DigitsInjective(m, n, 4);
  }

  lemma IsoDateInjective(d: Date, e: Date)
    requires RealDate(d) && RealDate(e) && IsoDate(d) == IsoDate(e)
    ensures d == e
  {
    assert forall x: Date :: IsoDate(x)[..4] == Digits(x.year, 4);
    assert forall x: Date :: IsoDate(x)[5..7] == Digits(x.month, 2);
    assert forall x: Date :: IsoDate(x)[8..10] == Digits(x.day, 2);
    FourDigits(d.year, e.year);
    TwoDigits(d.month, e.month);
    TwoDigits(d.day, e.day);
  }

  /** Year, month and day are where a date has them. */
  lemma IsoDateReads(d: Date)
    requires RealDate(d)
    ensures var s := IsoDate(d);
            && Numeral(s[..4]) == d.year && s[4] == '-' && Numeral(s[5..7]) == d.month && s[7] == '-'
            && Numeral(s[8..10]) == d.day
  {
    var s := IsoDate(d);
    assert s[..4] == Digits(d.year, 4) && s[5..7] == Digits(d.month, 2) && s[8..10] == Digits(d.day, 2);
    FitsFour(d.year);
    FitsTwo(d.month);
    FitsTwo(d.day);
    DigitsRead(d.year, 4);
    DigitsRead(d.month, 2);
    DigitsRead(d.day, 2);
  }

  /** A whole-second UTC moment. */
  datatype Moment = Moment(date: Date, hour: nat, minute: nat, second: nat)

  predicate RealMoment(m: Moment) { RealDate(m.date) && m.hour < 24 && m.minute < 60 && m.second < 60 }

  function IsoMoment(m: Moment): (r: string)
    ensures |r| == 25
  {
    IsoDate(m.date) + "T" + Digits(m.hour, 2) + ":" + Digits(m.minute, 2) + ":" + Digits(m.second, 2) + "+00:00"
  }

  lemma IsoMomentParts(m: Moment)
    ensures IsoMoment(m)[..10] == IsoDate(m.date)
    ensures IsoMoment(m)[11..13] == Digits(m.hour, 2)
    ensures IsoMoment(m)[14..16] == Digits(m.minute, 2)
    ensures IsoMoment(m)[17..19] == Digits(m.second, 2)
  {
  }

  lemma IsoMomentReads(m: Moment)
    requires RealMoment(m)
    ensures var s := IsoMoment(m);
            && s[..10] == IsoDate(m.date) && s[10] == 'T' && s[13] == ':' && s[16] == ':' && s[19..] == "+00:00"
            && Numeral(s[11..13]) == m.hour && Numeral(s[14..16]) == m.minute && Numeral(s[17..19]) == m.second
  {
    IsoMomentParts(m);
    FitsTwo(m.hour);
    FitsTwo(m.minute);
    FitsTwo(m.second);
    DigitsRead(m.hour, 2);
    DigitsRead(m.minute, 2);
    DigitsRead(m.second, 2);
  }

  lemma IsoMomentInjective(m: Moment, n: Moment)
    requires RealMoment(m) && RealMoment(n) && IsoMoment(m) == IsoMoment(n)
    ensures m == n
  {
    IsoMomentParts(m);
    IsoMomentParts(n);
    IsoDateInjective(m.date, n.date);
    TwoDigits(m.hour, n.hour);
    TwoDigits(m.minute, n.minute);
    TwoDigits(m.second, n.second);
  }

  // ---- JSON string literals ----

  function Hex(n: nat): char
    requires n < 16
  {
    if n < 10 then '0' + n as char else 'a' + (n - 10) as char
  }

  /** The letter of a two-character escape. */
  function Letter(c: char): char {
    match c
    case '\"' => '\"'
    case '\\' => '\\'
    case '\n' => 'n'
    case '\r' => 'r'
    case '\t' => 't'
    case _ => if c as int == 8 then 'b' else 'f'
  }

  predicate Short(c: char) { c in "\"\\\n\r\t" || c as int == 8 || c as int == 12 }

  function Escape(c: char): string {
    if Short(c) then ['\\', Letter(c)]
    else if c as int < 32 then ['\\', 'u', '0', '0', Hex(c as int / 16), Hex(c as int % 16)]
    else [c]
  }

  /** The literal from after its opening quote: the escaped text and the closing quote. */
  function Body(s: string): string {
    if s == "" then "\"" else Escape(s[0]) + Body(s[1..])
  }

  function Quote(s: string): string { "\"" + Body(s) }

  /** The escapes JSON names, the numbered ones, and everything else as itself. */
  lemma EscapesAre(c: char)
    ensures c == '\"' ==> Escape(c) == ['\\', '\"']
    ensures c == '\\' ==> Escape(c) == ['\\', '\\']
    ensures c == '\n' ==> Escape(c) == ['\\', 'n']
    ensures c == '\r' ==> Escape(c) == ['\\', 'r']
    ensures c == '\t' ==> Escape(c) == ['\\', 't']
    ensures c as int == 8 ==> Escape(c) == ['\\', 'b']
    ensures c as int == 12 ==> Escape(c) == ['\\', 'f']
    ensures c as int >= 32 && c != '\"' && c != '\\' ==> Escape(c) == [c]
    ensures c as int < 32 && !Short(c) ==>
              |Escape(c)| == 6 && Escape(c)[..4] == ['\\', 'u', '0', '0'] && HexValue(Escape(c)[4]) * 16 + HexValue(Escape(c)[5]) == c as int
  {
  }

  /** What a hexadecimal digit stands for. */
  function HexValue(c: char): int { if c <= '9' then c as int - '0' as int else c as int - 'a' as int + 10 }

  lemma LetterInjective(c: char, d: char)
    requires Short(c) && Short(d) && Letter(c) == Letter(d)
    ensures c == d && Letter(c) != 'u'
  {
  }

  lemma ControlInjective(c: char, d: char)
    requires c as int < 32 && d as int < 32
    requires Hex(c as int / 16) == Hex(d as int / 16) && Hex(c as int % 16) == Hex(d as int % 16)
    ensures c == d
  {
  }

  lemma EscapeSplits(c: char, d: char, x: string, y: string)
    requires Escape(c) + x == Escape(d) + y
    ensures c == d && x == y
  {
    var left, right := Escape(c) + x, Escape(d) + y;
    assert left[0] == Escape(c)[0] && right[0] == Escape(d)[0];
    if left[0] == '\\' {
      assert left[1] == Escape(c)[1] && right[1] == Escape(d)[1];
      if Short(c) || Short(d) {
        if Short(c) { LetterInjective(c, c); }
        if Short(d) { LetterInjective(d, d); }
        LetterInjective(c, d);
      } else {
        assert left[4] == Escape(c)[4] && right[4] == Escape(d)[4];
        assert left[5] == Escape(c)[5] && right[5] == Escape(d)[5];
        ControlInjective(c, d);
      }
    }
    assert left[|Escape(c)|..] == x && right[|Escape(d)|..] == y;
  }

  lemma BodyStep(s: string, x: string)
    requires s != ""
    ensures Body(s) + x == Escape(s[0]) + (Body(s[1..]) + x)
  {
  }

  /** Only the closing quote is a bare quote. */
  lemma BodyHead(s: string, x: string)
    ensures Body(s) != "" && ((Body(s) + x)[0] == '\"' <==> s == "")
  {
    assert (Body(s) + x)[0] == Body(s)[0];
    if s != "" {
      assert Body(s)[0] == Escape(s[0])[0];
    }
  }

  lemma {:induction false} BodySplits(s: string, t: string, x: string, y: string)
    requires Body(s) + x == Body(t) + y
    ensures s == t && x == y
    decreases |s|
  {
    BodyHead(s, x);
    BodyHead(t, y);
    if s == "" {
      assert (Body(s) + x)[1..] == x && (Body(t) + y)[1..] == y;
    } else {
      BodyStep(s, x);
      BodyStep(t, y);
      EscapeSplits(s[0], t[0], Body(s[1..]) + x, Body(t[1..]) + y);
      BodySplits(s[1..], t[1..], x, y);
      assert s == [s[0]] + s[1..] && t == [t[0]] + t[1..];
    }
  }

  lemma Unquoted(a: string, x: string, b: string, y: string)
    requires ("\"" + a) + x == ("\"" + b) + y
    ensures a + x == b + y
  {
    assert (("\"" + a) + x)[1..] == a + x && (("\"" + b) + y)[1..] == b + y;
  }

  /** A literal can be told from what follows it, whatever follows. */
  lemma QuoteSplits(s: string, t: string, x: string, y: string)
    requires Quote(s) + x == Quote(t) + y
    ensures s == t && x == y
  {
    Unquoted(Body(s), x, Body(t), y);
    BodySplits(s, t, x, y);
  }

  /** Every character escaped in turn. */
  function Escaped(s: string): string { if s == "" then "" else Escaped(s[..|s| - 1]) + Escape(s[|s| - 1]) }

  lemma {:induction false} EscapedFromTheFront(s: string)
    requires s != ""
    ensures Escaped(s) == Escape(s[0]) + Escaped(s[1..])
  {
    if |s| > 1 {
      var front := s[..|s| - 1];
      EscapedFromTheFront(front);
      assert front[1..] == s[1..][..|s[1..]| - 1];
    } else {
      assert s[..0] == "" && s[1..] == "";
    }
  }

  /** A literal is its text escaped, between two quotes. */
  lemma {:induction false} QuoteIs(s: string)
    ensures Quote(s) == "\"" + Escaped(s) + "\""
  {
    BodyIs(s);
  }

  lemma {:induction false} BodyIs(s: string)
    ensures Body(s) == Escaped(s) + "\""
  {
    if s != "" {
      EscapedFromTheFront(s);
      BodyIs(s[1..]);
    }
  }

  // ---- UTF-8 ----

  type Byte = n: int | 0 <= n < 256

  /** A continuation byte: six bits of the code point. */
  function Tail(n: nat): Byte { 128 + n % 64 }

  /** The code point in one to four bytes. */
  function Utf8Char(c: char): (r: seq<Byte>)
    ensures 1 <= |r| <= 4
  {
    var n := c as int;
    if n < 0x80 then [n]
    else if n < 0x800 then [192 + n / 64, Tail(n)]
    else if n < 0x10000 then [224 + n / 4096, Tail(n / 64), Tail(n)]
    else [240 + n / 262144, Tail(n / 4096), Tail(n / 64), Tail(n)]
  }

  function Utf8(s: string): seq<Byte> {
    if s == "" then [] else Utf8Char(s[0]) + Utf8(s[1..])
  }

  /** How many bytes a leading byte announces. */
  function Announced(b: Byte): nat {
    if b < 0x80 then 1 else if b < 0xE0 then 2 else if b < 0xF0 then 3 else 4
  }

  /** The bits of the code point are where UTF-8 puts them: seven, or five, four or three in the leading byte
      and six in each that follows. */
  lemma Utf8Reads(c: char)
    ensures var r := Utf8Char(c);
            && (|r| == 1 ==> r[0] as int == c as int && c as int < 0x80)
            && (|r| == 2 ==> (r[0] as int - 0xC0) * 64 + (r[1] as int - 0x80) == c as int)
            && (|r| == 3 ==> ((r[0] as int - 0xE0) * 64 + (r[1] as int - 0x80)) * 64 + (r[2] as int - 0x80) == c as int)
            && (|r| == 4 ==>
                  (((r[0] as int - 0xF0) * 64 + (r[1] as int - 0x80)) * 64 + (r[2] as int - 0x80)) * 64 + (r[3] as int - 0x80)
                  == c as int)
            && (forall k :: 1 <= k < |r| ==> 0x80 <= r[k] < 0xC0)
  {
    Quarters(c as int);
  }

  lemma LeadingByte(c: char)
    ensures Announced(Utf8Char(c)[0]) == |Utf8Char(c)|
  {
  }

  lemma SixBits(m: nat, n: nat)
    requires m / 64 == n / 64 && Tail(m) == Tail(n)
    ensures m == n
  {
  }

  lemma Quarters(n: nat)
    ensures n / 64 / 64 == n / 4096 && n / 4096 / 64 == n / 262144
  {
  }

  lemma Utf8CharInjective(c: char, d: char)
    requires Utf8Char(c) == Utf8Char(d)
    ensures c == d
  {
    var m, n := c as int, d as int;
    Quarters(m);
    Quarters(n);
    if |Utf8Char(c)| == 2 {
      SixBits(m, n);
    } else if |Utf8Char(c)| == 3 {
      SixBits(m / 64, n / 64);
      SixBits(m, n);
    } else if |Utf8Char(c)| == 4 {
      SixBits(m / 4096, n / 4096);
      SixBits(m / 64, n / 64);
      SixBits(m, n);
    }
  }

  lemma Utf8CharSplits(c: char, d: char, x: seq<Byte>, y: seq<Byte>)
    requires Utf8Char(c) + x == Utf8Char(d) + y
    ensures c == d && x == y
  {
    LeadingByte(c);
    LeadingByte(d);
    var left, right, n := Utf8Char(c) + x, Utf8Char(d) + y, |Utf8Char(c)|;
    assert left[0] == Utf8Char(c)[0] && right[0] == Utf8Char(d)[0];
    assert left[..n] == Utf8Char(c) && right[..n] == Utf8Char(d);
    assert left[n..] == x && right[n..] == y;
    Utf8CharInjective(c, d);
  }

  /** Two texts with the same bytes are the same text. */
  lemma {:induction false} Utf8Injective(s: string, t: string)
    requires Utf8(s) == Utf8(t)
    ensures s == t
  {
    if s != "" && t != "" {
      Utf8CharSplits(s[0], t[0], Utf8(s[1..]), Utf8(t[1..]));
      Utf8Injective(s[1..], t[1..]);
      assert s == [s[0]] + s[1..] && t == [t[0]] + t[1..];
    }
  }
}
