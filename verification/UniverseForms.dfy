/** The canonical form of a universe and the comparison of two, and how the two agree. */
module UniverseForms {
  import opened Common
  import opened Sequences
  import opened Text
  import opened TextOrder
  import opened Universe

  // ---- The canonical text ----

  const FLAG_KEY := "{\"common_stock\":"
  const SECTOR_KEY := ",\"sector\":"
  const SYMBOL_KEY := ",\"symbol\":"
  const DATE_KEY := "{\"effective_date\":"
  const MEMBERS_KEY := ",\"members\":["
  const CODE_KEY := ",\"universe_code\":"

  function FlagText(flag: Option<bool>): string {
    match flag
    case None => "null"
    case Some(b) => if b then "true" else "false"
  }

  function SectorText(sector: Option<string>): string {
    match sector
    case None => "null"
    case Some(s) => Quote(s)
  }

  /** One member object: keys sorted, separators pinned. */
  function MemberText(m: Member): string {
    FLAG_KEY + (FlagText(m.common) + (SECTOR_KEY + (SectorText(m.sector) + (SYMBOL_KEY + (Quote(m.symbol) + "}")))))
  }

  /** What follows a member in the list. */
  function TailText(ms: seq<Member>): string {
    if ms == [] then "]" else "," + (MemberText(ms[0]) + TailText(ms[1..]))
  }

  /** The list from after its opening bracket. */
  function MembersText(ms: seq<Member>): string {
    if ms == [] then "]" else MemberText(ms[0]) + TailText(ms[1..])
  }

  function MembersInOrder(m: Manifest): seq<Member> { SortBy(m.members, BySymbol()) }

  function CanonicalText(m: Manifest): string {
    DATE_KEY + (Quote(IsoDate(m.date)) + (MEMBERS_KEY + (MembersText(MembersInOrder(m)) + (CODE_KEY + (Quote(m.code) + "}")))))
  }

  function CanonicalBytes(m: Manifest): seq<Byte> { Utf8(CanonicalText(m)) }

  // ---- The text can be taken apart again ----

  lemma PrefixDrops(p: string, x: string, y: string)
    requires p + x == p + y
    ensures x == y
  {
    assert (p + x)[|p|..] == x && (p + y)[|p|..] == y;
  }

  lemma Assoc(p: string, q: string, x: string)
    ensures (p + q) + x == p + (q + x)
  {
  }

  lemma EqualPrefix(p: string, q: string, x: string, y: string)
    requires p + x == q + y && |p| == |q|
    ensures p == q && x == y
  {
    assert (p + x)[..|p|] == p && (q + y)[..|q|] == q;
    assert (p + x)[|p|..] == x && (q + y)[|q|..] == y;
  }

  lemma FlagHead(flag: Option<bool>, x: string)
    ensures (FlagText(flag) + x)[0] == if flag == None then 'n' else if flag.value then 't' else 'f'
  {
  }

  lemma FlagSplits(a: Option<bool>, b: Option<bool>, x: string, y: string)
    requires FlagText(a) + x == FlagText(b) + y
    ensures a == b && x == y
  {
    FlagHead(a, x);
    FlagHead(b, y);
    EqualPrefix(FlagText(a), FlagText(b), x, y);
  }

  lemma SectorHead(sector: Option<string>, x: string)
    ensures SectorText(sector) + x != "" && ((SectorText(sector) + x)[0] == 'n' <==> sector == None)
  {
    assert (SectorText(sector) + x)[0] == SectorText(sector)[0];
  }

  lemma SectorSplits(a: Option<string>, b: Option<string>, x: string, y: string)
    requires SectorText(a) + x == SectorText(b) + y
    ensures a == b && x == y
  {
    SectorHead(a, x);
    SectorHead(b, y);
    if a == None {
      PrefixDrops("null", x, y);
    } else {
      QuoteSplits(a.value, b.value, x, y);
    }
  }

  /** The member text regrouped so that each part is followed by all the rest. */
  lemma Regroup(k1: string, f: string, k2: string, s: string, k3: string, q: string, k4: string, x: string)
    ensures (k1 + (f + (k2 + (s + (k3 + (q + k4)))))) + x == k1 + (f + (k2 + (s + (k3 + (q + (k4 + x))))))
  {
    Assoc(q, k4, x);
    Assoc(k3, q + k4, x);
    Assoc(s, k3 + (q + k4), x);
    Assoc(k2, s + (k3 + (q + k4)), x);
    Assoc(f, k2 + (s + (k3 + (q + k4))), x);
    Assoc(k1, f + (k2 + (s + (k3 + (q + k4)))), x);
  }

  /** Flag, sector and symbol between fixed keys, whatever the keys are. */
  lemma PartsSplit(k1: string, k2: string, k3: string, k4: string, m: Member, n: Member, x: string, y: string)
    requires k1 + (FlagText(m.common) + (k2 + (SectorText(m.sector) + (k3 + (Quote(m.symbol) + (k4 + x)))))) ==
             k1 + (FlagText(n.common) + (k2 + (SectorText(n.sector) + (k3 + (Quote(n.symbol) + (k4 + y))))))
    ensures m == n && x == y
  {
    var qm, qn := Quote(m.symbol) + (k4 + x), Quote(n.symbol) + (k4 + y);
    var sm, sn := SectorText(m.sector) + (k3 + qm), SectorText(n.sector) + (k3 + qn);
    PrefixDrops(k1, FlagText(m.common) + (k2 + sm), FlagText(n.common) + (k2 + sn));
    FlagSplits(m.common, n.common, k2 + sm, k2 + sn);
    PrefixDrops(k2, sm, sn);
    SectorSplits(m.sector, n.sector, k3 + qm, k3 + qn);
    PrefixDrops(k3, qm, qn);
    QuoteSplits(m.symbol, n.symbol, k4 + x, k4 + y);
    PrefixDrops(k4, x, y);
  }

  lemma {:induction false} MemberSplits(m: Member, n: Member, x: string, y: string)
    requires MemberText(m) + x == MemberText(n) + y
    ensures m == n && x == y
  {
    Regroup(FLAG_KEY, FlagText(m.common), SECTOR_KEY, SectorText(m.sector), SYMBOL_KEY, Quote(m.symbol), "}", x);
    Regroup(FLAG_KEY, FlagText(n.common), SECTOR_KEY, SectorText(n.sector), SYMBOL_KEY, Quote(n.symbol), "}", y);
    PartsSplit(FLAG_KEY, SECTOR_KEY, SYMBOL_KEY, "}", m, n, x, y);
  }

  lemma TailHead(ms: seq<Member>, x: string)
    ensures TailText(ms) != "" && ((TailText(ms) + x)[0] == ']' <==> ms == [])
  {
  }

  lemma {:induction false} TailStep(ms: seq<Member>, x: string)
    requires ms != []
    ensures TailText(ms) + x == "," + (MemberText(ms[0]) + (TailText(ms[1..]) + x))
  {
    Assoc(MemberText(ms[0]), TailText(ms[1..]), x);
    Assoc(",", MemberText(ms[0]) + TailText(ms[1..]), x);
  }

  lemma {:induction false} TailStepSplits(ms: seq<Member>, ns: seq<Member>, x: string, y: string)
    requires ms != [] && ns != [] && TailText(ms) + x == TailText(ns) + y
    ensures ms[0] == ns[0] && TailText(ms[1..]) + x == TailText(ns[1..]) + y
  {
    TailStep(ms, x);
    TailStep(ns, y);
    PrefixDrops(",", MemberText(ms[0]) + (TailText(ms[1..]) + x), MemberText(ns[0]) + (TailText(ns[1..]) + y));
    MemberSplits(ms[0], ns[0], TailText(ms[1..]) + x, TailText(ns[1..]) + y);
  }

  lemma {:induction false} TailSplits(ms: seq<Member>, ns: seq<Member>, x: string, y: string)
    requires TailText(ms) + x == TailText(ns) + y
    ensures ms == ns && x == y
    decreases |ms|
  {
    TailHead(ms, x);
    TailHead(ns, y);
    if ms == [] {
      PrefixDrops("]", x, y);
    } else {
      TailStepSplits(ms, ns, x, y);
      TailSplits(ms[1..], ns[1..], x, y);
      HeadAndRest(ms, ns);
    }
  }

  lemma MembersHead(ms: seq<Member>, x: string)
    ensures MembersText(ms) != "" && ((MembersText(ms) + x)[0] == ']' <==> ms == [])
  {
    if ms != [] {
      assert MembersText(ms)[0] == MemberText(ms[0])[0] == FLAG_KEY[0];
    }
  }

  lemma {:induction false} FirstMemberSplits(ms: seq<Member>, ns: seq<Member>, x: string, y: string)
    requires ms != [] && ns != [] && MembersText(ms) + x == MembersText(ns) + y
    ensures ms[0] == ns[0] && TailText(ms[1..]) + x == TailText(ns[1..]) + y
  {
    Assoc(MemberText(ms[0]), TailText(ms[1..]), x);
    Assoc(MemberText(ns[0]), TailText(ns[1..]), y);
    MemberSplits(ms[0], ns[0], TailText(ms[1..]) + x, TailText(ns[1..]) + y);
  }

  lemma {:induction false} SomeMembersSplit(ms: seq<Member>, ns: seq<Member>, x: string, y: string)
    requires ms != [] && ns != [] && MembersText(ms) + x == MembersText(ns) + y
    ensures ms == ns && x == y
  {
    FirstMemberSplits(ms, ns, x, y);
    TailSplits(ms[1..], ns[1..], x, y);
    HeadAndRest(ms, ns);
  }

  lemma {:induction false} HeadAndRest(ms: seq<Member>, ns: seq<Member>)
    requires ms != [] && ns != [] && ms[0] == ns[0] && ms[1..] == ns[1..]
    ensures ms == ns
  {
    assert ms == [ms[0]] + ms[1..] && ns == [ns[0]] + ns[1..];
  }

  lemma {:induction false} NoMembersSplit(x: string, y: string)
    requires MembersText([]) + x == MembersText([]) + y
    ensures x == y
  {
    PrefixDrops("]", x, y);
  }

  lemma {:induction false} MembersSplits(ms: seq<Member>, ns: seq<Member>, x: string, y: string)
    requires MembersText(ms) + x == MembersText(ns) + y
    ensures ms == ns && x == y
  {
    MembersHead(ms, x);
    MembersHead(ns, y);
    if ms == [] {
      NoMembersSplit(x, y);
    } else {
      SomeMembersSplit(ms, ns, x, y);
    }
  }

  lemma {:induction false} TextSplits(k1: string, k2: string, k3: string, k4: string, m: Manifest, n: Manifest)
    requires k1 + (Quote(IsoDate(m.date)) + (k2 + (MembersText(MembersInOrder(m)) + (k3 + (Quote(m.code) + k4))))) ==
             k1 + (Quote(IsoDate(n.date)) + (k2 + (MembersText(MembersInOrder(n)) + (k3 + (Quote(n.code) + k4)))))
    ensures IsoDate(m.date) == IsoDate(n.date) && MembersInOrder(m) == MembersInOrder(n) && m.code == n.code
  {
    var cm, cn := k3 + (Quote(m.code) + k4), k3 + (Quote(n.code) + k4);
    var mm, mn := k2 + (MembersText(MembersInOrder(m)) + cm), k2 + (MembersText(MembersInOrder(n)) + cn);
    PrefixDrops(k1, Quote(IsoDate(m.date)) + mm, Quote(IsoDate(n.date)) + mn);
    QuoteSplits(IsoDate(m.date), IsoDate(n.date), mm, mn);
    PrefixDrops(k2, MembersText(MembersInOrder(m)) + cm, MembersText(MembersInOrder(n)) + cn);
    MembersSplits(MembersInOrder(m), MembersInOrder(n), cm, cn);
    PrefixDrops(k3, Quote(m.code) + k4, Quote(n.code) + k4);
    QuoteSplits(m.code, n.code, k4, k4);
  }

  /** The bytes determine the authority, the date and the members in symbol order, and nothing else:
      a single changed symbol never digests the same. */
  lemma {:induction false} CanonicalIsUnambiguous(m: Manifest, n: Manifest)
    requires RealDate(m.date) && RealDate(n.date)
    ensures CanonicalBytes(m) == CanonicalBytes(n) <==>
            m.code == n.code && m.date == n.date && MembersInOrder(m) == MembersInOrder(n)
  {
    if CanonicalBytes(m) == CanonicalBytes(n) {
      Utf8Injective(CanonicalText(m), CanonicalText(n));
      TextSplits(DATE_KEY, MEMBERS_KEY, CODE_KEY, "}", m, n);
      IsoDateInjective(m.date, n.date);
    }
  }

  // ---- Comparing ----

  type Members = map<string, Member>

  /** Members by symbol; a repeated symbol keeps its last line. */
  function ByName(ms: seq<Member>): Members {
    if ms == [] then map[] else ByName(ms[..|ms| - 1])[ms[|ms| - 1].symbol := ms[|ms| - 1]]
  }

  datatype Difference = Difference(added: seq<string>, removed: seq<string>, changed: seq<string>)

  predicate Identical(d: Difference) { d.added == [] && d.removed == [] && d.changed == [] }

  datatype CompareError = DifferentAuthorities

  function Symbols(ms: seq<Member>): (r: seq<string>)
    ensures |r| == |ms|
  {
    seq(|ms|, i requires 0 <= i < |ms| => ms[i].symbol)
  }

  /** Each symbol once, where it first stands. */
  function Once(s: seq<string>): seq<string> {
    if s == [] then []
    else
      var front := Once(s[..|s| - 1]);
      if s[|s| - 1] in front then front else front + [s[|s| - 1]]
  }

  /** The chosen symbols as a set, sorted. */
  function Listed(ms: seq<Member>, choose: string -> bool): seq<string> {
    SortBy(Once(Filter(Symbols(ms), choose)), Itself())
  }

  function Missing(from: Members): string -> bool { (s: string) => s !in from }

  function Edited(before: Members, after: Members): string -> bool {
    (s: string) => s in before && s in after && before[s] != after[s]
  }

  function Compare(previous: Manifest, current: Manifest): Result<Difference, CompareError> {
    if previous.code != current.code then Err(DifferentAuthorities)
    else Ok(DifferenceOf(previous.members, current.members))
  }

  function DifferenceOf(previous: seq<Member>, current: seq<Member>): Difference {
    var before, after := ByName(previous), ByName(current);
    Difference(
      Listed(current, Missing(before)),
      Listed(previous, Missing(after)),
      Listed(current, Edited(before, after)))
  }

  lemma {:induction false} ByNameMeans(ms: seq<Member>, s: string)
    ensures s in ByName(ms) <==> s in Symbols(ms)
    ensures s in ByName(ms) ==> ByName(ms)[s].symbol == s && ByName(ms)[s] in ms
  {
    if ms != [] {
      var front, last := ms[..|ms| - 1], ms[|ms| - 1];
      ByNameMeans(front, s);
      assert ms == front + [last];
      assert Symbols(ms) == Symbols(front) + [last.symbol];
    }
  }

  lemma {:induction false} OnceMembers(s: seq<string>, x: string)
    ensures x in Once(s) <==> x in s
  {
    if s != [] {
      OnceMembers(s[..|s| - 1], x);
      assert s == s[..|s| - 1] + [s[|s| - 1]];
    }
  }

  lemma {:induction false} OnceIsDistinct(s: seq<string>)
    ensures DistinctKeys(Once(s), Itself())
  {
    if s != [] {
      OnceIsDistinct(s[..|s| - 1]);
      DistinctAppend(Once(s[..|s| - 1]), s[|s| - 1], Itself());
    }
  }

  lemma ListedMeans(ms: seq<Member>, choose: string -> bool, s: string)
    ensures s in Listed(ms, choose) <==> s in Symbols(ms) && choose(s)
    ensures Strictly(Listed(ms, choose), Itself())
  {
    FilterMembers(Symbols(ms), choose, s);
    OnceMembers(Filter(Symbols(ms), choose), s);
    OnceIsDistinct(Filter(Symbols(ms), choose));
    SortIsStrict(Once(Filter(Symbols(ms), choose)), Itself());
  }

  /** Each list holds exactly its symbols, ascending, none twice. */
  lemma {:induction false} DifferenceMeans(previous: seq<Member>, current: seq<Member>, s: string)
    ensures var d, before, after := DifferenceOf(previous, current), ByName(previous), ByName(current);
            && (s in d.added <==> s in after && s !in before)
            && (s in d.removed <==> s in before && s !in after)
            && (s in d.changed <==> s in before && s in after && before[s] != after[s])
            && Strictly(d.added, Itself()) && Strictly(d.removed, Itself()) && Strictly(d.changed, Itself())
  {
    var before, after := ByName(previous), ByName(current);
    ByNameMeans(previous, s);
    ByNameMeans(current, s);
    ListedMeans(current, Missing(before), s);
    ListedMeans(previous, Missing(after), s);
    ListedMeans(current, Edited(before, after), s);
  }

  /** Removing, adding and replacing what the comparison lists. */
  function Patched(before: Members, d: Difference, after: Members): Members {
    (map s | s in before && s !in d.removed :: before[s]) +
    (map s | s in after && (s in d.added || s in d.changed) :: after[s])
  }

  lemma PatchedAt(before: Members, d: Difference, after: Members, s: string)
    requires s in d.added <==> s in after && s !in before
    requires s in d.removed <==> s in before && s !in after
    requires s in d.changed <==> s in before && s in after && before[s] != after[s]
    ensures s in Patched(before, d, after) <==> s in after
    ensures s in after ==> Patched(before, d, after)[s] == after[s]
  {
  }

  /** The lists are enough to turn the previous members into the current ones. */
  lemma {:induction false} PatchGivesCurrent(previous: seq<Member>, current: seq<Member>)
    ensures Patched(ByName(previous), DifferenceOf(previous, current), ByName(current)) == ByName(current)
  {
    var before, after, d := ByName(previous), ByName(current), DifferenceOf(previous, current);
    var patched := Patched(before, d, after);
    forall s
      ensures s in patched <==> s in after
      ensures s in after ==> patched[s] == after[s]
    {
      DifferenceMeans(previous, current, s);
      PatchedAt(before, d, after, s);
    }
  }

  lemma NothingToPatch(before: Members, d: Difference, after: Members)
    requires Identical(d)
    ensures Patched(before, d, after) == before
  {
  }

  /** Anything listed is a symbol on which the two maps differ. */
  lemma {:induction false} ListedDiffers(previous: seq<Member>, current: seq<Member>)
    requires !Identical(DifferenceOf(previous, current))
    ensures ByName(previous) != ByName(current)
  {
    var d := DifferenceOf(previous, current);
    var some := if d.added != [] then d.added[0] else if d.removed != [] then d.removed[0] else d.changed[0];
    DifferenceMeans(previous, current, some);
  }

  lemma {:induction false} IdenticalIffSameMap(previous: seq<Member>, current: seq<Member>)
    ensures Identical(DifferenceOf(previous, current)) <==> ByName(previous) == ByName(current)
  {
    var d := DifferenceOf(previous, current);
    if Identical(d) {
      PatchGivesCurrent(previous, current);
      NothingToPatch(ByName(previous), d, ByName(current));
    } else {
      ListedDiffers(previous, current);
    }
  }

  // ---- The two agree ----

  /** Where no symbol stands twice, a member is on the list exactly when its symbol leads to it. */
  lemma {:induction false} ByNameHolds(ms: seq<Member>, m: Member)
    requires DistinctSymbols(ms)
    ensures m in ms <==> m.symbol in ByName(ms) && ByName(ms)[m.symbol] == m
  {
    if ms != [] {
      var front, last := ms[..|ms| - 1], ms[|ms| - 1];
      assert ms == front + [last];
      DistinctAppend(front, last, BySymbol());
      ByNameHolds(front, m);
      if m in front {
        var i :| 0 <= i < |front| && front[i] == m;
        assert BySymbol()(front[i]) != BySymbol()(last);
      }
    }
  }

  lemma SameMapIffSameMembers(a: seq<Member>, b: seq<Member>)
    requires DistinctSymbols(a) && DistinctSymbols(b)
    ensures ByName(a) == ByName(b) <==> forall m :: m in a <==> m in b
  {
    forall m
      ensures m in a <==> m.symbol in ByName(a) && ByName(a)[m.symbol] == m
      ensures m in b <==> m.symbol in ByName(b) && ByName(b)[m.symbol] == m
    {
      ByNameHolds(a, m);
      ByNameHolds(b, m);
    }
    forall s
      ensures s in ByName(a) ==> ByName(a)[s].symbol == s && ByName(a)[s] in a
      ensures s in ByName(b) ==> ByName(b)[s].symbol == s && ByName(b)[s] in b
    {
      ByNameMeans(a, s);
      ByNameMeans(b, s);
    }
    if forall m :: m in a <==> m in b {
      forall s
        ensures s in ByName(a) <==> s in ByName(b)
        ensures s in ByName(a) ==> ByName(a)[s] == ByName(b)[s]
      {
      }
    }
  }

  /** Where no symbol stands twice, the sorted list depends on the members only. */
  lemma SameOrderIffSameMembers(m: Manifest, n: Manifest)
    requires DistinctSymbols(m.members) && DistinctSymbols(n.members)
    ensures MembersInOrder(m) == MembersInOrder(n) <==> forall x :: x in m.members <==> x in n.members
  {
    SortIsStrict(m.members, BySymbol());
    SortIsStrict(n.members, BySymbol());
    if forall x :: x in m.members <==> x in n.members {
      StrictlyIsUnique(MembersInOrder(m), MembersInOrder(n), BySymbol());
    }
  }

  /** Reordering the members, or saying they came from elsewhere, does not change the digest. */
  lemma {:induction false} CanonicalIgnoresOrder(m: Manifest, n: Manifest)
    requires DistinctSymbols(m.members) && DistinctSymbols(n.members)
    requires m.code == n.code && m.date == n.date && multiset(m.members) == multiset(n.members)
    ensures CanonicalBytes(m) == CanonicalBytes(n)
  {
    forall x
      ensures x in m.members <==> x in n.members
    {
      assert x in m.members <==> x in multiset(m.members);
      assert x in n.members <==> x in multiset(n.members);
    }
    SameOrderIffSameMembers(m, n);
  }

  /** For one authority and one date, two manifests digest alike exactly when their comparison says
      they are identical. */
  lemma {:induction false} CanonicalEqualIffIdentical(m: Manifest, n: Manifest)
    requires RealDate(m.date) && m.code == n.code && m.date == n.date
    requires DistinctSymbols(m.members) && DistinctSymbols(n.members)
    ensures Compare(m, n).Ok?
    ensures CanonicalBytes(m) == CanonicalBytes(n) <==> Identical(Compare(m, n).value)
  {
    CanonicalIsUnambiguous(m, n);
    SameOrderIffSameMembers(m, n);
    SameMapIffSameMembers(m.members, n.members);
    IdenticalIffSameMap(m.members, n.members);
  }

  // ---- What the text is ----

  /** The members one after the other, with commas between. */
  function Listing(ms: seq<Member>): string {
    if ms == [] then "" else if |ms| == 1 then MemberText(ms[0]) else MemberText(ms[0]) + ("," + Listing(ms[1..]))
  }

  lemma {:induction false} TailIsListing(ms: seq<Member>)
    requires ms != []
    ensures TailText(ms) == "," + (Listing(ms) + "]")
  {
    if |ms| == 1 {
      assert ms[1..] == [];
    } else {
      TailIsListing(ms[1..]);
      Assoc(",", Listing(ms[1..]), "]");
      Assoc(MemberText(ms[0]), "," + Listing(ms[1..]), "]");
    }
  }

  lemma {:induction false} MembersTextIs(ms: seq<Member>)
    ensures MembersText(ms) == Listing(ms) + "]"
  {
    if |ms| == 1 {
      assert ms[1..] == [];
    } else if |ms| > 1 {
      TailIsListing(ms[1..]);
      Assoc(",", Listing(ms[1..]), "]");
      Assoc(MemberText(ms[0]), "," + Listing(ms[1..]), "]");
    }
  }

  /** One member as JSON writes it: its three keys in order, no spaces, null for what is missing. */
  lemma {:induction false} MemberTextIs(m: Member)
    ensures MemberText(m) ==
            "{\"common_stock\":" + ((if m.common == None then "null" else if m.common.value then "true" else "false") +
            (",\"sector\":" + ((if m.sector == None then "null" else Quote(m.sector.value)) +
            (",\"symbol\":" + (Quote(m.symbol) + "}")))))
  {
  }

  /** The whole text: date, then members in symbol order, then authority. */
  lemma {:induction false} CanonicalTextIs(m: Manifest)
    ensures CanonicalText(m) ==
            "{\"effective_date\":" + (Quote(IsoDate(m.date)) +
            (",\"members\":[" + ((Listing(MembersInOrder(m)) + "]") +
            (",\"universe_code\":" + (Quote(m.code) + "}")))))
  {
    MembersTextIs(MembersInOrder(m));
  }

  /** A repeated symbol keeps its last line. */
  lemma {:induction false} ByNameKeepsTheLast(ms: seq<Member>, i: nat)
    requires i < |ms| && forall k :: i < k < |ms| ==> ms[k].symbol != ms[i].symbol
    ensures ms[i].symbol in ByName(ms) && ByName(ms)[ms[i].symbol] == ms[i]
    decreases |ms|
  {
    if i < |ms| - 1 {
      ByNameKeepsTheLast(ms[..|ms| - 1], i);
    }
  }

  /** Only snapshots of one authority compare. */
  lemma ComparesIff(m: Manifest, n: Manifest)
    ensures Compare(m, n).Ok? <==> m.code == n.code
  {
  }
}
