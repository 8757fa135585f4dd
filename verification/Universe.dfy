/** Universe manifests: reading the member list, the canonical form the digest is taken over, and the
    comparison shown before activation. */
module Universe {
  import opened Common
  import opened Text
  import opened TextOrder

  datatype Member = Member(symbol: string, common: Option<bool>, sector: Option<string>)

  datatype Manifest = Manifest(code: string, date: Date, provenance: string, members: seq<Member>)

  function SymbolOf(m: Member): string { m.symbol }

  function BySymbol(): Member -> string { (m: Member) => SymbolOf(m) }

  predicate DistinctSymbols(ms: seq<Member>) { DistinctKeys(ms, BySymbol()) }

  // ---- Reading the member list ----

  datatype Json = Null | Text(text: string) | Flag(flag: bool) | Other

  datatype Entry = NotAnObject | Object(symbol: Json, common: Json, sector: Json)

  datatype Fault =
    | NotAList | NoMembers | TooManyMembers | MemberNotAnObject
    | NotText | NotTrimmed | TooLong | NotOneLine
    | FlagNeeded | FlagRefused | AppearsTwice

  const MAXIMUM_MEMBERS := 5000
  const MAXIMUM_SYMBOL := 32
  const MAXIMUM_SECTOR := 64

  predicate CommonShares(code: string) { code == "KOSPI200" || code == "SP100" }

  function ReadText(value: Json, maximum: nat): Result<string, Fault> {
    if !value.Text? then Err(NotText)
    else if !Trimmed(value.text) then Err(NotTrimmed)
    else if |value.text| > maximum then Err(TooLong)
    else if '\r' in value.text || '\n' in value.text || '\t' in value.text then Err(NotOneLine)
    else Ok(value.text)
  }

  function ReadFlag(value: Json, code: string): Result<Option<bool>, Fault> {
    if CommonShares(code) then if value.Flag? then Ok(Some(value.flag)) else Err(FlagNeeded)
    else if value != Null then Err(FlagRefused)
    else Ok(None)
  }

  function ReadSector(value: Json): Result<Option<string>, Fault> {
    if value == Null then Ok(None)
    else match ReadText(value, MAXIMUM_SECTOR)
      case Ok(text) => Ok(Some(text))
      case Err(fault) => Err(fault)
  }

  function ReadMember(entry: Entry, code: string): Result<Member, Fault> {
    if entry.NotAnObject? then Err(MemberNotAnObject)
    else
      var symbol := ReadText(entry.symbol, MAXIMUM_SYMBOL);
      var common := ReadFlag(entry.common, code);
      var sector := ReadSector(entry.sector);
      if symbol.Err? then Err(symbol.error)
      else if common.Err? then Err(common.error)
      else if sector.Err? then Err(sector.error)
      else Ok(Member(symbol.value, common.value, sector.value))
  }

  /** The entries read, in their own order, with no symbol twice. */
  predicate ReadAs(entries: seq<Entry>, code: string, ms: seq<Member>) {
    && |ms| == |entries|
    && (forall i :: 0 <= i < |ms| ==> ReadMember(entries[i], code) == Ok(ms[i]))
    && DistinctSymbols(ms)
  }

  /** The first entry that cannot be taken, and why, after the ones that were. */
  predicate StopsAt(entries: seq<Entry>, code: string, ms: seq<Member>, fault: Fault) {
    && |ms| < |entries|
    && ReadAs(entries[..|ms|], code, ms)
    && match ReadMember(entries[|ms|], code)
       case Err(why) => fault == why
       case Ok(m) => fault == AppearsTwice && exists k :: 0 <= k < |ms| && ms[k].symbol == m.symbol
  }

  lemma ReadOneMore(entries: seq<Entry>, code: string, ms: seq<Member>, m: Member)
    requires |ms| < |entries| && ReadAs(entries[..|ms|], code, ms) && ReadMember(entries[|ms|], code) == Ok(m)
    requires forall k :: 0 <= k < |ms| ==> ms[k].symbol != m.symbol
    ensures ReadAs(entries[..|ms| + 1], code, ms + [m])
  {
    var more, upTo := ms + [m], entries[..|ms| + 1];
    forall i | 0 <= i < |more|
      ensures ReadMember(upTo[i], code) == Ok(more[i])
    {
      if i < |ms| {
        assert upTo[i] == entries[..|ms|][i];
      }
    }
    DistinctAppend(ms, m, BySymbol());
  }

  /** Reads every member or stops at the first that is malformed or repeated. */
  method ReadMembers(value: Option<seq<Entry>>, code: string) returns (r: Result<seq<Member>, Fault>, ghost taken: seq<Member>)
    ensures value == None ==> r == Err(NotAList)
    ensures value.Some? && value.value == [] ==> r == Err(NoMembers)
    ensures value.Some? && |value.value| > MAXIMUM_MEMBERS ==> r == Err(TooManyMembers)
    ensures value.Some? && 0 < |value.value| <= MAXIMUM_MEMBERS ==>
              if r.Ok? then ReadAs(value.value, code, r.value) else StopsAt(value.value, code, taken, r.error)
    ensures r.Ok? ==> value.Some? && 0 < |value.value| <= MAXIMUM_MEMBERS
  {
    taken := [];
    if value == None {
      return Err(NotAList), [];
    }
    var entries := value.value;
    if entries == [] {
      return Err(NoMembers), [];
    }
    if |entries| > MAXIMUM_MEMBERS {
      return Err(TooManyMembers), [];
    }
    var members: seq<Member> := [];
    var seen: set<string> := {};
    for i := 0 to |entries|
      invariant |members| == i && ReadAs(entries[..i], code, members)
      invariant forall s :: s in seen <==> exists k :: 0 <= k < i && members[k].symbol == s
    {
      var member := ReadMember(entries[i], code);
      if member.Err? {
        return Err(member.error), members;
      }
      if member.value.symbol in seen {
        return Err(AppearsTwice), members;
      }
      ReadOneMore(entries, code, members, member.value);
      seen := seen + {member.value.symbol};
      members := members + [member.value];
    }
    assert entries[..|entries|] == entries;
    r := Ok(members);
  }

  // ---- What a read member is ----

  predicate ProperText(s: string, maximum: nat) {
    Trimmed(s) && |s| <= maximum && '\r' !in s && '\n' !in s && '\t' !in s
  }

  predicate ProperMember(m: Member, code: string) {
    && ProperText(m.symbol, MAXIMUM_SYMBOL)
    && (m.common.Some? <==> CommonShares(code))
    && (m.sector.Some? ==> ProperText(m.sector.value, MAXIMUM_SECTOR))
  }

  /** The entry that publishes a member. */
  function EntryOf(m: Member): Entry {
    Object(
      Text(m.symbol),
      if m.common.Some? then Flag(m.common.value) else Null,
      if m.sector.Some? then Text(m.sector.value) else Null)
  }

  /** Reading takes exactly the published form of a proper member, and nothing else. */
  lemma ReadsBackIff(entry: Entry, code: string, m: Member)
    ensures ReadMember(entry, code) == Ok(m) <==> entry == EntryOf(m) && ProperMember(m, code)
  {
  }
}
