/** What settlement's list of entries to protect amounts to over whole runs. The list lives in memory and
    is handed over only after the last trade of its pass is committed, while the cursor moves with every
    commit. */
module Protection {
  import opened Common
  import opened Sequences
  import opened Settlement

  predicate Waiting(s: State, t: Trade) { s.pass.Some? && t in s.pass.value.protect }

  /** Handed over, dropped and waiting account for every recorded entry and for nothing else, and what was
      dropped lies at or below the cursor of every later pass. */
  ghost predicate Accounted(s: State) {
    && (forall t :: t in s.handed || t in s.dropped || Waiting(s, t) <==> t in s.books.fills && t.entry)
    && (forall t :: t in s.dropped ==> t !in s.handed)
    && (s.pass.Some? ==>
          && (forall t :: t in s.dropped ==> !Above(s.pass.value.cursor, t.id))
          && (forall t :: t in s.pass.value.protect ==> Above(s.pass.value.cursor, t.id)))
  }

  lemma RecordMembers(fills: seq<Trade>, trade: Trade, t: Trade)
    ensures t in Record(fills, trade) <==> t in fills || (t == trade && !Recorded(fills, trade.id))
  {
  }

  lemma ApplyFills(s: State, t: Trade)
    requires Inv(s) && Legal(s, ApplyOne)
    ensures var p, u := s.pass.value, s.pass.value.rest[0];
            t in Next(s, ApplyOne).books.fills <==>
              t in s.books.fills || (t == u && Above(p.cursor, u.id) && u.order in s.linked)
  {
    var u := s.pass.value.rest[0];
    assert u in s.pass.value.rest;
    RecordedIsThere(s, u);
    RecordMembers(s.books.fills, u, t);
  }

  lemma ApplyLists(s: State, t: Trade)
    requires Legal(s, ApplyOne)
    ensures var p, u := s.pass.value, s.pass.value.rest[0];
            Waiting(Next(s, ApplyOne), t) <==>
              Waiting(s, t) || (t == u && Above(p.cursor, u.id) && u.order in s.linked && u.entry)
  {
  }

  lemma ApplyAccounts(s: State)
    requires Inv(s) && Accounted(s) && Legal(s, ApplyOne)
    ensures Accounted(Next(s, ApplyOne))
  {
    var p, u, n := s.pass.value, s.pass.value.rest[0], Next(s, ApplyOne);
    forall t
      ensures t in n.books.fills <==> t in s.books.fills || (t == u && Above(p.cursor, u.id) && u.order in s.linked)
      ensures Waiting(n, t) <==> Waiting(s, t) || (t == u && Above(p.cursor, u.id) && u.order in s.linked && u.entry)
    {
      ApplyFills(s, t);
      ApplyLists(s, t);
    }
    assert n.handed == s.handed && n.dropped == s.dropped && n.pass.value.cursor == p.cursor;
    assert forall t :: t in n.pass.value.protect <==> Waiting(n, t);
  }

  lemma BeginAccounts(s: State, answer: seq<Trade>)
    requires Accounted(s) && Legal(s, Begin(answer))
    ensures Accounted(Next(s, Begin(answer)))
  {
    forall t | t in s.dropped
      ensures !Above(Cursor(s.books.fills), t.id)
    {
      assert t in s.books.fills;
    }
    assert forall t :: !Waiting(Next(s, Begin(answer)), t) && !Waiting(s, t);
  }

  lemma HandOverAccounts(s: State)
    requires Accounted(s) && Legal(s, HandOver)
    ensures Accounted(Next(s, HandOver))
  {
    var p, n := s.pass.value, Next(s, HandOver);
    var h := p.protect[0];
    assert p.protect == [h] + p.protect[1..];
    assert Waiting(s, h) && Above(p.cursor, h.id);
    assert forall t :: t in n.handed <==> t in s.handed || t == h;
    assert forall t :: Waiting(s, t) <==> t == h || Waiting(n, t);
  }

  lemma StopAccounts(s: State)
    requires Accounted(s)
    ensures Accounted(Next(s, Stop))
  {
    var n := Next(s, Stop);
    forall t
      ensures t in n.dropped <==> t in s.dropped || (Waiting(s, t) && t !in s.handed)
    {
      if s.pass.Some? {
        FilterMembers(s.pass.value.protect, NotIn(s.handed), t);
      }
    }
    assert forall t :: !Waiting(n, t);
  }

  lemma StepAccounts(s: State, e: Event)
    requires Inv(s) && Accounted(s) && Legal(s, e)
    ensures Accounted(Next(s, e))
  {
    match e
    case ApplyOne => ApplyAccounts(s);
    case Begin(answer) => BeginAccounts(s, answer);
    case HandOver => HandOverAccounts(s);
    case Stop => StopAccounts(s);
    case _ => assert forall t :: Waiting(Next(s, e), t) <==> Waiting(s, t);
  }

  /** In every run, every recorded entry is handed over, waiting or dropped, and nothing else is. */
  lemma {:induction false} EveryEntryIsAccountedFor(s: State, es: seq<Event>)
    requires Inv(s) && Accounted(s) && LegalRun(s, es)
    ensures Inv(Final(s, es)) && Accounted(Final(s, es))
    decreases |es|
  {
    if es != [] {
      StepIsExact(s, es[0]);
      StepAccounts(s, es[0]);
      EveryEntryIsAccountedFor(Next(s, es[0]), es[1..]);
    }
  }

  /** Event `k` stops a pass that has settled this entry and not handed it over yet. */
  predicate StoppedFirst(s: State, es: seq<Event>, k: nat, t: Trade) {
    && k < |es| && es[k] == Stop
    && LegalRun(s, es[..k])
    && Waiting(Final(s, es[..k]), t) && t !in Final(s, es[..k]).handed
  }

  lemma StoppedNow(s: State, es: seq<Event>, t: Trade)
    requires es != []
    ensures StoppedFirst(s, es, 0, t) <==> es[0] == Stop && Waiting(s, t) && t !in s.handed
  {
    assert es[..0] == [];
  }

  lemma StoppedLater(s: State, es: seq<Event>, k: nat, t: Trade)
    requires es != [] && Legal(s, es[0])
    ensures StoppedFirst(s, es, k + 1, t) <==> StoppedFirst(Next(s, es[0]), es[1..], k, t)
  {
    if k + 1 < |es| {
      assert es[..k + 1][0] == es[0] && es[..k + 1][1..] == es[1..][..k];
    }
  }

  lemma StepDrops(s: State, e: Event, t: Trade)
    requires Legal(s, e)
    ensures t in Next(s, e).dropped <==> t in s.dropped || (e == Stop && Waiting(s, t) && t !in s.handed)
  {
    if e == Stop && s.pass.Some? {
      FilterMembers(s.pass.value.protect, NotIn(s.handed), t);
    }
  }

  /** An entry is dropped exactly by a stop that comes between its commit and its handing over. */
  lemma {:induction false} DroppedIff(s: State, es: seq<Event>, t: Trade)
    requires LegalRun(s, es)
    ensures t in Final(s, es).dropped <==> t in s.dropped || exists k: nat :: StoppedFirst(s, es, k, t)
    decreases |es|
  {
    if es != [] {
      var n := Next(s, es[0]);
      StepDrops(s, es[0], t);
      StoppedNow(s, es, t);
      DroppedIff(n, es[1..], t);
      if k: nat :| StoppedFirst(n, es[1..], k, t) {
        StoppedLater(s, es, k, t);
      }
      if k: nat :| StoppedFirst(s, es, k, t) {
        if k > 0 {
          StoppedLater(s, es, k - 1, t);
        }
      }
    }
  }

  /** Main result. Over every run, between passes: a recorded entry was handed over for its stop if and
      only if the pass that settled it was not stopped first. */
  lemma HandedOverIff(es: seq<Event>, t: Trade)
    requires LegalRun(Start, es) && Final(Start, es).pass == None
    requires t in Final(Start, es).books.fills && t.entry
    ensures t in Final(Start, es).handed <==> !exists k: nat :: StoppedFirst(Start, es, k, t)
  {
    EveryEntryIsAccountedFor(Start, es);
    DroppedIff(Start, es, t);
    assert !Waiting(Final(Start, es), t);
  }

  /** And once dropped it stays dropped: no later pass, whatever the venue answers, lists it again. */
  lemma DroppedForGood(s: State, es: seq<Event>, t: Trade)
    requires Inv(s) && Accounted(s) && LegalRun(s, es) && t in s.dropped
    ensures t in Final(s, es).books.fills && t !in Final(s, es).handed
  {
    EveryEntryIsAccountedFor(s, es);
    DroppedIff(s, es, t);
  }

  // ---- It does happen ----

  const Lone := Trade(1, 1, 1.0, true)

  /** One linked order with one entry traded, and the ledger empty. */
  const Traded := State([Lone], {1}, Books([], 0), None, None, [], [])

  const Begun := State([Lone], {1}, Books([], 0), Some(1), Some(Pass(None, [Lone], [Lone], [])), [], [])

  const Committed := State([Lone], {1}, Books([Lone], 0), Some(1), Some(Pass(None, [Lone], [], [Lone])), [], [])

  lemma RunCons(s: State, e: Event, es: seq<Event>)
    requires Legal(s, e) && LegalRun(Next(s, e), es)
    ensures LegalRun(s, [e] + es) && Final(s, [e] + es) == Final(Next(s, e), es)
  {
    assert ([e] + es)[1..] == es;
  }

  lemma LoneTrades()
    ensures Legal(Start, Link(1)) && Legal(Next(Start, Link(1)), Trades(Lone))
    ensures Next(Next(Start, Link(1)), Trades(Lone)) == Traded
  {
    assert {} + {1} == {1} && [] + [Lone] == [Lone];
  }

  lemma LoneBegins()
    ensures Legal(Traded, Begin([Lone])) && Next(Traded, Begin([Lone])) == Begun
  {
    assert [Lone][..0] == [] && [Lone][1..] == [];
    SortOfOrdered([Lone], Smaller(ById()));
    assert Highest(None, [Lone]) == Some(1);
  }

  lemma LoneCommits()
    ensures Legal(Begun, ApplyOne) && Next(Begun, ApplyOne) == Committed
  {
    assert [Lone][1..] == [];
    var p := Begun.pass.value;
    assert Opens({1}, None)(Lone) && !Recorded([], 1);
    assert ApplyTrade(Begun.books, {1}, None, Lone) == Books([Lone], 0);
    assert p.protect + [Lone] == [Lone];
  }

  /** One entry, committed by a pass that stops before handing anything over. */
  lemma AnEntryLeftWithoutItsStop() returns (es: seq<Event>, t: Trade)
    ensures LegalRun(Start, es) && Final(Start, es).pass == None
    ensures t.entry && t in Final(Start, es).books.fills && t !in Final(Start, es).handed
  {
    t := Lone;
    LoneTrades();
    LoneBegins();
    LoneCommits();
    RunCons(Committed, Stop, []);
    RunCons(Begun, ApplyOne, [Stop] + []);
    RunCons(Traded, Begin([Lone]), [ApplyOne] + ([Stop] + []));
    RunCons(Next(Start, Link(1)), Trades(Lone), [Begin([Lone])] + ([ApplyOne] + ([Stop] + [])));
    es := [Link(1)] + ([Trades(Lone)] + ([Begin([Lone])] + ([ApplyOne] + ([Stop] + []))));
    RunCons(Start, Link(1), [Trades(Lone)] + ([Begin([Lone])] + ([ApplyOne] + ([Stop] + []))));
  }
}
