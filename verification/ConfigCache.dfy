/** The venue configuration cache under contention: any number of callers refreshing at once, each
    stopping only where it waits for the lock or for the venue. */
module ConfigCache {
  import opened Common

  /** One answer of the venue, and when it says it was read. */
  datatype Reading = Reading(report: int, at: int)

  datatype Phase = Waiting | Asking | Returned(reading: Reading) | Raised

  datatype Caller = Caller(moment: int, phase: Phase)

  /** `stored` remembers every reading the cache ever took, oldest first. */
  datatype State = State(held: Option<Reading>, lock: Option<int>, callers: map<int, Caller>, stored: seq<Reading>)

  datatype Event =
    | Call(caller: int, moment: int)
    | Acquire(caller: int)
    | Answer(caller: int, reading: Reading)
    | Failure(caller: int)
    | Cancel(caller: int)

  predicate Fresh(held: Option<Reading>, moment: int, every: int) {
    held.Some? && moment - held.value.at < every
  }

  predicate In(callers: map<int, Caller>, caller: int, phase: Phase) {
    caller in callers && callers[caller].phase == phase
  }

  /** A lock is taken only when free, only its holder hears from the venue, and no answer is dated
      before the moment its caller came with. */
  predicate Legal(s: State, e: Event) {
    match e
    case Call(caller, _) => caller !in s.callers
    case Acquire(caller) => s.lock == None && In(s.callers, caller, Waiting)
    case Answer(caller, reading) => In(s.callers, caller, Asking) && s.callers[caller].moment <= reading.at
    case Failure(caller) => In(s.callers, caller, Asking)
    case Cancel(caller) => In(s.callers, caller, Waiting)
  }

  function Move(s: State, caller: int, phase: Phase): State
    requires caller in s.callers
  {
    s.(callers := s.callers[caller := s.callers[caller].(phase := phase)])
  }

  function Next(s: State, e: Event, every: int): State
    requires Legal(s, e)
  {
    match e
    case Call(caller, moment) =>
      var phase := if Fresh(s.held, moment, every) then Returned(s.held.value) else Waiting;
      s.(callers := s.callers[caller := Caller(moment, phase)])
    case Acquire(caller) =>
      if Fresh(s.held, s.callers[caller].moment, every) then Move(s, caller, Returned(s.held.value))
      else Move(s, caller, Asking).(lock := Some(caller))
    case Answer(caller, reading) =>
      Move(s, caller, Returned(reading)).(held := Some(reading), lock := None, stored := s.stored + [reading])
    case Failure(caller) => Move(s, caller, Raised).(lock := None)
    case Cancel(caller) => Move(s, caller, Raised)
  }

  predicate LegalRun(s: State, es: seq<Event>, every: int)
    decreases |es|
  {
    es == [] || (Legal(s, es[0]) && LegalRun(Next(s, es[0], every), es[1..], every))
  }

  function Final(s: State, es: seq<Event>, every: int): State
    requires LegalRun(s, es, every)
    decreases |es|
  {
    if es == [] then s else Final(Next(s, es[0], every), es[1..], every)
  }

  const Start := State(None, None, map[], [])

  // ---- The cache itself, for one caller at a time ----

  class ConfigurationCache {
    const every: int
    var held: Option<Reading>

    constructor (every: int)
      requires every > 0
      ensures this.every == every && held == None
    {
      this.every := every;
      held := None;
    }

    /** What a caller does when nobody else holds the lock; `venue` is what the venue would say. */
    method Refresh(moment: int, venue: Option<Reading>) returns (r: Option<Reading>)
      modifies this`held
      ensures Fresh(old(held), moment, every) ==> r == old(held) && held == old(held)
      ensures !Fresh(old(held), moment, every) ==> r == venue && held == if venue.Some? then venue else old(held)
    {
      if held.Some? && moment - held.value.at < every {
        return held;
      }
      if venue.Some? {
        held := venue;
      }
      r := venue;
    }
  }

  // ---- What every interleaving keeps ----

  predicate Apart(stored: seq<Reading>, every: int) {
    forall i :: 0 < i < |stored| ==> stored[i].at - stored[i - 1].at >= every
  }

  /** The last reading stored is the one held. */
  predicate HoldsTheLast(s: State) {
    s.held == if s.stored == [] then None else Some(s.stored[|s.stored| - 1])
  }

  /** One caller reads at a time, exactly the one holding the lock, and what is held is a whole
      interval older than the moment it came with. */
  ghost predicate OneReader(s: State, every: int) {
    && (forall c :: In(s.callers, c, Asking) <==> s.lock == Some(c))
    && (s.lock.Some? ==> s.lock.value in s.callers && !Fresh(s.held, s.callers[s.lock.value].moment, every))
  }

  /** Whoever has returned got a reading younger than the interval at its moment, and one that the
      cache did store. */
  predicate Served(c: Caller, stored: seq<Reading>, every: int) {
    c.phase.Returned? ==> c.moment - c.phase.reading.at < every && c.phase.reading in stored
  }

  predicate AllServed(s: State, every: int) {
    forall c :: c in s.callers ==> Served(s.callers[c], s.stored, every)
  }

  ghost predicate Inv(s: State, every: int) {
    HoldsTheLast(s) && Apart(s.stored, every) && OneReader(s, every) && AllServed(s, every)
  }

  lemma StepKeepsReaders(s: State, e: Event, every: int)
    requires Inv(s, every) && Legal(s, e) && every > 0
    ensures OneReader(Next(s, e, every), every)
  {
    var t := Next(s, e, every);
    forall c
      ensures In(t.callers, c, Asking) <==> t.lock == Some(c)
    {
      assert In(s.callers, c, Asking) <==> s.lock == Some(c);
      assert In(s.callers, e.caller, Asking) <==> s.lock == Some(e.caller);
    }
  }

  lemma StepKeepsInv(s: State, e: Event, every: int)
    requires Inv(s, every) && Legal(s, e) && every > 0
    ensures Inv(Next(s, e, every), every)
  {
    StepKeepsReaders(s, e, every);
    if e.Answer? {
      assert s.lock == Some(e.caller);
    }
  }

  /** In every interleaving, failed and cancelled reads included: stored readings are at least one
      interval apart, every caller that returned got a stored reading younger than the interval, and
      at most one caller is ever reading. */
  lemma {:induction false} EveryInterleavingKeeps(s: State, es: seq<Event>, every: int)
    requires Inv(s, every) && LegalRun(s, es, every) && every > 0
    ensures Inv(Final(s, es, every), every)
    decreases |es|
  {
    if es != [] {
      StepKeepsInv(s, es[0], every);
      EveryInterleavingKeeps(Next(s, es[0], every), es[1..], every);
    }
  }

  lemma {:induction false} ApartOverall(stored: seq<Reading>, every: int, i: nat, j: nat)
    requires Apart(stored, every) && i <= j < |stored|
    ensures stored[j].at - stored[i].at >= (j - i) * every
    decreases j
  {
    if i < j {
      ApartOverall(stored, every, i, j - 1);
      assert (j - i) * every == (j - 1 - i) * every + every;
    }
  }

  /** From an empty cache, a span of readings is never denser than the interval allows, however many
      callers contend: `n` readings span at least `n - 1` intervals. */
  lemma VenueIsNotAskedTooOften(es: seq<Event>, every: int, i: nat, j: nat)
    requires LegalRun(Start, es, every) && every > 0
    requires i <= j < |Final(Start, es, every).stored|
    ensures var stored := Final(Start, es, every).stored;
            stored[j].at - stored[i].at >= (j - i) * every
  {
    EveryInterleavingKeeps(Start, es, every);
    ApartOverall(Final(Start, es, every).stored, every, i, j);
  }

  /** Nobody is stuck: while any caller waits or reads, some step is open, even after a failure. */
  lemma SomeoneCanMove(s: State, every: int, caller: int) returns (e: Event)
    requires Inv(s, every) && (In(s.callers, caller, Waiting) || In(s.callers, caller, Asking))
    ensures Legal(s, e) && (e.Acquire? || e.Answer?)
  {
    if s.lock == None {
      assert !In(s.callers, caller, Asking);
      e := Acquire(caller);
    } else {
      var reader := s.lock.value;
      assert In(s.callers, reader, Asking);
      e := Answer(reader, Reading(0, s.callers[reader].moment));
    }
  }
}
