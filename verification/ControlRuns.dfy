/** Commands, approvals and the command ledger over the control rows, with a crash possible between
    any two steps.

    Each command works in one locked transaction that changes the rows, writes the audit entry and
    closes the ledger row together; spending an approval is outside that transaction and is never
    undone. Digests and bindings are taken as injective, so an approval holds what it was bound to. */
module ControlRuns {
  import opened Common
  import opened ControlRows
  import opened ControlStores

  datatype Body =
    | Safety(safety: SafetyAction)
    | Exposure(action: DangerousAction, approval: int, session: int, operator: int)

  datatype Command = Command(id: int, body: Body)

  /** One audit row: the command, the facts it was applied against, and when it was applied. */
  datatype Entry = Entry(command: Command, facts: ArmingFacts, at: int)

  datatype Phase = Received | Opened | Raised | Ended

  datatype Call = Call(command: Command, phase: Phase)

  /** `issued` remembers every approval ever issued; `approvals` holds those not yet spent. */
  datatype System = System(
    rows: seq<Row>,
    account: int,
    now: int,
    approvals: Approvals,
    issued: Approvals,
    ledger: Ledger,
    audit: seq<Entry>,
    calls: map<int, Call>)

  /** How the transaction ends: failed before the approval is spent, committed, committed with the
      answer lost, rolled back, or the process dead before the commit. */
  datatype Fate = NeverStarts | Commits | CommitsThenRaises | RollsBack | Dies

  datatype Event =
    | Tick(to: int)
    | AccountChanges(account: int)
    | Issue(id: int, binding: Binding)
    | CancelEntries
    | HaltAccount
    | Receive(call: int, command: Command)
    | Open(call: int)
    | Work(call: int, fate: Fate)
    | Fail(call: int)
    | Crash(call: int)

  /** Approval ids and call ids are never reused, and time does not run back. */
  predicate Legal(s: System, e: Event) {
    match e
    case Tick(to) => s.now <= to
    case Issue(id, _) => id !in s.issued
    case Receive(call, _) => call !in s.calls
    case _ => true
  }

  function FactsNow(s: System): ArmingFacts { ArmingFacts(s.account, StateOf(s.rows)) }

  function Wanted(s: System, body: Body): Binding
    requires body.Exposure?
  {
    ForExposure(body.session, body.operator, body.action, FactsNow(s))
  }

  /** The approval is live and bound to exactly this action against exactly these facts. */
  predicate Authorised(s: System, body: Body)
    requires body.Exposure?
  {
    Live(s.approvals, s.now, body.approval) && s.approvals[body.approval].binding == Wanted(s, body)
  }

  predicate Applies(s: System, body: Body) {
    && s.rows != []
    && (body.Exposure? ==>
          Authorised(s, body) && (body.action == Arm ==> Strongest(s.rows) == NoKillSwitch))
  }

  function Changed(rows: seq<Row>, body: Body): seq<Row> {
    if body.Safety? then SafeRows(rows, body.safety) else ExposedRows(rows, body.action)
  }

  /** Spending: gone whether or not it authorised anything, unless there was nothing to control. */
  function Spend(s: System, body: Body): System {
    if body.Exposure? && s.rows != [] then s.(approvals := s.approvals - {body.approval}) else s
  }

  function SetPhase(calls: map<int, Call>, call: int, phase: Phase): map<int, Call>
    requires call in calls
  {
    calls[call := Call(calls[call].command, phase)]
  }

  function WithPhase(s: System, call: int, phase: Phase): System
    requires call in s.calls
  {
    s.(calls := SetPhase(s.calls, call, phase))
  }

  function EntryNow(s: System, command: Command): Entry { Entry(command, FactsNow(s), s.now) }

  function Commit(s: System, command: Command): System {
    var spent := Spend(s, command.body);
    spent.(
      rows := Changed(s.rows, command.body),
      ledger := s.ledger[command.id := Succeeded],
      audit := s.audit + [EntryNow(s, command)])
  }

  function WorkOn(s: System, call: int, fate: Fate): System
    requires call in s.calls
  {
    var command := s.calls[call].command;
    if fate == NeverStarts then WithPhase(s, call, Raised)
    else if !Applies(s, command.body) then WithPhase(Spend(s, command.body), call, Raised)
    else
      match fate
      case Commits => WithPhase(Commit(s, command), call, Ended)
      case CommitsThenRaises => WithPhase(Commit(s, command), call, Raised)
      case RollsBack => WithPhase(Spend(s, command.body), call, Raised)
      case Dies => WithPhase(Spend(s, command.body), call, Ended)
  }

  /** The stores as one transaction sees them. */
  function Seen(rows: seq<Row>, account: int, now: int, approvals: Approvals, ledger: Ledger): System {
    System(rows, account, now, approvals, map[], ledger, [], map[])
  }

  /** One command's transaction over the three stores: it applies and closes the ledger row together,
      or it raises with the rows and the ledger as they were and the approval spent all the same. */
  method ApplyCommand(
    table: ControlTable, store: ApprovalStore, ledger: CommandLedger, command: Command, account: int, now: int)
    returns (applied: bool)
    requires command.id in ledger.rows
    modifies table, store, ledger
    ensures var s := Seen(old(table.rows), account, now, old(store.kept), old(ledger.rows));
            && applied == Applies(s, command.body)
            && Seen(table.rows, account, now, store.kept, ledger.rows) ==
               if applied then Commit(s, command).(audit := []) else Spend(s, command.body)
  {
    applied := false;
    if table.rows == [] {
      return;
    }
    match command.body {
      case Safety(action) =>
        var changed := table.ApplySafety(action);
      case Exposure(action, approval, session, operator) =>
        var facts := ArmingFacts(account, StateOf(table.rows));
        var spent := store.Consume(approval, ForExposure(session, operator, action, facts), now);
        if spent.Err? {
          return;
        }
        var changed := table.ApplyExposure(action);
        if changed.Err? {
          return;
        }
    }
    var closed := ledger.Succeed(command.id);
    applied := true;
  }

  predicate At(calls: map<int, Call>, call: int, phase: Phase) { call in calls && calls[call].phase == phase }

  function Next(s: System, e: Event): System {
    match e
    case Tick(to) => s.(now := to)
    case AccountChanges(account) => s.(account := account)
    case Issue(id, binding) =>
      var approval := Approval(binding, s.now);
      s.(approvals := s.approvals[id := approval], issued := s.issued[id := approval])
    case CancelEntries => s.(rows := RaisedRows(s.rows, BlockNewExposure, false))
    case HaltAccount => s.(rows := RaisedRows(s.rows, Emergency, true))
    case Receive(call, command) => s.(calls := s.calls[call := Call(command, Received)])
    case Open(call) =>
      if !At(s.calls, call, Received) then s
      else
        var id := s.calls[call].command.id;
        if id in s.ledger then WithPhase(s, call, Ended)
        else WithPhase(s.(ledger := s.ledger[id := InProgress]), call, Opened)
    case Work(call, fate) => if At(s.calls, call, Opened) then WorkOn(s, call, fate) else s
    case Fail(call) =>
      if !At(s.calls, call, Raised) then s
      else
        var id := s.calls[call].command.id;
        WithPhase(s.(ledger := FailRow(s.ledger, id)), call, Ended)
    case Crash(call) => if call in s.calls then WithPhase(s, call, Ended) else s
  }

  predicate LegalRun(s: System, es: seq<Event>)
    decreases |es|
  {
    es == [] || (Legal(s, es[0]) && LegalRun(Next(s, es[0]), es[1..]))
  }

  function Final(s: System, es: seq<Event>): System
    decreases |es|
  {
    if es == [] then s else Final(Next(s, es[0]), es[1..])
  }

  // ---- The ledger ----

  type Calls = map<int, Call>

  predicate InAudit(audit: seq<Entry>, id: int) { exists i :: 0 <= i < |audit| && audit[i].command.id == id }

  /** A call that opened its command and has not ended. */
  predicate Owns(calls: Calls, call: int) { At(calls, call, Opened) || At(calls, call, Raised) }

  function IdOf(calls: Calls, call: int): int
    requires call in calls
  {
    calls[call].command.id
  }

  /** Applied and SUCCEEDED are the same, and each command is applied at most once. */
  ghost predicate AuditAgrees(ledger: Ledger, audit: seq<Entry>) {
    && (forall id :: InAudit(audit, id) <==> Closed(ledger, id, Succeeded))
    && (forall i, j :: 0 <= i < j < |audit| ==> audit[i].command.id != audit[j].command.id)
  }

  /** An opened command is still in progress, and no two running calls own one command. */
  ghost predicate CallsAgree(ledger: Ledger, calls: Calls) {
    && (forall c :: Owns(calls, c) ==> IdOf(calls, c) in ledger)
    && (forall c :: At(calls, c, Opened) ==> Closed(ledger, IdOf(calls, c), InProgress))
    && (forall c, d :: Owns(calls, c) && Owns(calls, d) && c != d ==> IdOf(calls, c) != IdOf(calls, d))
  }

  ghost predicate LedgerInv(s: System) { AuditAgrees(s.ledger, s.audit) && CallsAgree(s.ledger, s.calls) }

  lemma AuditAppend(audit: seq<Entry>, entry: Entry, id: int)
    ensures InAudit(audit + [entry], id) <==> InAudit(audit, id) || id == entry.command.id
  {
    var more := audit + [entry];
    assert more[|audit|] == entry;
    assert forall i :: 0 <= i < |audit| ==> more[i] == audit[i];
  }

  lemma CommitAgrees(ledger: Ledger, audit: seq<Entry>, entry: Entry)
    requires AuditAgrees(ledger, audit) && Closed(ledger, entry.command.id, InProgress)
    ensures AuditAgrees(ledger[entry.command.id := Succeeded], audit + [entry])
  {
    assert !InAudit(audit, entry.command.id);
    forall id
      ensures InAudit(audit + [entry], id) <==> Closed(ledger[entry.command.id := Succeeded], id, Succeeded)
    {
      AuditAppend(audit, entry, id);
    }
  }

  /** Where each call stands once one of them is set. */
  ghost predicate Differs(calls: Calls, after: Calls, call: int, value: Call) {
    && (forall c, phase :: At(after, c, phase) <==> if c == call then value.phase == phase else At(calls, c, phase))
    && (forall c :: c in after && c == call ==> IdOf(after, c) == value.command.id)
    && (forall c :: c in after && c != call ==> c in calls && IdOf(after, c) == IdOf(calls, c))
  }

  lemma Updated(calls: Calls, after: Calls, call: int, value: Call)
    requires after == calls[call := value]
    ensures Differs(calls, after, call, value)
  {
  }

  /** Ending a call, or an opened call raising, keeps the calls in agreement. */
  lemma PhaseAgrees(ledger: Ledger, calls: Calls, call: int, phase: Phase)
    requires CallsAgree(ledger, calls) && call in calls
    requires phase == Ended || (phase == Raised && Owns(calls, call))
    ensures CallsAgree(ledger, SetPhase(calls, call, phase))
  {
    var after := SetPhase(calls, call, phase);
    Updated(calls, after, call, Call(calls[call].command, phase));
    assert forall c :: Owns(after, c) ==> Owns(calls, c) && IdOf(after, c) == IdOf(calls, c);
  }

  /** Closing a command that one call owns and is leaving disturbs no other call. */
  lemma CloseAgrees(ledger: Ledger, calls: Calls, call: int, status: Status, phase: Phase)
    requires CallsAgree(ledger, calls) && Owns(calls, call) && (phase == Ended || phase == Raised)
    ensures CallsAgree(ledger[IdOf(calls, call) := status], SetPhase(calls, call, phase))
  {
    var after := SetPhase(calls, call, phase);
    Updated(calls, after, call, Call(calls[call].command, phase));
    assert forall c :: Owns(after, c) ==> Owns(calls, c) && IdOf(after, c) == IdOf(calls, c);
    forall c | At(after, c, Opened)
      ensures Closed(ledger[IdOf(calls, call) := status], IdOf(after, c), InProgress)
    {
      assert At(calls, c, Opened) && c != call;
      assert Owns(calls, c) && IdOf(calls, c) != IdOf(calls, call);
    }
  }

  lemma OpenAgrees(ledger: Ledger, calls: Calls, call: int)
    requires CallsAgree(ledger, calls) && At(calls, call, Received) && IdOf(calls, call) !in ledger
    ensures CallsAgree(ledger[IdOf(calls, call) := InProgress], SetPhase(calls, call, Opened))
  {
    var after := SetPhase(calls, call, Opened);
    Updated(calls, after, call, Call(calls[call].command, Opened));
    assert forall c :: Owns(after, c) ==> (c == call || Owns(calls, c)) && IdOf(after, c) == IdOf(calls, c);
    forall c | At(after, c, Opened)
      ensures Closed(ledger[IdOf(calls, call) := InProgress], IdOf(after, c), InProgress)
    {
      assert c == call || At(calls, c, Opened);
    }
  }

  lemma ReceiveAgrees(ledger: Ledger, calls: Calls, call: int, command: Command)
    requires CallsAgree(ledger, calls) && call !in calls
    ensures CallsAgree(ledger, calls[call := Call(command, Received)])
  {
    var after := calls[call := Call(command, Received)];
    Updated(calls, after, call, Call(command, Received));
    assert forall c :: Owns(after, c) ==> Owns(calls, c) && IdOf(after, c) == IdOf(calls, c);
  }

  lemma StatusAgrees(ledger: Ledger, audit: seq<Entry>, id: int, status: Status)
    requires AuditAgrees(ledger, audit) && !Closed(ledger, id, Succeeded) && status != Succeeded
    ensures AuditAgrees(ledger[id := status], audit)
  {
    var after := ledger[id := status];
    assert forall other :: Closed(after, other, Succeeded) <==> Closed(ledger, other, Succeeded);
  }

  lemma WorkKeepsLedger(s: System, call: int, fate: Fate)
    requires LedgerInv(s) && At(s.calls, call, Opened)
    ensures LedgerInv(WorkOn(s, call, fate))
  {
    var command := s.calls[call].command;
    if fate == NeverStarts {
      PhaseAgrees(s.ledger, s.calls, call, Raised);
    } else if Applies(s, command.body) && (fate == Commits || fate == CommitsThenRaises) {
      CommitAgrees(s.ledger, s.audit, EntryNow(s, command));
      CloseAgrees(s.ledger, s.calls, call, Succeeded, if fate == Commits then Ended else Raised);
    } else {
      PhaseAgrees(s.ledger, s.calls, call, if Applies(s, command.body) && fate == Dies then Ended else Raised);
    }
  }

  lemma StepKeepsLedger(s: System, e: Event)
    requires LedgerInv(s) && Legal(s, e)
    ensures LedgerInv(Next(s, e))
  {
    match e
    case Receive(call, command) => ReceiveAgrees(s.ledger, s.calls, call, command);
    case Open(call) =>
      if At(s.calls, call, Received) {
        var id := IdOf(s.calls, call);
        if id in s.ledger {
          PhaseAgrees(s.ledger, s.calls, call, Ended);
        } else {
          OpenAgrees(s.ledger, s.calls, call);
          StatusAgrees(s.ledger, s.audit, id, InProgress);
        }
      }
    case Work(call, fate) =>
      if At(s.calls, call, Opened) {
        WorkKeepsLedger(s, call, fate);
      }
    case Fail(call) =>
      if At(s.calls, call, Raised) {
        var id := IdOf(s.calls, call);
        if Closed(s.ledger, id, InProgress) {
          CloseAgrees(s.ledger, s.calls, call, Failed, Ended);
          StatusAgrees(s.ledger, s.audit, id, Failed);
        } else {
          PhaseAgrees(s.ledger, s.calls, call, Ended);
        }
      }
    case Crash(call) =>
      if call in s.calls {
        PhaseAgrees(s.ledger, s.calls, call, Ended);
      }
    case _ =>
  }

  /** One step and the record: either nothing is recorded, and the rows stand unless the protection
      service moved them, or exactly one command is recorded, its change is the change of the rows,
      and its ledger row goes from IN_PROGRESS to SUCCEEDED. */
  ghost predicate OnTheRecord(s: System, e: Event, t: System) {
    || (t.audit == s.audit && (t.rows == s.rows || e.CancelEntries? || e.HaltAccount?))
    || exists entry: Entry ::
         && t.audit == s.audit + [entry]
         && t.rows == Changed(s.rows, entry.command.body)
         && Closed(s.ledger, entry.command.id, InProgress)
         && Closed(t.ledger, entry.command.id, Succeeded)
  }

  /** An opened row stays, and a closed one never changes its status again. */
  ghost predicate OnlyCloses(before: Ledger, after: Ledger) {
    forall id :: id in before ==> id in after && (before[id] != InProgress ==> after[id] == before[id])
  }

  lemma StepIsOnTheRecord(s: System, e: Event)
    requires LedgerInv(s) && Legal(s, e)
    ensures OnTheRecord(s, e, Next(s, e))
    ensures OnlyCloses(s.ledger, Next(s, e).ledger)
  {
    if e.Work? && At(s.calls, e.call, Opened) {
      var command := s.calls[e.call].command;
      assert Closed(s.ledger, IdOf(s.calls, e.call), InProgress);
      var t := Next(s, e);
      if Applies(s, command.body) && (e.fate == Commits || e.fate == CommitsThenRaises) {
        assert t.audit == s.audit + [EntryNow(s, command)];
        assert Closed(t.ledger, command.id, Succeeded);
      }
    }
  }

  /** Over every run with crashes anywhere: a command's change is committed if and only if its ledger
      row reads SUCCEEDED, it is committed once, FAILED and IN_PROGRESS rows belong to no applied
      change, and a closed row never changes. */
  lemma {:induction false} CommittedIffSucceeded(s: System, es: seq<Event>)
    requires LedgerInv(s) && LegalRun(s, es)
    ensures LedgerInv(Final(s, es))
    ensures OnlyCloses(s.ledger, Final(s, es).ledger)
    ensures forall id :: InAudit(Final(s, es).audit, id) <==> Closed(Final(s, es).ledger, id, Succeeded)
    ensures forall id :: Closed(Final(s, es).ledger, id, Failed) || Closed(Final(s, es).ledger, id, InProgress) ==>
              !InAudit(Final(s, es).audit, id)
    decreases |es|
  {
    if es != [] {
      StepKeepsLedger(s, es[0]);
      StepIsOnTheRecord(s, es[0]);
      CommittedIffSucceeded(Next(s, es[0]), es[1..]);
    }
  }

  // ---- Approvals ----

  predicate Spends(audit: seq<Entry>, i: int) { 0 <= i < |audit| && audit[i].command.body.Exposure? }

  function ApprovalOf(audit: seq<Entry>, i: int): int
    requires Spends(audit, i)
  {
    audit[i].command.body.approval
  }

  /** An applied exposure command and the approval it spent: bound to that session, operator and
      action and to the facts it was applied against, and no older than its lifetime. */
  predicate Bound(issued: Approvals, entry: Entry) {
    entry.command.body.Exposure? ==>
      var body := entry.command.body;
      && body.approval in issued
      && issued[body.approval].binding == ForExposure(body.session, body.operator, body.action, entry.facts)
      && issued[body.approval].issuedAt <= entry.at < issued[body.approval].issuedAt + APPROVAL_LIFETIME
  }

  predicate Within(part: Approvals, whole: Approvals) { forall id :: id in part ==> id in whole && whole[id] == part[id] }

  ghost predicate SpentOnce(approvals: Approvals, issued: Approvals, audit: seq<Entry>) {
    && Within(approvals, issued)
    && (forall i :: 0 <= i < |audit| ==> Bound(issued, audit[i]))
    && (forall i :: Spends(audit, i) ==> ApprovalOf(audit, i) !in approvals)
    && (forall i, j :: Spends(audit, i) && Spends(audit, j) && i != j ==> ApprovalOf(audit, i) != ApprovalOf(audit, j))
  }

  predicate IssuedBy(issued: Approvals, now: int) { forall id :: id in issued ==> issued[id].issuedAt <= now }

  ghost predicate ApprovalInv(s: System) {
    SpentOnce(s.approvals, s.issued, s.audit) && IssuedBy(s.issued, s.now)
  }

  lemma CommitKeepsApprovals(s: System, command: Command)
    requires ApprovalInv(s) && Applies(s, command.body)
    ensures ApprovalInv(Commit(s, command))
  {
    var t := Commit(s, command);
    var n := |s.audit|;
    assert forall i :: 0 <= i < n ==> t.audit[i] == s.audit[i];
    assert forall i :: Spends(t.audit, i) && i != n ==> Spends(s.audit, i) && ApprovalOf(t.audit, i) == ApprovalOf(s.audit, i);
    assert t.audit[n] == EntryNow(s, command);
    if command.body.Exposure? {
      assert command.body.approval in s.approvals;
    }
  }

  lemma SpendKeepsApprovals(s: System, body: Body)
    requires ApprovalInv(s)
    ensures ApprovalInv(Spend(s, body))
  {
  }

  lemma IssueKeepsApprovals(s: System, e: Event)
    requires ApprovalInv(s) && e.Issue? && Legal(s, e)
    ensures ApprovalInv(Next(s, e))
  {
    var t := Next(s, e);
    forall i | 0 <= i < |t.audit|
      ensures Bound(t.issued, t.audit[i])
    {
      assert Bound(s.issued, s.audit[i]);
    }
    forall i | Spends(t.audit, i)
      ensures ApprovalOf(t.audit, i) !in t.approvals
    {
      assert Spends(s.audit, i) && Bound(s.issued, s.audit[i]);
    }
  }

  lemma WorkKeepsApprovals(s: System, call: int, fate: Fate)
    requires ApprovalInv(s) && At(s.calls, call, Opened)
    ensures ApprovalInv(WorkOn(s, call, fate))
  {
    var command := s.calls[call].command;
    SpendKeepsApprovals(s, command.body);
    if Applies(s, command.body) {
      CommitKeepsApprovals(s, command);
    }
  }

  /** Every step keeps approvals one-shot: an approval that was ever applied is gone for good. */
  lemma StepKeepsApprovals(s: System, e: Event)
    requires ApprovalInv(s) && Legal(s, e)
    ensures ApprovalInv(Next(s, e))
  {
    var t := Next(s, e);
    if e.Work? && At(s.calls, e.call, Opened) {
      WorkKeepsApprovals(s, e.call, e.fate);
    } else if e.Issue? {
      IssueKeepsApprovals(s, e);
    } else {
      assert t.approvals == s.approvals && t.issued == s.issued && t.audit == s.audit;
      assert s.now <= t.now;
    }
  }

  /** The facts an approval is bound to are the account and the rows as they stand: armed exactly when every
      row is, at the strongest level among them. */
  lemma FactsAreThePanel(s: System)
    ensures var facts := FactsNow(s);
            && facts.account == s.account
            && (facts.state.armed <==> forall i :: 0 <= i < |s.rows| ==> s.rows[i].armed)
            && (forall i :: 0 <= i < |s.rows| ==> Rank(s.rows[i].level) <= Rank(facts.state.level))
            && (facts.state.level == NoKillSwitch || exists i :: 0 <= i < |s.rows| && s.rows[i].level == facts.state.level)
  {
    StateMeans(s.rows);
  }

  /** Any attempt that gets as far as the approval spends it, applied or not, and no other approval. */
  lemma AttemptSpends(s: System, call: int, fate: Fate)
    requires At(s.calls, call, Opened) && s.calls[call].command.body.Exposure?
    ensures var after := Next(s, Work(call, fate)).approvals;
            var approval := s.calls[call].command.body.approval;
            && (fate != NeverStarts && s.rows != [] ==> approval !in after)
            && (fate == NeverStarts || s.rows == [] ==> after == s.approvals)
            && forall a :: a != approval ==> (a in after <==> a in s.approvals) && (a in after ==> after[a] == s.approvals[a])
  {
  }

  // ---- From a halt back to trading ----

  predicate Does(entry: Entry, action: DangerousAction) {
    entry.command.body.Exposure? && entry.command.body.action == action
  }

  predicate Saw(audit: seq<Entry>, from: nat, action: DangerousAction) {
    exists i :: from <= i < |audit| && Does(audit[i], action)
  }

  /** A CLEAR_HALT and later an ARM, both recorded at or after `from`. */
  predicate ClearedThenArmed(audit: seq<Entry>, from: nat) {
    exists i, j :: from <= i < j < |audit| && Does(audit[i], ClearHalt) && Does(audit[j], Arm)
  }

  predicate HeldBack(s: System, from: nat) {
    || ClearedThenArmed(s.audit, from)
    || (Disarmed(s.rows) && (Saw(s.audit, from, ClearHalt) || EveryRowStopped(s.rows)))
  }

  lemma RecordKept(audit: seq<Entry>, more: seq<Entry>, from: nat)
    requires audit <= more
    ensures Saw(audit, from, ClearHalt) ==> Saw(more, from, ClearHalt)
    ensures ClearedThenArmed(audit, from) ==> ClearedThenArmed(more, from)
  {
    assert forall i :: 0 <= i < |audit| ==> more[i] == audit[i];
  }

  lemma CommitHoldsBack(s: System, command: Command, from: nat)
    requires HeldBack(s, from) && Applies(s, command.body) && from <= |s.audit|
    ensures HeldBack(Commit(s, command), from)
  {
    var t := Commit(s, command);
    RecordKept(s.audit, t.audit, from);
    if command.body.Exposure? && !ClearedThenArmed(s.audit, from) {
      var n := |s.audit|;
      assert t.audit[n] == EntryNow(s, command);
      if command.body.action == ClearHalt {
        assert Does(t.audit[n], ClearHalt);
      } else {
        assert s.rows[0].level == NoKillSwitch;
        var i :| from <= i < n && Does(s.audit[i], ClearHalt);
        assert t.audit[i] == s.audit[i];
        assert Does(t.audit[n], Arm);
      }
    }
  }

  lemma WorkHoldsBack(s: System, call: int, fate: Fate, from: nat)
    requires HeldBack(s, from) && At(s.calls, call, Opened) && from <= |s.audit|
    ensures HeldBack(WorkOn(s, call, fate), from) && s.audit <= WorkOn(s, call, fate).audit
  {
    var command := s.calls[call].command;
    if Applies(s, command.body) {
      CommitHoldsBack(s, command, from);
    }
  }

  lemma StepHoldsBack(s: System, e: Event, from: nat)
    requires HeldBack(s, from) && Legal(s, e) && from <= |s.audit|
    ensures HeldBack(Next(s, e), from) && s.audit <= Next(s, e).audit
  {
    if e.Work? && At(s.calls, e.call, Opened) {
      WorkHoldsBack(s, e.call, e.fate, from);
    } else {
      assert Next(s, e).audit == s.audit;
    }
  }

  lemma {:induction false} RunHoldsBack(s: System, es: seq<Event>, from: nat)
    requires HeldBack(s, from) && ApprovalInv(s) && LegalRun(s, es) && from <= |s.audit|
    ensures HeldBack(Final(s, es), from) && ApprovalInv(Final(s, es)) && s.audit <= Final(s, es).audit
    decreases |es|
  {
    if es != [] {
      StepHoldsBack(s, es[0], from);
      StepKeepsApprovals(s, es[0]);
      RunHoldsBack(Next(s, es[0]), es[1..], from);
    }
  }

  /** The step of the run that recorded entry `i`: it worked on that command, and the entry holds the
      facts and the time of the state it was taken in. */
  ghost predicate RecordedAt(s: System, es: seq<Event>, i: nat, k: nat) {
    && k < |es|
    && es[k].Work?
    && i < |Final(s, es).audit|
    && var before := Final(s, es[..k]);
    && |before.audit| == i
    && At(before.calls, es[k].call, Opened)
    && Applies(before, before.calls[es[k].call].command.body)
    && Final(s, es).audit[i] == EntryNow(before, before.calls[es[k].call].command)
  }

  lemma StepOnlyRecords(s: System, e: Event)
    requires Legal(s, e)
    ensures s.audit <= Next(s, e).audit
  {
  }

  lemma {:induction false} AuditOnlyGrows(s: System, es: seq<Event>)
    requires LegalRun(s, es)
    ensures s.audit <= Final(s, es).audit
    decreases |es|
  {
    if es != [] {
      StepOnlyRecords(s, es[0]);
      AuditOnlyGrows(Next(s, es[0]), es[1..]);
    }
  }

  lemma StepRecords(s: System, e: Event)
    requires Legal(s, e) && |Next(s, e).audit| > |s.audit|
    ensures e.Work? && At(s.calls, e.call, Opened) && Applies(s, s.calls[e.call].command.body)
    ensures Next(s, e).audit == s.audit + [EntryNow(s, s.calls[e.call].command)]
  {
  }

  lemma RecordedByTheFirst(s: System, es: seq<Event>, i: nat)
    requires LegalRun(s, es) && es != [] && |s.audit| <= i < |Next(s, es[0]).audit|
    requires Next(s, es[0]).audit <= Final(s, es).audit
    ensures RecordedAt(s, es, i, 0)
  {
    assert es[..0] == [];
    StepRecords(s, es[0]);
  }

  lemma RecordedByALater(s: System, es: seq<Event>, i: nat, k: nat)
    requires LegalRun(s, es) && es != [] && RecordedAt(Next(s, es[0]), es[1..], i, k)
    ensures RecordedAt(s, es, i, k + 1)
  {
    assert es[..k + 1][0] == es[0] && es[..k + 1][1..] == es[1..][..k];
  }

  /** Every entry a run added was recorded by one of its steps, against the facts of that moment. */
  lemma {:induction false} EveryEntryHasItsMoment(s: System, es: seq<Event>, i: nat) returns (k: nat)
    requires LegalRun(s, es) && |s.audit| <= i < |Final(s, es).audit|
    ensures RecordedAt(s, es, i, k)
    decreases |es|
  {
    var t := Next(s, es[0]);
    AuditOnlyGrows(t, es[1..]);
    if i < |t.audit| {
      RecordedByTheFirst(s, es, i);
      k := 0;
    } else {
      var later := EveryEntryHasItsMoment(t, es[1..], i);
      RecordedByALater(s, es, i, later);
      k := later + 1;
    }
  }

  /** From every halted state, whatever happens next, trading again means a CLEAR_HALT and after it
      an ARM, recorded since the halt, each spending its own approval bound to exactly the facts that
      held at the step that spent it. */
  lemma TradingAgainNeedsClearThenArm(s: System, es: seq<Event>) returns (i: nat, j: nat, k: nat, l: nat)
    requires ApprovalInv(s) && LegalRun(s, es)
    requires Halted(s.rows) && Tradable(Final(s, es).rows)
    ensures var t := Final(s, es);
            && |s.audit| <= i < j < |t.audit|
            && Does(t.audit[i], ClearHalt) && Does(t.audit[j], Arm)
            && ApprovalOf(t.audit, i) != ApprovalOf(t.audit, j)
            && Bound(t.issued, t.audit[i]) && Bound(t.issued, t.audit[j])
            && RecordedAt(s, es, i, k) && RecordedAt(s, es, j, l)
  {
    RunHoldsBack(s, es, |s.audit|);
    var t := Final(s, es);
    assert t.rows[0].armed;
    i, j :| |s.audit| <= i < j < |t.audit| && Does(t.audit[i], ClearHalt) && Does(t.audit[j], Arm);
    assert Spends(t.audit, i) && Spends(t.audit, j);
    k := EveryEntryHasItsMoment(s, es, i);
    l := EveryEntryHasItsMoment(s, es, j);
  }

  /** Whether an operator can bring a halted system back: each of the two commands issued its
      approval against the panel as it stands, received, opened and worked. */
  function OneCommand(s: System, body: Body, call: int, id: int): seq<Event>
    requires body.Exposure?
  {
    [Issue(body.approval, Wanted(s, body)), Receive(call, Command(id, body)), Open(call), Work(call, Commits)]
  }

  predicate Unused(s: System, approval: int, call: int, id: int) {
    approval !in s.issued && call !in s.calls && id !in s.ledger
  }

  lemma RunCons(s: System, e: Event, es: seq<Event>)
    ensures Final(s, [e] + es) == Final(Next(s, e), es)
    ensures LegalRun(s, [e] + es) <==> Legal(s, e) && LegalRun(Next(s, e), es)
  {
    assert ([e] + es)[1..] == es;
  }

  lemma FourSteps(s: System, a: Event, b: Event, c: Event, d: Event)
    ensures var s1 := Next(s, a);
            var s2 := Next(s1, b);
            var s3 := Next(s2, c);
            && Final(s, [a, b, c, d]) == Next(s3, d)
            && (LegalRun(s, [a, b, c, d]) <==> Legal(s, a) && Legal(s1, b) && Legal(s2, c) && Legal(s3, d))
  {
    var s1 := Next(s, a);
    var s2 := Next(s1, b);
    var s3 := Next(s2, c);
    RunCons(s, a, [b, c, d]);
    RunCons(s1, b, [c, d]);
    RunCons(s2, c, [d]);
    RunCons(s3, d, []);
    assert [a] + [b, c, d] == [a, b, c, d] && [b] + [c, d] == [b, c, d] && [c] + [d] == [c, d] && [d] + [] == [d];
  }

  /** The state in which the command, approved, received and opened, is about to be worked. */
  function Prepared(s: System, body: Body, call: int, id: int): System
    requires body.Exposure?
  {
    var es := OneCommand(s, body, call, id);
    Next(Next(Next(s, es[0]), es[1]), es[2])
  }

  lemma PreparedIs(s: System, body: Body, call: int, id: int)
    requires body.Exposure? && Unused(s, body.approval, call, id)
    ensures var p := Prepared(s, body, call, id);
            && p.rows == s.rows && p.account == s.account && p.now == s.now && p.audit == s.audit
            && p.approvals == s.approvals[body.approval := Approval(Wanted(s, body), s.now)]
            && p.ledger == s.ledger[id := InProgress]
            && p.calls == s.calls[call := Call(Command(id, body), Opened)]
    ensures var es := OneCommand(s, body, call, id);
            LegalRun(s, es) && Final(s, es) == Next(Prepared(s, body, call, id), es[3])
  {
    var es := OneCommand(s, body, call, id);
    FourSteps(s, es[0], es[1], es[2], es[3]);
  }

  lemma WorkCommits(s: System, call: int, command: Command)
    requires call in s.calls && s.calls[call] == Call(command, Opened) && Applies(s, command.body)
    ensures Next(s, Work(call, Commits)) == WithPhase(Commit(s, command), call, Ended)
  {
  }

  lemma PreparedIsAuthorised(s: System, body: Body, call: int, id: int)
    requires body.Exposure? && s.rows != [] && Unused(s, body.approval, call, id)
    requires body.action == Arm ==> Strongest(s.rows) == NoKillSwitch
    ensures var p := Prepared(s, body, call, id);
            Applies(p, body) && call in p.calls && p.calls[call] == Call(Command(id, body), Opened)
  {
    PreparedIs(s, body, call, id);
  }

  lemma PreparedApplies(s: System, body: Body, call: int, id: int)
    requires body.Exposure? && s.rows != [] && Unused(s, body.approval, call, id)
    requires body.action == Arm ==> Strongest(s.rows) == NoKillSwitch
    ensures var p := Prepared(s, body, call, id);
            && call in p.calls
            && Next(p, Work(call, Commits)) == WithPhase(Commit(p, Command(id, body)), call, Ended)
  {
    PreparedIsAuthorised(s, body, call, id);
    WorkCommits(Prepared(s, body, call, id), call, Command(id, body));
  }

  /** An approval issued now and spent at once always applies, unless it arms through a halt. */
  lemma FreshApprovalApplies(s: System, body: Body, call: int, id: int)
    requires body.Exposure? && s.rows != [] && Unused(s, body.approval, call, id)
    requires body.action == Arm ==> Strongest(s.rows) == NoKillSwitch
    ensures var es := OneCommand(s, body, call, id);
            && LegalRun(s, es)
            && Final(s, es).rows == ExposedRows(s.rows, body.action)
            && Final(s, es).audit == s.audit + [EntryNow(s, Command(id, body))]
  {
    PreparedIs(s, body, call, id);
    PreparedApplies(s, body, call, id);
  }

  /** A clear followed by an arm does bring every halted system back to trading. */
  lemma ClearThenArmIsEnough(s: System, clear: Body, arm: Body, call: int, id: int)
    requires Halted(s.rows) && s.rows != []
    requires clear.Exposure? && clear.action == ClearHalt && Unused(s, clear.approval, call, id)
    requires arm.Exposure? && arm.action == Arm
    ensures var cleared := Final(s, OneCommand(s, clear, call, id));
            && LegalRun(s, OneCommand(s, clear, call, id))
            && (forall other, next :: Unused(cleared, arm.approval, other, next) ==>
                  && LegalRun(cleared, OneCommand(cleared, arm, other, next))
                  && Tradable(Final(cleared, OneCommand(cleared, arm, other, next)).rows))
  {
    FreshApprovalApplies(s, clear, call, id);
    var cleared := Final(s, OneCommand(s, clear, call, id));
    assert Strongest(cleared.rows) == NoKillSwitch;
    forall other, next | Unused(cleared, arm.approval, other, next)
      ensures LegalRun(cleared, OneCommand(cleared, arm, other, next))
      ensures Tradable(Final(cleared, OneCommand(cleared, arm, other, next)).rows)
    {
      FreshApprovalApplies(cleared, arm, other, next);
    }
  }

  // ---- How old an approval may be ----

  lemma {:induction false} IssuedOnlyGrows(s: System, es: seq<Event>)
    requires LegalRun(s, es)
    ensures Within(s.issued, Final(s, es).issued)
    decreases |es|
  {
    if es != [] {
      IssuedOnlyGrows(Next(s, es[0]), es[1..]);
    }
  }

  /** An approval spent a whole lifetime or more after a moment was not yet issued at that moment: from
      then on, every command that applies was approved after the halt. */
  lemma LateApprovalsAreNew(s: System, es: seq<Event>, i: nat)
    requires ApprovalInv(s) && LegalRun(s, es)
    requires |s.audit| <= i < |Final(s, es).audit| && Spends(Final(s, es).audit, i)
    requires Final(s, es).audit[i].at >= s.now + APPROVAL_LIFETIME
    ensures ApprovalOf(Final(s, es).audit, i) !in s.issued
  {
    RunKeepsApprovals(s, es);
    IssuedOnlyGrows(s, es);
    assert Bound(Final(s, es).issued, Final(s, es).audit[i]);
  }

  lemma {:induction false} RunConcat(s: System, a: seq<Event>, b: seq<Event>)
    requires LegalRun(s, a) && LegalRun(Final(s, a), b)
    ensures LegalRun(s, a + b) && Final(s, a + b) == Final(Final(s, a), b)
    decreases |a|
  {
    if a == [] {
      assert a + b == b;
    } else {
      assert (a + b)[0] == a[0] && (a + b)[1..] == a[1..] + b;
      RunConcat(Next(s, a[0]), a[1..], b);
    }
  }

  /** What one command, approved and applied at once, leaves of everything else. */
  predicate OnlyAdds(s: System, t: System, approval: int, call: int, id: int) {
    && t.account == s.account && t.now == s.now
    && (forall a :: a in s.approvals && a != approval ==> a in t.approvals && t.approvals[a] == s.approvals[a])
    && (forall c :: c in t.calls ==> c in s.calls || c == call)
    && (forall k :: k in t.ledger ==> k in s.ledger || k == id)
  }

  lemma OneCommandOnlyAdds(s: System, body: Body, call: int, id: int)
    requires body.Exposure? && s.rows != [] && Unused(s, body.approval, call, id)
    requires body.action == Arm ==> Strongest(s.rows) == NoKillSwitch
    ensures OnlyAdds(s, Final(s, OneCommand(s, body, call, id)), body.approval, call, id)
  {
    PreparedIs(s, body, call, id);
    PreparedApplies(s, body, call, id);
  }

  /** Using an approval that is on file already: the time moves on, and the command is sent. */
  function UseApproval(body: Body, to: int, call: int, id: int): seq<Event> {
    [Tick(to), Receive(call, Command(id, body)), Open(call), Work(call, Commits)]
  }

  /** The state in which that command is about to be worked. */
  function InUse(s: System, body: Body, to: int, call: int, id: int): System {
    Next(Next(Next(s, Tick(to)), Receive(call, Command(id, body))), Open(call))
  }

  lemma InUseIs(s: System, body: Body, to: int, call: int, id: int)
    requires call !in s.calls && id !in s.ledger
    ensures var u := InUse(s, body, to, call, id);
            && u.rows == s.rows && u.account == s.account && u.now == to && u.approvals == s.approvals
            && call in u.calls && u.calls[call] == Call(Command(id, body), Opened)
  {
  }

  lemma UseIsLegal(s: System, body: Body, to: int, call: int, id: int)
    requires call !in s.calls && s.now <= to
    ensures LegalRun(s, UseApproval(body, to, call, id))
    ensures Final(s, UseApproval(body, to, call, id)) == Next(InUse(s, body, to, call, id), Work(call, Commits))
  {
    var es := UseApproval(body, to, call, id);
    FourSteps(s, es[0], es[1], es[2], es[3]);
  }

  /** Working an opened ARM on disarmed rows makes them tradable exactly when it applies. */
  lemma WorkArmsIff(s: System, call: int, command: Command)
    requires call in s.calls && s.calls[call] == Call(command, Opened)
    requires command.body.Exposure? && command.body.action == Arm && s.rows != [] && Disarmed(s.rows)
    ensures Tradable(Next(s, Work(call, Commits)).rows) <==> Applies(s, command.body)
  {
    assert !s.rows[0].armed;
    if Applies(s, command.body) {
      WorkCommits(s, call, command);
    }
  }

  lemma AppliesIffAlive(s: System, arm: Body)
    requires arm.Exposure? && arm.action == Arm && s.rows != [] && Strongest(s.rows) == NoKillSwitch
    requires arm.approval in s.approvals && s.approvals[arm.approval].binding == Wanted(s, arm)
    ensures Applies(s, arm) <==> s.now < s.approvals[arm.approval].issuedAt + APPROVAL_LIFETIME
  {
  }

  /** An approval for arming that matches the panel arms exactly while it lives. */
  lemma ArmsIffAlive(s: System, arm: Body, to: int, call: int, id: int)
    requires arm.Exposure? && arm.action == Arm && s.rows != [] && Disarmed(s.rows)
    requires Strongest(s.rows) == NoKillSwitch && call !in s.calls && id !in s.ledger && s.now <= to
    requires arm.approval in s.approvals && s.approvals[arm.approval].binding == Wanted(s, arm)
    ensures LegalRun(s, UseApproval(arm, to, call, id))
    ensures Tradable(Final(s, UseApproval(arm, to, call, id)).rows) <==>
              to < s.approvals[arm.approval].issuedAt + APPROVAL_LIFETIME
  {
    UseIsLegal(s, arm, to, call, id);
    InUseIs(s, arm, to, call, id);
    AppliesIffAlive(InUse(s, arm, to, call, id), arm);
    WorkArmsIff(InUse(s, arm, to, call, id), call, Command(id, arm));
  }

  /** The state once an approval to arm is issued and the account is then halted. */
  function IssuedThenHalted(s: System, arm: Body): System
    requires arm.Exposure?
  {
    Next(Next(s, Issue(arm.approval, Wanted(s, arm))), HaltAccount)
  }

  lemma ClearedReadsTheSame(s: System, arm: Body)
    requires arm.Exposure? && s.rows != [] && Disarmed(s.rows) && Strongest(s.rows) == NoKillSwitch
    ensures var rows := ExposedRows(IssuedThenHalted(s, arm).rows, ClearHalt);
            rows != [] && Disarmed(rows) && StateOf(rows) == StateOf(s.rows)
  {
    var rows := ExposedRows(IssuedThenHalted(s, arm).rows, ClearHalt);
    assert !rows[0].armed && !s.rows[0].armed;
  }

  /** Older approvals are honoured inside that time, and exactly inside it: an approval to arm issued
      before the halt arms after it, once a clear has made the panel read the same again, if and only if
      its own lifetime is not over. */
  lemma OldApprovalArmsIffAlive(s: System, arm: Body, clear: Body, to: int, call: int, id: int, other: int, next: int)
    requires s.rows != [] && Disarmed(s.rows) && Strongest(s.rows) == NoKillSwitch && s.now <= to
    requires arm.Exposure? && arm.action == Arm && clear.Exposure? && clear.action == ClearHalt
    requires arm.approval != clear.approval && call != other && id != next
    requires Unused(s, clear.approval, call, id) && Unused(s, arm.approval, other, next)
    ensures var halted := IssuedThenHalted(s, arm);
            var es := OneCommand(halted, clear, call, id) + UseApproval(arm, to, other, next);
            && Halted(halted.rows) && arm.approval in halted.issued && halted.now == s.now
            && LegalRun(halted, es)
            && (Tradable(Final(halted, es).rows) <==> to < s.now + APPROVAL_LIFETIME)
  {
    var halted := IssuedThenHalted(s, arm);
    HaltsHalt(s.rows);
    FreshApprovalApplies(halted, clear, call, id);
    OneCommandOnlyAdds(halted, clear, call, id);
    var cleared := Final(halted, OneCommand(halted, clear, call, id));
    ClearedReadsTheSame(s, arm);
    assert cleared.approvals[arm.approval] == Approval(Wanted(s, arm), s.now);
    assert Wanted(cleared, arm) == Wanted(s, arm);
    ArmsIffAlive(cleared, arm, to, other, next);
    RunConcat(halted, OneCommand(halted, clear, call, id), UseApproval(arm, to, other, next));
  }

  // ---- From the start ----

  /** A new installation: some control rows, and nothing issued, opened, recorded or running. */
  function Start(rows: seq<Row>, account: int, now: int): System {
    System(rows, account, now, map[], map[], map[], [], map[])
  }

  /** Whatever the rows, every run from a new installation keeps the ledger and the record in agreement. */
  lemma LedgerHoldsFromTheStart(rows: seq<Row>, account: int, now: int, es: seq<Event>)
    requires LegalRun(Start(rows, account, now), es)
    ensures LedgerInv(Final(Start(rows, account, now), es))
  {
    CommittedIffSucceeded(Start(rows, account, now), es);
  }

  lemma {:induction false} RunKeepsApprovals(s: System, es: seq<Event>)
    requires ApprovalInv(s) && LegalRun(s, es)
    ensures ApprovalInv(Final(s, es))
    decreases |es|
  {
    if es != [] {
      StepKeepsApprovals(s, es[0]);
      RunKeepsApprovals(Next(s, es[0]), es[1..]);
    }
  }

  /** And every approval ever applied was issued, bound to what it was applied against, applied within
      its lifetime, and applied once. */
  lemma ApprovalsHoldFromTheStart(rows: seq<Row>, account: int, now: int, es: seq<Event>)
    requires LegalRun(Start(rows, account, now), es)
    ensures ApprovalInv(Final(Start(rows, account, now), es))
  {
    RunKeepsApprovals(Start(rows, account, now), es);
  }
}
