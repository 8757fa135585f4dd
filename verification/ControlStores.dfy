/** The two stores a control command goes through: the command ledger, and the approvals. */
module ControlStores {
  import opened Common
  import opened ControlRows

  // ---- The ledger ----

  datatype Status = InProgress | Succeeded | Failed

  type Ledger = map<int, Status>

  datatype LedgerError = AlreadyOpened | NeverOpened

  predicate Closed(ledger: Ledger, id: int, status: Status) { id in ledger && ledger[id] == status }

  function FailRow(ledger: Ledger, id: int): Ledger {
    if Closed(ledger, id, InProgress) then ledger[id := Failed] else ledger
  }

  class CommandLedger {
    var rows: Ledger

    constructor ()
      ensures rows == map[]
    {
      rows := map[];
    }

    /** Records the attempt; a command is opened once. */
    method Open(id: int) returns (r: Result<Status, LedgerError>)
      modifies this
      ensures id in old(rows) ==> r == Err(AlreadyOpened) && rows == old(rows)
      ensures id !in old(rows) ==> r == Ok(InProgress) && rows == old(rows)[id := InProgress]
    {
      if id in rows {
        return Err(AlreadyOpened);
      }
      rows := rows[id := InProgress];
      r := Ok(InProgress);
    }

    /** Closes the command as applied, inside the caller's transaction. */
    method Succeed(id: int) returns (r: Result<Status, LedgerError>)
      modifies this
      ensures id !in old(rows) ==> r == Err(NeverOpened) && rows == old(rows)
      ensures id in old(rows) ==> r == Ok(Succeeded) && rows == old(rows)[id := Succeeded]
    {
      if id !in rows {
        return Err(NeverOpened);
      }
      rows := rows[id := Succeeded];
      r := Ok(Succeeded);
    }

    /** Closes the command as not applied, unless it is closed already. */
    method Fail(id: int) returns (r: Result<Status, LedgerError>)
      modifies this
      ensures rows == FailRow(old(rows), id)
      ensures r == if id in rows then Ok(rows[id]) else Err(NeverOpened)
    {
      if id !in rows {
        return Err(NeverOpened);
      }
      if rows[id] == InProgress {
        rows := rows[id := Failed];
      }
      r := Ok(rows[id]);
    }
  }

  // ---- Approvals ----

  const APPROVAL_LIFETIME := 60

  /** The confirmation panel: the account, broker, environment and policy as one value, and the
      collapsed control state. */
  datatype ArmingFacts = ArmingFacts(account: int, state: ControlState)

  datatype Binding =
    | ForExposure(session: int, operator: int, action: DangerousAction, facts: ArmingFacts)
    | ForSomethingElse(what: int)

  datatype Approval = Approval(binding: Binding, issuedAt: int)

  type Approvals = map<int, Approval>

  datatype ApprovalError = IdentityTaken | MissingOrSpent | WrongAction

  /** Stored and not yet expired. */
  predicate Live(approvals: Approvals, now: int, id: int) {
    id in approvals && now < approvals[id].issuedAt + APPROVAL_LIFETIME
  }

  class ApprovalStore {
    var kept: Approvals

    constructor ()
      ensures kept == map[]
    {
      kept := map[];
    }

    /** Stores the binding under an identity nobody holds; an expired one is free again. */
    method Issue(id: int, binding: Binding, now: int) returns (r: Result<int, ApprovalError>)
      modifies this
      ensures Live(old(kept), now, id) ==> r == Err(IdentityTaken) && kept == old(kept)
      ensures !Live(old(kept), now, id) ==> r == Ok(id) && kept == old(kept)[id := Approval(binding, now)]
    {
      if Live(kept, now, id) {
        return Err(IdentityTaken);
      }
      kept := kept[id := Approval(binding, now)];
      r := Ok(id);
    }

    /** Reads and deletes in one go: whatever the answer, the approval is gone. */
    method Consume(id: int, binding: Binding, now: int) returns (r: Result<int, ApprovalError>)
      modifies this
      ensures kept == old(kept) - {id}
      ensures r.Ok? <==> Live(old(kept), now, id) && old(kept)[id].binding == binding
      ensures r.Err? ==> r.error == if Live(old(kept), now, id) then WrongAction else MissingOrSpent
    {
      var live := Live(kept, now, id);
      var stored := if live then Some(kept[id].binding) else None;
      kept := kept - {id};
      if stored == None {
        return Err(MissingOrSpent);
      }
      r := if stored.value == binding then Ok(id) else Err(WrongAction);
    }
  }
}
