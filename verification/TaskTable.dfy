/**
 * The task table of the ansible executor. Every method of the source runs without suspending, so each is
 * one atomic step; the functions give its effect on the table and the class performs it in place.
 */
module TaskTable {
  import opened Json
  import opened Text
  import IsoTime
  import Redaction

  datatype Status = Queued | Running | Success | Failed | CallbackFailed

  datatype CallbackStatus = CbNone | CbPending | CbSent | CbFailed

  /** A task's outcome as it is stored and sent back, with the error of a failed callback; `body` stands for everything
      else in the record. */
  datatype TaskResult = TaskResult(taskId: string, success: bool, body: string, callbackError: Option<string>)

  datatype Row = Row(
    status: Status,
    execution: Status,
    callbackStatus: CallbackStatus,
    payload: Fields,
    executionPayload: Fields,
    callback: Option<string>,
    result: Option<TaskResult>,
    leaseOwner: Option<string>,
    leaseExpiresAt: Option<string>,
    heartbeatAt: Option<string>,
    attempt: nat,
    createdAt: string,
    updatedAt: string)

  type Table = map<string, Row>

  predicate IsTerminal(s: Status) {
    s == Success || s == Failed || s == CallbackFailed
  }

  function NewRow(status: Status, payload: Fields, callback: Option<string>, now: string): Row {
    Row(status, status, if callback.Some? then CbPending else CbNone,
        Redaction.Sanitized(payload), payload, callback, None, None, None, None, 0, now, now)
  }

  function Created(
    table: Table, id: string, status: Status, payload: Fields, callback: Option<string>, now: string): Table {
    if id in table then table else table[id := NewRow(status, payload, callback, now)]
  }

  datatype ClaimReply =
    | Missing
    | Finished
    | Leased(holder: string, expiry: string)
    | Granted(attempt: nat)

  /** Somebody else holds an unexpired lease on a running row. */
  predicate HeldByOther(row: Row, owner: string, now: string) {
    && row.execution == Running
    && Truthy(row.leaseOwner)
    && Truthy(row.leaseExpiresAt)
    && IsoTime.Less(now, row.leaseExpiresAt.value)
    && row.leaseOwner.value != owner
  }

  function ClaimReplyFor(table: Table, id: string, owner: string, now: string): ClaimReply {
    if id !in table then Missing
    else
      var row := table[id];
      if IsTerminal(row.status) || IsTerminal(row.execution) then Finished
      else if HeldByOther(row, owner, now) then Leased(row.leaseOwner.value, row.leaseExpiresAt.value)
      else Granted(row.attempt + 1)
  }

  function ClaimedRow(row: Row, owner: string, expires: string, now: string): Row {
    row.(status := Running, execution := Running, leaseOwner := Some(owner), leaseExpiresAt := Some(expires),
         heartbeatAt := Some(now), attempt := row.attempt + 1, updatedAt := now)
  }

  function Claimed(table: Table, id: string, owner: string, expires: string, now: string): Table {
    if ClaimReplyFor(table, id, owner, now).Granted? then table[id := ClaimedRow(table[id], owner, expires, now)]
    else table
  }

  predicate CanRenew(table: Table, id: string, owner: string) {
    id in table && table[id].leaseOwner == Some(owner) && table[id].execution == Running
  }

  function Renewed(table: Table, id: string, owner: string, expires: string, now: string): Table {
    if CanRenew(table, id, owner)
    then table[id := table[id].(leaseExpiresAt := Some(expires), heartbeatAt := Some(now), updatedAt := now)]
    else table
  }

  predicate CanCommit(table: Table, id: string, owner: Option<string>) {
    id in table && (owner.Some? ==> table[id].leaseOwner == owner)
  }

  function Committed(
    table: Table, id: string, status: Status, result: TaskResult, now: string, owner: Option<string>): Table {
    if CanCommit(table, id, owner)
    then table[id := table[id].(status := status, execution := status, result := Some(result), leaseOwner := None,
                                leaseExpiresAt := None, heartbeatAt := Some(now), updatedAt := now)]
    else table
  }

  function StatusAfterCallback(row: Row, outcome: CallbackStatus, preserve: Option<Status>): Status {
    if outcome == CbFailed && row.status == Success then CallbackFailed
    else if row.status == CallbackFailed && outcome == CbSent then row.execution
    else if preserve.Some? then preserve.value
    else row.status
  }

  function CallbackUpdated(
    table: Table, id: string, outcome: CallbackStatus, result: TaskResult, now: string, preserve:
    Option<Status>): Table {
    if id !in table then table
    else table[id := table[id].(status := StatusAfterCallback(table[id], outcome, preserve), callbackStatus := outcome,
                                result := Some(result), updatedAt := now)]
  }

  /** What the caller submitted is never rewritten: later writes keep the payloads and the callback of a row. */
  predicate KeepsSubmission(before: Table, after: Table) {
    forall id :: id in before ==>
      && id in after
      && after[id].payload == before[id].payload
      && after[id].executionPayload == before[id].executionPayload
      && after[id].callback == before[id].callback
      && after[id].createdAt == before[id].createdAt
  }

  /** Every other row is as it was. */
  ghost predicate OnlyTouches(before: Table, after: Table, id: string) {
    forall other :: other != id ==>
      (other in after <==> other in before) && (other in before ==> after[other] == before[other])
  }

  /** The payload a worker runs with: the stored one when it is there and not empty, else the copy that was queued. */
  function PayloadFor(table: Table, id: string, queued: Fields): Fields {
    if id in table && table[id].executionPayload != map[] then table[id].executionPayload else queued
  }

  class TaskStore {
    var rows: Table

    constructor ()
      ensures rows == map[]
    {
      rows := map[];
    }

    method CreateIfAbsent(
      id: string, status: Status, payload: Fields, callback: Option<string>, now: string) returns (inserted: bool)
      modifies this
      ensures inserted <==> id !in old(rows)
      ensures rows == Created(old(rows), id, status, payload, callback, now)
      ensures KeepsSubmission(old(rows), rows)
      ensures OnlyTouches(old(rows), rows, id)
      ensures inserted ==>
        var row := rows[id];
        && row.status == row.execution == status && row.attempt == 0 && row.callback == callback
        && row.callbackStatus == (if callback.None? then CbNone else CbPending)
        && row.result.None? && row.leaseOwner.None? && row.leaseExpiresAt.None? && row.heartbeatAt.None?
        && row.createdAt == row.updatedAt == now
      ensures inserted ==> rows[id].executionPayload == payload
      ensures inserted ==> forall k :: k in rows[id].payload ==> k !in Redaction.SENSITIVE
    {
      if id in rows {
        return false;
      }
      var stored := Redaction.Sanitize(payload);
      rows := rows[id := Row(status, status, if callback.Some? then CbPending else CbNone,
                             stored, payload, callback, None, None, None, None, 0, now, now)];
      Redaction.SanitizedHasNoSecrets(payload);
      return true;
    }

    method ClaimTask(id: string, owner: string, expires: string, now: string) returns (reply: ClaimReply)
      modifies this
      ensures reply == ClaimReplyFor(old(rows), id, owner, now)
      ensures rows == Claimed(old(rows), id, owner, expires, now)
      ensures KeepsSubmission(old(rows), rows)
      ensures OnlyTouches(old(rows), rows, id)
      ensures !reply.Granted? ==> rows == old(rows)
      ensures reply.Missing? <==> id !in old(rows)
      ensures id in old(rows) ==>
        var before := old(rows)[id];
        && (reply.Finished? <==>
            before.status in {Success, Failed, CallbackFailed} || before.execution in {Success, Failed, CallbackFailed})
        && (reply.Leased? ==> before.leaseOwner == Some(reply.holder) && before.leaseExpiresAt == Some(reply.expiry))
        && (reply.Leased? <==>
            && !IsTerminal(before.status) && before.execution == Running
            && Truthy(before.leaseOwner) && before.leaseOwner != Some(owner)
            && Truthy(before.leaseExpiresAt) && IsoTime.Less(now, before.leaseExpiresAt.value))
      ensures reply.Granted? ==>
        var before, row := old(rows)[id], rows[id];
        && row.status == row.execution == Running && row.attempt == before.attempt + 1 == reply.attempt
        && row.leaseOwner == Some(owner) && row.leaseExpiresAt == Some(expires)
        && row.heartbeatAt == Some(now) && row.updatedAt == now
        && row.callbackStatus == before.callbackStatus && row.result == before.result
    {
      if id !in rows {
        return Missing;
      }
      var row := rows[id];
      if IsTerminal(row.status) || IsTerminal(row.execution) {
        return Finished;
      }
      if row.execution == Running && Truthy(row.leaseOwner) && Truthy(row.leaseExpiresAt)
         && IsoTime.Less(now, row.leaseExpiresAt.value) && row.leaseOwner.value != owner {
        return Leased(row.leaseOwner.value, row.leaseExpiresAt.value);
      }
      var next := row.attempt + 1;
      rows := rows[id := row.(
        status := Running, execution := Running, leaseOwner := Some(owner), leaseExpiresAt := Some(expires),
        heartbeatAt := Some(now), attempt := next, updatedAt := now)];
      return Granted(next);
    }

    method RenewLease(id: string, owner: string, expires: string, now: string) returns (renewed: bool)
      modifies this
      ensures renewed <==> CanRenew(old(rows), id, owner)
      ensures rows == Renewed(old(rows), id, owner, expires, now)
      ensures KeepsSubmission(old(rows), rows)
      ensures OnlyTouches(old(rows), rows, id)
      ensures !renewed ==> rows == old(rows)
      ensures renewed <==>
        id in old(rows) && old(rows)[id].leaseOwner == Some(owner) && old(rows)[id].execution == Running
      ensures renewed ==>
        var before, row := old(rows)[id], rows[id];
        && row.leaseExpiresAt == Some(expires) && row.heartbeatAt == Some(now) && row.updatedAt == now
        && row.leaseOwner == Some(owner) && row.status == before.status && row.execution == Running
        && row.attempt == before.attempt && row.result == before.result
        && row.callbackStatus == before.callbackStatus
    {
      renewed := id in rows && rows[id].leaseOwner == Some(owner) && rows[id].execution == Running;
      if renewed {
        rows := rows[id := rows[id].(leaseExpiresAt := Some(expires), heartbeatAt := Some(now), updatedAt := now)];
      }
    }

    method UpdateExecutionResult(
      id: string, status: Status, result: TaskResult, now: string, owner: Option<string>) returns (persisted: bool)
      modifies this
      ensures persisted <==> CanCommit(old(rows), id, owner)
      ensures rows == Committed(old(rows), id, status, result, now, owner)
      ensures KeepsSubmission(old(rows), rows)
      ensures OnlyTouches(old(rows), rows, id)
      ensures !persisted ==> rows == old(rows)
      ensures persisted <==> id in old(rows) && (owner.None? || old(rows)[id].leaseOwner == owner)
      ensures persisted ==>
        var before, row := old(rows)[id], rows[id];
        && row.status == row.execution == status && row.result == Some(result)
        && row.leaseOwner.None? && row.leaseExpiresAt.None?
        && row.heartbeatAt == Some(now) && row.updatedAt == now
        && row.attempt == before.attempt && row.callbackStatus == before.callbackStatus
    {
      persisted := id in rows && (owner.None? || rows[id].leaseOwner == owner);
      if persisted {
        rows := rows[id := rows[id].(status := status, execution := status, result := Some(result), leaseOwner := None,
                                     leaseExpiresAt := None, heartbeatAt := Some(now), updatedAt := now)];
      }
    }

    method UpdateCallbackStatus(
      id: string, outcome: CallbackStatus, result: TaskResult, now: string, preserve: Option<Status>)
      modifies this
      ensures rows == CallbackUpdated(old(rows), id, outcome, result, now, preserve)
      ensures KeepsSubmission(old(rows), rows)
      ensures OnlyTouches(old(rows), rows, id)
      ensures id !in old(rows) ==> rows == old(rows)
      ensures id in old(rows) ==>
        var before, row := old(rows)[id], rows[id];
        && row.callbackStatus == outcome && row.result == Some(result) && row.updatedAt == now
        && row.execution == before.execution && row.attempt == before.attempt
        && row.leaseOwner == before.leaseOwner && row.leaseExpiresAt == before.leaseExpiresAt
        && row.heartbeatAt == before.heartbeatAt
        && (before.status == Success && outcome == CbFailed ==> row.status == CallbackFailed)
        && (before.status == CallbackFailed && outcome == CbSent ==> row.status == row.execution)
        && (!(before.status == Success && outcome == CbFailed)
            && !(before.status == CallbackFailed && outcome == CbSent) ==>
            row.status == if preserve.Some? then preserve.value else before.status)
    {
      if id !in rows {
        return;
      }
      var row := rows[id];
      var next := if preserve.Some? then preserve.value else row.status;
      if outcome == CbFailed && row.status == Success {
        next := CallbackFailed;
      } else if row.status == CallbackFailed && outcome == CbSent {
        next := row.execution;
      }
      rows := rows[id := row.(status := next, callbackStatus := outcome, result := Some(result), updatedAt := now)];
    }

    method LoadExecutionPayload(id: string, queued: Fields) returns (payload: Fields)
      ensures payload == PayloadFor(rows, id, queued)
      ensures payload == queued || (id in rows && payload == rows[id].executionPayload)
      ensures id in rows && rows[id].executionPayload != map[] ==> payload == rows[id].executionPayload
    {
      if id in rows {
        var stored := rows[id].executionPayload;
        if stored != map[] {
          return stored;
        }
      }
      return queued;
    }
  }
}
