/**
 * What a run stores and passes on of results: a finished row tells its outcome by the result it holds, which is the
 * committed one, with the error of a failed callback, until a retried callback is delivered; a failed callback is
 * queued again before its message goes.
 */
module LeaseResults {
  import opened Json
  import opened IsoTime
  import opened LeaseProtocol
  import opened LeaseFate
  import S = LeaseSafety
  import T = TaskTable

  // ---- The invariant ----

  /** A finished row holds a result of its own task, which says how it ended. */
  predicate RowTells(table: T.Table, t: TaskId) {
    t in table && T.IsTerminal(table[t].execution) ==>
      && table[t].result.Some?
      && table[t].result.value.taskId == t
      && table[t].execution == (if table[t].result.value.success then T.Success else T.Failed)
  }

  /** A worker that has yet to call back holds the stored result. */
  predicate Stored(s: State, p: Phase) {
    p.Committed? ==> p.task in s.table && s.table[p.task].result == Some(p.result)
  }

  /** And nobody retries a callback of that task yet. */
  predicate Unretried(s: State, p: Phase) {
    p.Committed? ==>
      && (forall r :: r in s.retries ==> s.retries[r].task != p.task)
      && (forall v :: v in s.workers && s.workers[v].Retrying? ==> s.workers[v].task != p.task)
  }

  ghost predicate ResultsOk(s: State) {
    && (forall t: TaskId :: RowTells(s.table, t))
    && (forall w :: w in s.workers ==> Stored(s, s.workers[w]) && Unretried(s, s.workers[w]))
  }

  // ---- Rows ----

  lemma ClaimTells(table: T.Table, id: TaskId, owner: Owner, expires: string, now: string, t: TaskId)
    requires RowTells(table, t)
    ensures RowTells(T.Claimed(table, id, owner, expires, now), t)
  {
  }

  lemma RenewalTells(table: T.Table, id: TaskId, owner: Owner, expires: string, now: string, t: TaskId)
    requires RowTells(table, t)
    ensures RowTells(T.Renewed(table, id, owner, expires, now), t)
  {
  }

  lemma CommitTells(table: T.Table, id: TaskId, r: T.TaskResult, now: string, owner: Option<Owner>, t: TaskId)
    requires RowTells(table, t) && r.taskId == id
    ensures RowTells(T.Committed(table, id, Outcome(r.success), r, now, owner), t)
  {
  }

  lemma CallbackTells(
    table: T.Table, id: TaskId, outcome: T.CallbackStatus, r: T.TaskResult, now: string, preserve: Option<T.Status>,
    t: TaskId)
    requires RowTells(table, t) && id in table && table[id].execution == Outcome(r.success) && r.taskId == id
    ensures RowTells(T.CallbackUpdated(table, id, outcome, r, now, preserve), t)
  {
  }

  lemma WorkerStepTells(cfg: Config, s: State, s': State, step: Step, t: TaskId)
    requires Enabled(cfg, s, step) && s' == Apply(cfg, s, step) && (step.Handle? || step.Heartbeat? || step.Finish?)
    requires RowTells(s.table, t)
    ensures RowTells(s'.table, t)
  {
    var p := s.workers[step.worker];
    if step.Handle? {
      HandleTable(s, step.worker, p, step.owner, step.leaseBase, step.expires);
      ClaimTells(s.table, s.messages[p.msg].task.value, step.owner, Iso(step.expires), Stamp(s), t);
    } else if step.Heartbeat? {
      RenewalTells(s.table, p.task, p.owner, Iso(step.expires), Stamp(s), t);
    } else {
      CommitTells(s.table, p.task, step.result, Stamp(s), Some(p.owner), t);
    }
  }

  lemma CallbackStepTells(cfg: Config, s: State, s': State, step: Step, t: TaskId)
    requires S.Inv(cfg, s) && Enabled(cfg, s, step) && s' == Apply(cfg, s, step)
    requires step.CallbackDone? || step.RetryDeliver?
    requires RowTells(s.table, t)
    ensures RowTells(s'.table, t)
  {
    if step.CallbackDone? {
      var p := s.workers[step.worker];
      assert S.PhaseOk(s, S.Hist(s.log), p);
      CallbackTells(
        s.table, p.task, step.outcome, Noted(p.result, step.outcome, step.error), Stamp(s),
        Some(Outcome(p.result.success)), t);
    } else {
      var m := s.retries[s.retryLoop.retry];
      assert S.OutcomeOk(s, m.task, m.payload);
      CallbackTells(s.table, m.task, T.CbSent, m.payload, Stamp(s), Some(Outcome(m.payload.success)), t);
    }
  }

  lemma StepTells(cfg: Config, s: State, s': State, step: Step, t: TaskId)
    requires S.Inv(cfg, s) && Enabled(cfg, s, step) && s' == Apply(cfg, s, step) && RowTells(s.table, t)
    ensures RowTells(s'.table, t)
  {
    if step.Handle? || step.Heartbeat? || step.Finish? {
      WorkerStepTells(cfg, s, s', step, t);
    } else if step.CallbackDone? || step.RetryDeliver? {
      CallbackStepTells(cfg, s, s', step, t);
    } else if !step.Submit? {
      OtherStepsLeaveTable(cfg, s, s', step);
    }
  }

  // ---- Who writes a result ----

  /** The step commits a result of `t`, records a callback for it, or delivers a retried one. */
  predicate WritesResult(cfg: Config, s: State, step: Step, t: TaskId) {
    && Enabled(cfg, s, step)
    && (|| (step.Finish? && s.workers[step.worker].task == t
            && T.CanCommit(s.table, t, Some(s.workers[step.worker].owner)))
        || (step.CallbackDone? && s.workers[step.worker].task == t)
        || (step.RetryDeliver? && s.retries[s.retryLoop.retry].task == t))
  }

  predicate SameResult(before: T.Row, after: T.Row) {
    after.result == before.result && after.callbackStatus == before.callbackStatus
  }

  lemma HandleKeepsResult(s: State, w: nat, p: Phase, o: Owner, base: Instant, expires: Instant, t: TaskId)
    requires p.Fetched? && TaskFor(s, p) && t in s.table
    ensures var s' := HandleStep(s, w, p, o, base, expires);
      t in s'.table && SameResult(s.table[t], s'.table[t])
  {
    HandleTable(s, w, p, o, base, expires);
  }

  lemma ResultStays(cfg: Config, s: State, s': State, step: Step, t: TaskId)
    requires Enabled(cfg, s, step) && s' == Apply(cfg, s, step) && t in s.table && !WritesResult(cfg, s, step, t)
    ensures t in s'.table && SameResult(s.table[t], s'.table[t])
  {
    if step.Handle? {
      HandleKeepsResult(s, step.worker, s.workers[step.worker], step.owner, step.leaseBase, step.expires, t);
    } else if !WritesTable(step) {
      OtherStepsLeaveTable(cfg, s, s', step);
    }
  }

  // ---- Where phases and retries come from ----

  lemma CommittedOrigin(cfg: Config, s: State, s': State, step: Step, w: nat)
    requires Enabled(cfg, s, step) && s' == Apply(cfg, s, step) && w in s'.workers && s'.workers[w].Committed?
    ensures w in s.workers
    ensures s.workers[w] != s'.workers[w] ==>
      && step.Finish? && step.worker == w && s.workers[w].task == s'.workers[w].task
      && T.CanCommit(s.table, s.workers[w].task, Some(s.workers[w].owner))
      && s'.workers[w].result == step.result
      && s'.table[s.workers[w].task].result == Some(step.result)
  {
    if step.Handle? {
      HandleHoldsNone(s, step.worker, s.workers[step.worker], step.owner, step.leaseBase, step.expires, w);
    }
  }

  lemma HandleHoldsNone(s: State, v: nat, p: Phase, o: Owner, base: Instant, expires: Instant, w: nat)
    requires p.Fetched? && TaskFor(s, p) && v in s.workers
    ensures var s' := HandleStep(s, v, p, o, base, expires);
      && s'.retries == s.retries
      && (w in s'.workers <==> w in s.workers)
      && (w in s.workers && w != v ==> s'.workers[w] == s.workers[w])
      && (w == v ==> !s'.workers[w].Committed? && !s'.workers[w].Retrying?)
  {
  }

  lemma RetryingOrigin(cfg: Config, s: State, s': State, step: Step, v: nat)
    requires Enabled(cfg, s, step) && s' == Apply(cfg, s, step) && v in s'.workers && s'.workers[v].Retrying?
    ensures v in s.workers && (s.workers[v].Retrying? || s.workers[v].Committed?)
    ensures s.workers[v].task == s'.workers[v].task
    ensures s.workers[v].Committed? ==> step.CallbackDone? && step.worker == v
  {
    if step.Handle? {
      HandleHoldsNone(s, step.worker, s.workers[step.worker], step.owner, step.leaseBase, step.expires, v);
    }
  }

  lemma RetryOrigin(cfg: Config, s: State, s': State, step: Step, r: nat)
    requires Enabled(cfg, s, step) && s' == Apply(cfg, s, step) && r in s'.retries
    ensures (r in s.retries && s.retries[r].task == s'.retries[r].task) ||
      (step.PublishRetry? && step.retry == r && s.workers[step.worker].task == s'.retries[r].task)
  {
    if step.Handle? {
      HandleHoldsNone(s, step.worker, s.workers[step.worker], step.owner, step.leaseBase, step.expires, 0);
    }
  }

  // ---- Every step keeps it ----

  /** A finished task cannot be committed again. */
  lemma SettledCannotCommit(cfg: Config, s: State, t: TaskId, o: Owner)
    requires S.Inv(cfg, s) && t in s.table && T.IsTerminal(s.table[t].execution)
    ensures !T.CanCommit(s.table, t, Some(o))
  {
    assert S.RowOk(s, S.Hist(s.log)(t), t);
  }

  lemma OtherCallbackIsApart(cfg: Config, s: State, v: nat, w: nat)
    requires S.Inv(cfg, s) && v in s.workers && w in s.workers && v != w
    requires s.workers[v].Committed? && s.workers[w].Committed?
    ensures s.workers[v].task != s.workers[w].task
  {
    assert S.Apart(s.workers[v], s.workers[w]);
  }

  lemma CommittedIsSettled(cfg: Config, s: State, w: nat)
    requires S.Inv(cfg, s) && w in s.workers && s.workers[w].Committed?
    ensures S.Settled(s, s.workers[w].task)
  {
    assert S.PhaseOk(s, S.Hist(s.log), s.workers[w]);
  }

  lemma CallbackEndsPhase(cfg: Config, s: State, s': State, step: Step)
    requires Enabled(cfg, s, step) && s' == Apply(cfg, s, step) && step.CallbackDone?
    ensures step.worker in s'.workers && !s'.workers[step.worker].Committed?
  {
  }

  lemma OpenCallbackIsAlone(cfg: Config, s: State, s': State, step: Step, w: nat)
    requires S.Inv(cfg, s) && Enabled(cfg, s, step) && s' == Apply(cfg, s, step)
    requires w in s.workers && s.workers[w].Committed? && w in s'.workers && s'.workers[w] == s.workers[w]
    requires Unretried(s, s.workers[w])
    ensures !WritesResult(cfg, s, step, s.workers[w].task)
  {
    if step.Finish? {
      CommittedIsSettled(cfg, s, w);
      SettledCannotCommit(cfg, s, s.workers[w].task, s.workers[step.worker].owner);
    } else if step.CallbackDone? {
      CallbackEndsPhase(cfg, s, s', step);
      OtherCallbackIsApart(cfg, s, step.worker, w);
    }
  }

  lemma StoredStep(cfg: Config, s: State, s': State, step: Step, w: nat)
    requires S.Inv(cfg, s) && ResultsOk(s) && Enabled(cfg, s, step) && s' == Apply(cfg, s, step) && w in s'.workers
    ensures Stored(s', s'.workers[w])
  {
    if s'.workers[w].Committed? {
      CommittedOrigin(cfg, s, s', step, w);
      if s.workers[w] == s'.workers[w] {
        OpenCallbackIsAlone(cfg, s, s', step, w);
        ResultStays(cfg, s, s', step, s.workers[w].task);
      }
    }
  }

  /** What a step makes of the retries of a task, on the queue or with a worker. */
  lemma RetryTaskOrigin(cfg: Config, s: State, s': State, step: Step, t: TaskId, w: nat)
    requires S.Inv(cfg, s) && ResultsOk(s) && Enabled(cfg, s, step) && s' == Apply(cfg, s, step)
    requires w in s.workers && s.workers[w].Committed? && s.workers[w].task == t
    requires w in s'.workers && s'.workers[w] == s.workers[w]
    ensures forall r :: r in s'.retries ==> s'.retries[r].task != t
    ensures forall v :: v in s'.workers && s'.workers[v].Retrying? ==> s'.workers[v].task != t
  {
    assert Unretried(s, s.workers[w]);
    forall r | r in s'.retries ensures s'.retries[r].task != t {
      RetryOrigin(cfg, s, s', step, r);
    }
    forall v | v in s'.workers && s'.workers[v].Retrying? ensures s'.workers[v].task != t {
      RetryingOrigin(cfg, s, s', step, v);
      if s.workers[v].Committed? {
        assert S.Apart(s.workers[v], s.workers[w]);
      }
    }
  }

  lemma NewCommitIsUnretried(cfg: Config, s: State, s': State, step: Step, t: TaskId, o: Owner)
    requires S.Inv(cfg, s) && Enabled(cfg, s, step) && s' == Apply(cfg, s, step) && step.Finish?
    requires T.CanCommit(s.table, t, Some(o))
    ensures forall r :: r in s'.retries ==> s'.retries[r].task != t
    ensures forall v :: v in s'.workers && s'.workers[v].Retrying? ==> s'.workers[v].task != t
  {
    forall r | r in s'.retries ensures s'.retries[r].task != t {
      RetryOrigin(cfg, s, s', step, r);
      assert S.OutcomeOk(s, s.retries[r].task, s.retries[r].payload);
      if s.retries[r].task == t {
        SettledCannotCommit(cfg, s, t, o);
      }
    }
    forall v | v in s'.workers && s'.workers[v].Retrying? ensures s'.workers[v].task != t {
      RetryingOrigin(cfg, s, s', step, v);
      assert S.PhaseOk(s, S.Hist(s.log), s.workers[v]);
      if s.workers[v].task == t {
        SettledCannotCommit(cfg, s, t, o);
      }
    }
  }

  lemma UnretriedStep(cfg: Config, s: State, s': State, step: Step, w: nat)
    requires S.Inv(cfg, s) && ResultsOk(s) && Enabled(cfg, s, step) && s' == Apply(cfg, s, step) && w in s'.workers
    ensures Unretried(s', s'.workers[w])
  {
    if s'.workers[w].Committed? {
      CommittedOrigin(cfg, s, s', step, w);
      var t := s'.workers[w].task;
      if s.workers[w] == s'.workers[w] {
        RetryTaskOrigin(cfg, s, s', step, t, w);
      } else {
        NewCommitIsUnretried(cfg, s, s', step, t, s.workers[w].owner);
      }
    }
  }

  lemma StepKeepsResults(cfg: Config, s: State, s': State)
    requires S.Inv(cfg, s) && ResultsOk(s) && Next(cfg, s, s')
    ensures ResultsOk(s')
  {
    var step :| Enabled(cfg, s, step) && s' == Apply(cfg, s, step);
    forall t: TaskId ensures RowTells(s'.table, t) {
      StepTells(cfg, s, s', step, t);
    }
    forall w | w in s'.workers ensures Stored(s', s'.workers[w]) && Unretried(s', s'.workers[w]) {
      StoredStep(cfg, s, s', step, w);
      UnretriedStep(cfg, s, s', step, w);
    }
  }

  lemma {:induction false} RunKeepsResults(cfg: Config, run: seq<State>, i: nat)
    requires IsRun(cfg, run) && i < |run|
    ensures ResultsOk(run[i])
  {
    if i > 0 {
      RunKeepsResults(cfg, run, i - 1);
      S.RunKeeps(cfg, run, i - 1);
      StepKeepsResults(cfg, run[i - 1], run[i - 1 + 1]);
    }
  }

  // ---- Theorems over runs ----

  /** In every reachable state a finished task holds a result of its own, and the result says how it ended. */
  lemma FinishedRowTellsOutcome(cfg: Config, run: seq<State>, i: nat, t: TaskId)
    requires IsRun(cfg, run) && i < |run| && t in run[i].table && T.IsTerminal(run[i].table[t].execution)
    ensures var row := run[i].table[t];
      && row.result.Some? && row.result.value.taskId == t
      && (row.execution == T.Success <==> row.result.value.success)
      && (row.execution == T.Failed <==> !row.result.value.success)
  {
    RunKeepsResults(cfg, run, i);
    assert RowTells(run[i].table, t);
  }

  /** A worker that was executing `t` has committed `result`. */
  predicate Commits(s: State, s': State, w: nat, t: TaskId, result: T.TaskResult) {
    && w in s.workers && s.workers[w].Executing? && s.workers[w].task == t
    && w in s'.workers && s'.workers[w].Committed? && s'.workers[w].task == t && s'.workers[w].result == result
  }

  /** Finishing with a result commits exactly that one, or nothing: the lease is lost, and the worker raises. */
  lemma FinishCommits(cfg: Config, s: State, s': State, w: nat, result: T.TaskResult)
    requires Enabled(cfg, s, Finish(w, result)) && s' == Apply(cfg, s, Finish(w, result))
    ensures Commits(s, s', w, s.workers[w].task, result) || (s'.workers[w].Raised? && s'.table == s.table)
  {
  }

  /** A retried callback of `t` is delivered. */
  ghost predicate DeliversRetry(s: State, s': State, t: TaskId) {
    exists r :: r in s.retries && s.retries[r].task == t && s'.log == s.log + [EvRetryDelivered(r)]
  }

  /** The stored result is `result`, or `result` with the error of its callback once that has failed. */
  predicate Stands(row: T.Row, result: T.TaskResult) {
    && row.result.Some?
    && if row.callbackStatus == T.CbFailed && row.result.value.callbackError.Some?
       then row.result.value == result.(callbackError := row.result.value.callbackError)
       else row.result.value == result
  }

  lemma CommitStores(cfg: Config, s: State, s': State, w: nat, t: TaskId, result: T.TaskResult)
    requires Next(cfg, s, s') && S.Inv(cfg, s') && Commits(s, s', w, t, result)
    ensures S.Settled(s', t) && s'.table[t].result == Some(result)
  {
    var step :| Enabled(cfg, s, step) && s' == Apply(cfg, s, step);
    CommittedOrigin(cfg, s, s', step, w);
    assert S.PhaseOk(s', S.Hist(s'.log), s'.workers[w]);
  }

  lemma CallbackStands(s: State, w: nat, outcome: T.CallbackStatus, error: string, result: T.TaskResult)
    requires w in s.workers && s.workers[w].Committed?
    requires Stored(s, s.workers[w]) && S.CallbackOpen(s, s.workers[w]) && Stands(s.table[s.workers[w].task], result)
    ensures var t, s' := s.workers[w].task, CallbackStep(s, w, s.workers[w], outcome, error);
      t in s'.table && Stands(s'.table[t], result)
  {
  }

  lemma OnlyCallbackWrites(cfg: Config, s: State, s': State, step: Step, t: TaskId)
    requires S.Inv(cfg, s) && Enabled(cfg, s, step) && s' == Apply(cfg, s, step) && !DeliversRetry(s, s', t)
    requires S.Settled(s, t) && WritesResult(cfg, s, step, t)
    ensures step.CallbackDone?
  {
    if step.Finish? {
      SettledCannotCommit(cfg, s, t, s.workers[step.worker].owner);
    }
  }

  lemma CommittedResultStep(cfg: Config, s: State, s': State, t: TaskId, result: T.TaskResult)
    requires S.Inv(cfg, s) && ResultsOk(s) && Next(cfg, s, s') && !DeliversRetry(s, s', t)
    requires S.Settled(s, t) && Stands(s.table[t], result)
    ensures t in s'.table && Stands(s'.table[t], result)
  {
    var step :| Enabled(cfg, s, step) && s' == Apply(cfg, s, step);
    if !WritesResult(cfg, s, step, t) {
      ResultStays(cfg, s, s', step, t);
    } else {
      OnlyCallbackWrites(cfg, s, s', step, t);
      assert Stored(s, s.workers[step.worker]) && S.CallbackOpen(s, s.workers[step.worker]);
      CallbackStands(s, step.worker, step.outcome, step.error, result);
    }
  }

  predicate Holds(s: State, t: TaskId, result: T.TaskResult) {
    S.Settled(s, t) && Stands(s.table[t], result)
  }

  lemma CommitHolds(cfg: Config, run: seq<State>, i: nat, w: nat, t: TaskId, result: T.TaskResult)
    requires IsRun(cfg, run) && i + 1 < |run| && Commits(run[i], run[i + 1], w, t, result)
    ensures Holds(run[i + 1], t, result)
  {
    S.RunKeeps(cfg, run, i + 1);
    CommitStores(cfg, run[i], run[i + 1], w, t, result);
  }

  lemma HoldsOn(cfg: Config, run: seq<State>, j: nat, t: TaskId, result: T.TaskResult)
    requires IsRun(cfg, run) && j + 1 < |run| && Holds(run[j], t, result) && !DeliversRetry(run[j], run[j + 1], t)
    ensures Holds(run[j + 1], t, result)
  {
    S.RunKeeps(cfg, run, j);
    RunKeepsResults(cfg, run, j);
    S.OutcomeIsFinal(cfg, run, j, j + 1, t);
    CommittedResultStep(cfg, run[j], run[j + 1], t, result);
  }

  ghost predicate NoRetryOf(run: seq<State>, i: nat, j: nat, t: TaskId)
    requires j < |run|
  {
    forall k, next {:trigger DeliversRetry(run[k], run[next], t)} :: i <= k && next == k + 1 && next <= j ==>
      !DeliversRetry(run[k], run[next], t)
  }

  predicate Onward(run: seq<State>, k: nat, t: TaskId, result: T.TaskResult) {
    k + 1 < |run| && (Holds(run[k], t, result) ==> Holds(run[k + 1], t, result))
  }

  lemma HoldsNext(cfg: Config, run: seq<State>, i: nat, j: nat, k: nat, t: TaskId, result: T.TaskResult)
    requires IsRun(cfg, run) && i <= k < j < |run| && NoRetryOf(run, i, j, t)
    ensures Onward(run, k, t, result)
  {
    var next := k + 1;
    assert !DeliversRetry(run[k], run[next], t);
    if Holds(run[k], t, result) {
      HoldsOn(cfg, run, k, t, result);
    }
  }

  lemma {:induction false} HoldsUntil(run: seq<State>, i: nat, j: nat, t: TaskId, result: T.TaskResult)
    requires i <= j < |run| && Holds(run[i], t, result)
    requires forall k: nat :: i <= k < j ==> Onward(run, k, t, result)
    ensures Holds(run[j], t, result)
    decreases j
  {
    if i < j {
      HoldsUntil(run, i, j - 1, t, result);
      assert Onward(run, j - 1, t, result);
    }
  }

  lemma HoldsThroughout(cfg: Config, run: seq<State>, i: nat, j: nat, t: TaskId, result: T.TaskResult)
    requires IsRun(cfg, run) && i <= j < |run| && NoRetryOf(run, i, j, t)
    ensures forall k: nat :: i <= k < j ==> Onward(run, k, t, result)
  {
    forall k: nat | i <= k < j ensures Onward(run, k, t, result) {
      HoldsNext(cfg, run, i, j, k, t, result);
    }
  }

  lemma HoldsFrom(cfg: Config, run: seq<State>, i: nat, j: nat, t: TaskId, result: T.TaskResult)
    requires IsRun(cfg, run) && i <= j < |run| && NoRetryOf(run, i, j, t) && Holds(run[i], t, result)
    ensures Holds(run[j], t, result)
  {
    HoldsThroughout(cfg, run, i, j, t, result);
    HoldsUntil(run, i, j, t, result);
  }

  /** From its commit until a retried callback of the task is delivered, the stored result is exactly the one its worker
      finished with, but for the error that a failed callback adds. */
  lemma {:induction false} CommittedResultStands(
    cfg: Config, run: seq<State>, i: nat, j: nat, w: nat, t: TaskId, result: T.TaskResult)
    requires IsRun(cfg, run) && i < j < |run| && Commits(run[i], run[i + 1], w, t, result)
    requires NoRetryOf(run, i + 1, j, t)
    ensures t in run[j].table && T.IsTerminal(run[j].table[t].execution) && Stands(run[j].table[t], result)
  {
    var first := i + 1;
    assert Holds(run[first], t, result) by { CommitHolds(cfg, run, i, w, t, result); }
    assert Holds(run[j], t, result) by { HoldsFrom(cfg, run, first, j, t, result); }
  }

  // ---- Callbacks ----

  /** Recording a callback writes its outcome, and a failed one leaves the worker to queue a retry with the result. */
  lemma CallbackIsRecorded(cfg: Config, s: State, s': State, w: nat, outcome: T.CallbackStatus, error: string)
    requires S.Inv(cfg, s) && Enabled(cfg, s, CallbackDone(w, outcome, error))
    requires s' == Apply(cfg, s, CallbackDone(w, outcome, error))
    ensures var p := s.workers[w];
      && p.task in s'.table && s'.table[p.task].callbackStatus == outcome
      && s'.table[p.task].result ==
           Some(if outcome == T.CbFailed then p.result.(callbackError := Some(error)) else p.result)
      && s'.workers[w] ==
           if outcome == T.CbFailed then Retrying(p.msg, p.delivery, p.task, p.result) else Acking(p.msg, p.delivery)
  {
    assert S.PhaseOk(s, S.Hist(s.log), s.workers[w]);
  }

  /** A worker that owes a retry goes on to acknowledge only by queueing it: a new message of that task and outcome. */
  lemma FailedCallbackIsQueued(cfg: Config, s: State, s': State, step: Step, w: nat)
    requires Enabled(cfg, s, step) && s' == Apply(cfg, s, step)
    requires w in s.workers && s.workers[w].Retrying? && w in s'.workers && s'.workers[w].Acking?
    ensures step.PublishRetry? && step.retry !in s.retries && step.retry in s'.retries
    ensures var m, p := s'.retries[step.retry], s.workers[w];
      && m.task == p.task && !m.acked && m.delivered == 0
      && m.payload.taskId == p.result.taskId && m.payload.success == p.result.success
  {
    if step.Handle? {
      HandleHoldsNone(s, step.worker, s.workers[step.worker], step.owner, step.leaseBase, step.expires, w);
    }
  }

  /** Delivering a retried callback marks it as sent and restores the status to the outcome. */
  lemma RetryIsRecorded(cfg: Config, s: State, s': State)
    requires S.Inv(cfg, s) && Enabled(cfg, s, RetryDeliver) && s' == Apply(cfg, s, RetryDeliver)
    ensures var m := s.retries[s.retryLoop.retry];
      && m.task in s'.table && s'.table[m.task].callbackStatus == T.CbSent
      && s'.table[m.task].status == s'.table[m.task].execution == s.table[m.task].execution
      && s'.table[m.task].result == Some(m.payload)
  {
    var m := s.retries[s.retryLoop.retry];
    assert S.OutcomeOk(s, m.task, m.payload) && S.RowOk(s, S.Hist(s.log)(m.task), m.task);
  }

  // ---- Messages ----

  predicate CarriesCallback(s: State, m: nat) {
    m in s.messages && s.messages[m].task.Some? ==>
      s.messages[m].task.value in s.table && s.messages[m].callback == s.table[s.messages[m].task.value].callback
  }

  lemma MessageOrigin(cfg: Config, s: State, s': State, step: Step, m: nat)
    requires Enabled(cfg, s, step) && s' == Apply(cfg, s, step) && m in s'.messages
    ensures if m in s.messages
      then s'.messages[m].task == s.messages[m].task && s'.messages[m].callback == s.messages[m].callback
      else (step.Publish? && CarriesCallback(s', m)) || (step.Inject? && s'.messages[m].task.None?)
  {
    if step.Handle? {
      HandleMessages(s, step.worker, s.workers[step.worker], step.owner, step.leaseBase, step.expires);
    }
  }

  /** Every queued message carries the callback its task was submitted with. */
  lemma {:induction false} MessagesCarryCallbacks(cfg: Config, run: seq<State>, i: nat, m: nat)
    requires IsRun(cfg, run) && i < |run|
    ensures CarriesCallback(run[i], m)
  {
    if i > 0 && m in run[i].messages {
      MessagesCarryCallbacks(cfg, run, i - 1, m);
      CarriedStep(cfg, run[i - 1], run[i - 1 + 1], m);
    }
  }

  lemma CarriedStep(cfg: Config, s: State, s': State, m: nat)
    requires Next(cfg, s, s') && CarriesCallback(s, m)
    ensures CarriesCallback(s', m)
  {
    var step :| Enabled(cfg, s, step) && s' == Apply(cfg, s, step);
    if m in s'.messages {
      MessageOrigin(cfg, s, s', step, m);
      if m in s.messages && s.messages[m].task.Some? {
        StepKeepsSubmission(cfg, s, s', s.messages[m].task.value);
      }
    }
  }
}
