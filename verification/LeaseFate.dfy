/**
 * What becomes of a submission over a run: a worker always runs with what was submitted first, and a message whose last
 * delivery is dropped stays on the queue, neither acknowledged nor dead-lettered, until the consumer is created anew.
 */
module LeaseFate {
  import opened Json
  import opened IsoTime
  import opened LeaseProtocol
  import Redaction
  import S = LeaseSafety
  import T = TaskTable

  // ---- The submitted payload ----

  /** What a row holds of its submission: the redacted and the full payload, and the callback. */
  datatype Submission = Submission(stored: Fields, full: Fields, callback: Option<string>)

  function SubmissionOf(row: T.Row): Submission {
    Submission(row.payload, row.executionPayload, row.callback)
  }

  predicate Keeps(before: T.Table, after: T.Table, t: TaskId) {
    t in before ==> t in after && SubmissionOf(after[t]) == SubmissionOf(before[t])
  }

  lemma ClaimKeepsSubmission(table: T.Table, id: TaskId, owner: Owner, expires: string, now: string, t: TaskId)
    ensures Keeps(table, T.Claimed(table, id, owner, expires, now), t)
  {
  }

  lemma RenewalKeepsSubmission(table: T.Table, id: TaskId, owner: Owner, expires: string, now: string, t: TaskId)
    ensures Keeps(table, T.Renewed(table, id, owner, expires, now), t)
  {
  }

  lemma CommitKeepsSubmission(
    table: T.Table, id: TaskId, status: T.Status, result: T.TaskResult, now: string, owner: Option<Owner>, t: TaskId)
    ensures Keeps(table, T.Committed(table, id, status, result, now, owner), t)
  {
  }

  lemma CallbackKeepsSubmission(
    table: T.Table, id: TaskId, outcome: T.CallbackStatus, result: T.TaskResult, now: string,
    preserve: Option<T.Status>, t: TaskId)
    ensures Keeps(table, T.CallbackUpdated(table, id, outcome, result, now, preserve), t)
  {
  }

  lemma HandleTable(s: State, w: nat, p: Phase, o: Owner, base: Instant, expires: Instant)
    requires p.Fetched? && TaskFor(s, p)
    ensures var table := HandleStep(s, w, p, o, base, expires).table;
      table == s.table || table == T.Claimed(s.table, s.messages[p.msg].task.value, o, Iso(expires), Stamp(s))
  {
  }

  predicate WritesTable(step: Step) {
    step.Submit? || step.Handle? || step.Heartbeat? || step.Finish? || step.CallbackDone? || step.RetryDeliver?
  }

  lemma OtherStepsLeaveTable(cfg: Config, s: State, s': State, step: Step)
    requires Enabled(cfg, s, step) && s' == Apply(cfg, s, step) && !WritesTable(step)
    ensures s'.table == s.table
  {
  }

  lemma WorkerStepKeepsSubmission(cfg: Config, s: State, s': State, step: Step, t: TaskId)
    requires Enabled(cfg, s, step) && s' == Apply(cfg, s, step) && (step.Handle? || step.Heartbeat? || step.Finish?)
    ensures Keeps(s.table, s'.table, t)
  {
    var p := s.workers[step.worker];
    if step.Handle? {
      HandleTable(s, step.worker, p, step.owner, step.leaseBase, step.expires);
      ClaimKeepsSubmission(s.table, s.messages[p.msg].task.value, step.owner, Iso(step.expires), Stamp(s), t);
    } else if step.Heartbeat? {
      RenewalKeepsSubmission(s.table, p.task, p.owner, Iso(step.expires), Stamp(s), t);
    } else {
      var r := step.result;
      CommitKeepsSubmission(s.table, p.task, Outcome(r.success), r, Stamp(s), Some(p.owner), t);
    }
  }

  lemma CallbackStepKeepsSubmission(cfg: Config, s: State, s': State, step: Step, t: TaskId)
    requires Enabled(cfg, s, step) && s' == Apply(cfg, s, step) && (step.CallbackDone? || step.RetryDeliver?)
    ensures Keeps(s.table, s'.table, t)
  {
    if step.CallbackDone? {
      var p := s.workers[step.worker];
      CallbackKeepsSubmission(
        s.table, p.task, step.outcome, Noted(p.result, step.outcome, step.error), Stamp(s),
        Some(Outcome(p.result.success)), t);
    } else {
      var m := s.retries[s.retryLoop.retry];
      CallbackKeepsSubmission(s.table, m.task, T.CbSent, m.payload, Stamp(s), Some(Outcome(m.payload.success)), t);
    }
  }

  lemma StepKeepsSubmission(cfg: Config, s: State, s': State, t: TaskId)
    requires Next(cfg, s, s')
    ensures Keeps(s.table, s'.table, t)
  {
    var step :| Enabled(cfg, s, step) && s' == Apply(cfg, s, step);
    if step.Handle? || step.Heartbeat? || step.Finish? {
      WorkerStepKeepsSubmission(cfg, s, s', step, t);
    } else if step.CallbackDone? || step.RetryDeliver? {
      CallbackStepKeepsSubmission(cfg, s, s', step, t);
    } else if !step.Submit? {
      OtherStepsLeaveTable(cfg, s, s', step);
    }
  }

  lemma KeepsIsTransitive(a: T.Table, b: T.Table, c: T.Table, t: TaskId)
    requires Keeps(a, b, t) && Keeps(b, c, t)
    ensures Keeps(a, c, t)
  {
  }

  lemma {:induction false} KeepsAlong(tables: seq<T.Table>, i: nat, j: nat, t: TaskId)
    requires i <= j < |tables|
    requires forall k, next :: i <= k && next == k + 1 && next <= j ==> Keeps(tables[k], tables[next], t)
    ensures Keeps(tables[i], tables[j], t)
    decreases j
  {
    if i < j {
      KeepsAlong(tables, i, j - 1, t);
      KeepsIsTransitive(tables[i], tables[j - 1], tables[j], t);
    }
  }

  lemma RunStepKeepsSubmission(cfg: Config, run: seq<State>, j: nat, t: TaskId)
    requires IsRun(cfg, run) && j + 1 < |run|
    ensures Keeps(run[j].table, run[j + 1].table, t)
  {
    StepKeepsSubmission(cfg, run[j], run[j + 1], t);
  }

  /** Once a task is in the table, no later state has other payloads or another callback for it. */
  lemma SubmissionStands(cfg: Config, run: seq<State>, i: nat, j: nat, t: TaskId)
    requires IsRun(cfg, run) && i <= j < |run|
    ensures Keeps(run[i].table, run[j].table, t)
  {
    var tables := seq(|run|, k requires 0 <= k < |run| => run[k].table);
    forall k, next | i <= k && next == k + 1 && next <= j ensures Keeps(tables[k], tables[next], t) {
      RunStepKeepsSubmission(cfg, run, k, t);
    }
    KeepsAlong(tables, i, j, t);
  }

  /** A row appears only by a submission, which fills it. */
  predicate Submits(s: State, s': State, t: TaskId, payload: Fields, callback: Option<string>) {
    && t !in s.table && t in s'.table
    && s'.table == T.Created(s.table, t, T.Queued, payload, callback, Stamp(s))
  }

  ghost predicate Submitted(s: State, s': State, t: TaskId) {
    exists payload, callback :: Submits(s, s', t, payload, callback)
  }

  lemma OtherStepAddsNoRow(cfg: Config, s: State, s': State, step: Step, t: TaskId)
    requires Enabled(cfg, s, step) && s' == Apply(cfg, s, step) && t !in s.table && !step.Handle?
    ensures t in s'.table ==> step.Submit? && step.task == t
  {
  }

  lemma RowComesFromSubmission(cfg: Config, s: State, s': State, t: TaskId)
    requires Next(cfg, s, s') && t !in s.table && t in s'.table
    ensures Submitted(s, s', t)
  {
    var step :| Enabled(cfg, s, step) && s' == Apply(cfg, s, step);
    if step.Handle? {
      HandleTable(s, step.worker, s.workers[step.worker], step.owner, step.leaseBase, step.expires);
      assert false;
    }
    OtherStepAddsNoRow(cfg, s, s', step, t);
    assert Submits(s, s', t, step.payload, step.callback);
  }

  lemma EmptyIsRedacted()
    ensures Redaction.Sanitized(map[]) == map[]
  {
    Redaction.SanitizedHasNoSecrets(map[]);
    assert Redaction.Sanitized(map[]).Keys == {};
  }

  /** From its first submission on, a worker that falls back to the queued redacted copy for an empty stored payload
      still runs the task with exactly the payload submitted first; resubmissions under the same id change nothing. */
  lemma WorkerRunsFirstSubmission(
    cfg: Config, run: seq<State>, i: nat, j: nat, t: TaskId, payload: Fields, callback: Option<string>)
    requires IsRun(cfg, run) && i < j < |run| && Submits(run[i], run[i + 1], t, payload, callback)
    ensures t in run[j].table
    ensures T.PayloadFor(run[j].table, t, Redaction.Sanitized(payload)) == payload
    ensures run[j].table[t].payload == Redaction.Sanitized(payload) && run[j].table[t].callback == callback
  {
    SubmissionStands(cfg, run, i + 1, j, t);
    EmptyIsRedacted();
  }

  ghost predicate SubmittedAt(run: seq<State>, i: nat, t: TaskId) {
    i + 1 < |run| && Submitted(run[i], run[i + 1], t)
  }

  ghost predicate Appears(run: seq<State>, i: nat, t: TaskId) {
    i + 1 < |run| && t !in run[i].table && t in run[i + 1].table
  }

  lemma {:induction false} FirstAppearance(run: seq<State>, j: nat, t: TaskId)
    requires j < |run| && t !in run[0].table && t in run[j].table
    ensures exists i :: 0 <= i < j && Appears(run, i, t)
    decreases j
  {
    if t in run[j - 1].table {
      FirstAppearance(run, j - 1, t);
    } else {
      assert Appears(run, j - 1, t);
    }
  }

  /** And every row of every state has such a submission before it. */
  lemma EveryTaskWasSubmitted(cfg: Config, run: seq<State>, j: nat, t: TaskId)
    requires IsRun(cfg, run) && j < |run| && t in run[j].table
    ensures exists i :: 0 <= i < j && SubmittedAt(run, i, t)
  {
    FirstAppearance(run, j, t);
    var i :| 0 <= i < j && Appears(run, i, t);
    RowComesFromSubmission(cfg, run[i], run[i + 1], t);
    assert SubmittedAt(run, i, t);
  }

  // ---- Messages nobody will get ----

  predicate Held(s: State, w: nat, m: nat) {
    w in s.workers && !s.workers[w].Idle? && s.workers[w].msg == m
  }

  ghost predicate HeldBySome(s: State, m: nat) {
    exists w :: Held(s, w, m)
  }

  /** On the queue with no delivery left, and held by no worker. */
  ghost predicate Stranded(cfg: Config, s: State, m: nat) {
    && m in s.messages && !s.messages[m].acked && s.messages[m].delivered >= cfg.maxDeliver
    && !HeldBySome(s, m)
  }

  lemma HandleMessages(s: State, w: nat, p: Phase, o: Owner, base: Instant, expires: Instant)
    requires p.Fetched? && TaskFor(s, p)
    ensures HandleStep(s, w, p, o, base, expires).messages == s.messages
  {
  }

  lemma OtherStepsLeaveMessages(cfg: Config, s: State, s': State, step: Step)
    requires Enabled(cfg, s, step) && s' == Apply(cfg, s, step)
    requires !step.Publish? && !step.Inject? && !step.Fetch? && !step.Handle? && !step.Ack? && !step.Restart?
    ensures s'.messages == s.messages
  {
  }

  lemma QueueStep(cfg: Config, s: State, s': State, step: Step, m: nat)
    requires Enabled(cfg, s, step) && s' == Apply(cfg, s, step) && m in s.messages
    requires step.Publish? || step.Inject? || step.Fetch? || step.Ack?
    ensures m in s'.messages && s'.messages[m].delivered >= s.messages[m].delivered
    ensures s'.messages[m].delivered != s.messages[m].delivered ==> step.Fetch? && step.msg == m
    ensures s'.messages[m].acked <==> s.messages[m].acked || (step.Ack? && s.workers[step.worker].msg == m)
  {
  }

  /** What a step does to a message, for every step but `Restart`. */
  lemma MessageStep(cfg: Config, s: State, s': State, step: Step, m: nat)
    requires Enabled(cfg, s, step) && s' == Apply(cfg, s, step) && m in s.messages && !step.Restart?
    ensures m in s'.messages && s'.messages[m].delivered >= s.messages[m].delivered
    ensures s'.messages[m].delivered != s.messages[m].delivered ==> step.Fetch? && step.msg == m
    ensures s'.messages[m].acked <==> s.messages[m].acked || (step.Ack? && s.workers[step.worker].msg == m)
  {
    if step.Publish? || step.Inject? || step.Fetch? || step.Ack? {
      QueueStep(cfg, s, s', step, m);
    } else if step.Handle? {
      HandleMessages(s, step.worker, s.workers[step.worker], step.owner, step.leaseBase, step.expires);
    } else {
      OtherStepsLeaveMessages(cfg, s, s', step);
    }
  }

  lemma HandleHolds(s: State, w: nat, p: Phase, o: Owner, base: Instant, expires: Instant, v: nat, m: nat)
    requires p.Fetched? && TaskFor(s, p) && w in s.workers && s.workers[w] == p
    ensures Held(HandleStep(s, w, p, o, base, expires), v, m) <==>
      Held(s, v, m) && !(v == w && HandlingOf(s, p, o) == Skip)
  {
  }

  /** The worker lets go of its message without acknowledging it: it dies, it naks, or it skips a delivery whose task is
      leased to another worker or unknown. */
  predicate Drops(cfg: Config, s: State, step: Step, w: nat) {
    && Enabled(cfg, s, step)
    && (step == Crash(w) || step == Nak(w)
        || (step.Handle? && step.worker == w && HandlingOf(s, s.workers[w], step.owner) == Skip))
  }

  predicate Touches(step: Step, w: nat) {
    match step
    case Fetch(v, _) => v == w
    case Handle(v, _, _, _) => v == w
    case Raise(v) => v == w
    case Heartbeat(v, _) => v == w
    case Finish(v, _) => v == w
    case CallbackDone(v, _, _) => v == w
    case PublishRetry(v, _, _) => v == w
    case Ack(v) => v == w
    case GiveUp(v) => v == w
    case Nak(v) => v == w
    case Crash(v) => v == w
    case _ => false
  }

  lemma OtherWorkersStay(cfg: Config, s: State, s': State, step: Step, w: nat)
    requires Enabled(cfg, s, step) && s' == Apply(cfg, s, step) && !Touches(step, w) && !step.Restart? && !step.Handle?
    ensures w in s'.workers <==> w in s.workers
    ensures w in s.workers ==> s'.workers[w] == s.workers[w]
  {
  }

  /** A worker keeps its message through the steps that neither drop it nor acknowledge it. */
  lemma OwnStepHolds(cfg: Config, s: State, s': State, step: Step, w: nat, m: nat)
    requires Enabled(cfg, s, step) && s' == Apply(cfg, s, step) && Touches(step, w) && !step.Fetch? && !step.Handle?
    ensures Held(s', w, m) <==> Held(s, w, m) && !step.Crash? && !step.Nak? && !step.Ack?
  {
  }

  lemma HandleHolderStep(cfg: Config, s: State, s': State, step: Step, w: nat, m: nat)
    requires Enabled(cfg, s, step) && s' == Apply(cfg, s, step) && step.Handle?
    ensures Held(s', w, m) <==> Held(s, w, m) && !Drops(cfg, s, step, w)
  {
    var p := s.workers[step.worker];
    HandleHolds(s, step.worker, p, step.owner, step.leaseBase, step.expires, w, m);
  }

  /** Who holds a message after a step. */
  lemma HolderStep(cfg: Config, s: State, s': State, step: Step, w: nat, m: nat)
    requires Enabled(cfg, s, step) && s' == Apply(cfg, s, step) && !step.Restart?
    ensures Held(s', w, m) <==>
      || (step.Fetch? && step.worker == w && step.msg == m)
      || (Held(s, w, m) && !Drops(cfg, s, step, w) && !(step.Ack? && step.worker == w))
  {
    if step.Handle? {
      HandleHolderStep(cfg, s, s', step, w, m);
    } else if !Touches(step, w) {
      OtherWorkersStay(cfg, s, s', step, w);
    } else if !step.Fetch? {
      OwnStepHolds(cfg, s, s', step, w, m);
    }
  }

  /** A stranded message stays stranded, unacknowledged, through every step but a restart. */
  lemma StepKeepsStranded(cfg: Config, s: State, s': State, step: Step, m: nat)
    requires Enabled(cfg, s, step) && s' == Apply(cfg, s, step) && !step.Restart? && Stranded(cfg, s, m)
    ensures Stranded(cfg, s', m)
  {
    MessageStep(cfg, s, s', step, m);
    forall w ensures !Held(s', w, m) {
      HolderStep(cfg, s, s', step, w, m);
    }
    assert step.Ack? ==> Held(s, step.worker, s.workers[step.worker].msg);
  }

  ghost predicate OnlyHolder(s: State, w: nat, m: nat) {
    Held(s, w, m) && forall v :: Held(s, v, m) ==> v == w
  }

  lemma DroppedIsStranded(cfg: Config, s: State, s': State, step: Step, w: nat, m: nat)
    requires Enabled(cfg, s, step) && s' == Apply(cfg, s, step) && m in s.messages && !s.messages[m].acked
    requires s.messages[m].delivered >= cfg.maxDeliver && Drops(cfg, s, step, w) && OnlyHolder(s, w, m)
    ensures Stranded(cfg, s', m)
  {
    MessageStep(cfg, s, s', step, m);
    forall v ensures !Held(s', v, m) {
      HolderStep(cfg, s, s', step, v, m);
    }
  }

  lemma StrandedWasDropped(cfg: Config, s: State, s': State, step: Step, m: nat)
    requires Enabled(cfg, s, step) && s' == Apply(cfg, s, step) && m in s.messages && !step.Restart?
    requires !Stranded(cfg, s, m) && Stranded(cfg, s', m)
    ensures !s.messages[m].acked && s.messages[m].delivered >= cfg.maxDeliver
    ensures exists w :: OnlyHolder(s, w, m) && Drops(cfg, s, step, w)
  {
    MessageStep(cfg, s, s', step, m);
    forall v ensures Held(s, v, m) ==> Drops(cfg, s, step, v) {
      HolderStep(cfg, s, s', step, v, m);
    }
    if step.Fetch? && step.msg == m {
      HolderStep(cfg, s, s', step, step.worker, m);
      assert false;
    }
    var w :| Held(s, w, m);
    assert OnlyHolder(s, w, m);
  }

  /** The exact moment: a message becomes stranded when its last holder drops its last delivery. */
  lemma StrandsExactlyWhen(cfg: Config, s: State, s': State, step: Step, m: nat)
    requires Enabled(cfg, s, step) && s' == Apply(cfg, s, step) && m in s.messages && !step.Restart?
    requires !Stranded(cfg, s, m)
    ensures Stranded(cfg, s', m) <==>
      && !s.messages[m].acked && s.messages[m].delivered >= cfg.maxDeliver
      && exists w :: OnlyHolder(s, w, m) && Drops(cfg, s, step, w)
  {
    if Stranded(cfg, s', m) {
      StrandedWasDropped(cfg, s, s', step, m);
    } else if exists w :: OnlyHolder(s, w, m) && Drops(cfg, s, step, w) {
      var w :| OnlyHolder(s, w, m) && Drops(cfg, s, step, w);
      if !s.messages[m].acked && s.messages[m].delivered >= cfg.maxDeliver {
        DroppedIsStranded(cfg, s, s', step, w, m);
      }
    }
  }

  // ---- Over one life of the consumer ----

  /** A run from any state. */
  ghost predicate Continues(cfg: Config, run: seq<State>) {
    run != [] && forall i :: 0 <= i < |run| - 1 ==> Next(cfg, run[i], run[i + 1])
  }

  lemma RestartsGrow(cfg: Config, s: State, s': State, step: Step)
    requires Enabled(cfg, s, step) && s' == Apply(cfg, s, step)
    ensures Restarts(s.log) <= Restarts(s'.log)
    ensures step.Restart? ==> Restarts(s.log) < Restarts(s'.log)
  {
    S.LogGrows(cfg, s, s', step);
    if s'.log != s.log {
      S.HistAfter(s.log, Last(s'.log));
    }
  }

  /** No dead letter for a message that no worker holds. */
  lemma DeadLetterNeedsHolder(cfg: Config, s: State, s': State, step: Step, m: nat)
    requires Enabled(cfg, s, step) && s' == Apply(cfg, s, step) && s'.log == s.log + [EvDeadLetter(m)]
    ensures step.GiveUp? && Held(s, step.worker, m)
  {
    assert Last(s'.log) == EvDeadLetter(m);
    if step.Handle? {
      S.HandleLogs(s, step.worker, s.workers[step.worker], step.owner, step.leaseBase, step.expires);
      assert false;
    }
    DeadLetterStep(cfg, s, s', step, m);
  }

  lemma DeadLetterStep(cfg: Config, s: State, s': State, step: Step, m: nat)
    requires Enabled(cfg, s, step) && s' == Apply(cfg, s, step) && !step.Handle?
    requires s'.log != s.log && s'.log != [] && Last(s'.log) == EvDeadLetter(m)
    ensures step.GiveUp? && s.workers[step.worker].msg == m
  {
  }

  predicate HasDeadLetter(log: Log, m: nat) {
    EvDeadLetter(m) in log
  }

  lemma {:induction false} LifeKeepsStranded(cfg: Config, run: seq<State>, m: nat)
    requires Continues(cfg, run) && Stranded(cfg, run[0], m)
    ensures Restarts(run[0].log) <= Restarts(Last(run).log)
    ensures Restarts(run[0].log) == Restarts(Last(run).log) ==>
      Stranded(cfg, Last(run), m) && (HasDeadLetter(Last(run).log, m) ==> HasDeadLetter(run[0].log, m))
    decreases |run|
  {
    if |run| > 1 {
      var n := |run| - 1;
      var s, s', init := run[n - 1], run[n], run[..n];
      assert Continues(cfg, init);
      LifeKeepsStranded(cfg, init, m);
      assert Next(cfg, run[n - 1], run[n - 1 + 1]);
      var step :| Enabled(cfg, s, step) && s' == Apply(cfg, s, step);
      RestartsGrow(cfg, s, s', step);
      if Restarts(run[0].log) == Restarts(s'.log) {
        StepKeepsStranded(cfg, s, s', step, m);
        NoNewDeadLetter(cfg, s, s', step, m);
      }
    }
  }

  lemma NoNewDeadLetter(cfg: Config, s: State, s': State, step: Step, m: nat)
    requires Enabled(cfg, s, step) && s' == Apply(cfg, s, step) && Stranded(cfg, s, m)
    ensures HasDeadLetter(s'.log, m) ==> HasDeadLetter(s.log, m)
  {
    S.LogGrows(cfg, s, s', step);
    if HasDeadLetter(s'.log, m) && !HasDeadLetter(s.log, m) {
      assert s'.log == s.log + [EvDeadLetter(m)];
      DeadLetterNeedsHolder(cfg, s, s', step, m);
      assert false;
    }
  }

  ghost predicate SameLife(run: seq<State>)
    requires run != []
  {
    Restarts(run[0].log) == Restarts(Last(run).log)
  }

  lemma FetchHolds(cfg: Config, s: State, w: nat, m: nat) returns (run: seq<State>)
    requires w in s.workers && s.workers[w].Idle?
    requires m in s.messages && !s.messages[m].acked && s.messages[m].delivered < cfg.maxDeliver
    ensures Continues(cfg, run) && run[0] == s && SameLife(run) && HeldBySome(Last(run), m)
  {
    var s' := Apply(cfg, s, Fetch(w, m));
    run := [s, s'];
    assert Held(s', w, m);
  }

  /** A message with a delivery left can still reach a worker. */
  lemma CanBeDelivered(cfg: Config, s: State, w: nat, m: nat) returns (run: seq<State>)
    requires w in s.workers
    requires m in s.messages && !s.messages[m].acked && s.messages[m].delivered < cfg.maxDeliver
    ensures Continues(cfg, run) && run[0] == s && SameLife(run) && HeldBySome(Last(run), m)
  {
    if s.workers[w].Idle? {
      run := FetchHolds(cfg, s, w, m);
    } else {
      var crashed := WithPhase(s, w, Idle);
      assert crashed == Apply(cfg, s, Crash(w));
      assert Enabled(cfg, s, Crash(w));
      var rest := FetchHolds(cfg, crashed, w, m);
      run := [s] + rest;
      assert forall i :: 0 < i < |run| ==> run[i] == rest[i - 1];
    }
  }

  ghost predicate ReachesWorker(cfg: Config, s: State, m: nat) {
    exists run :: Continues(cfg, run) && run[0] == s && SameLife(run) && HeldBySome(Last(run), m)
  }

  /** An unacknowledged message can reach a worker again in this life of the consumer exactly if it is not stranded. */
  lemma ReachesWorkerExactlyWhen(cfg: Config, s: State, w: nat, m: nat)
    requires w in s.workers && m in s.messages && !s.messages[m].acked
    ensures ReachesWorker(cfg, s, m) <==> !Stranded(cfg, s, m)
  {
    if Stranded(cfg, s, m) {
      forall run | Continues(cfg, run) && run[0] == s && SameLife(run) ensures !HeldBySome(Last(run), m) {
        LifeKeepsStranded(cfg, run, m);
      }
    } else if HeldBySome(s, m) {
      assert Continues(cfg, [s]) && SameLife([s]) && Last([s]) == s;
    } else {
      var run := CanBeDelivered(cfg, s, w, m);
    }
  }

  lemma RestartOffers(cfg: Config, s: State, w: nat, m: nat)
    requires cfg.maxDeliver >= 1 && w in s.workers && m in s.messages && !s.messages[m].acked
    ensures Enabled(cfg, RestartStep(s), Fetch(w, m))
    ensures RestartStep(s).messages[m].task == s.messages[m].task
    ensures forall r :: r in s.retries && !s.retries[r].acked ==> Enabled(cfg, RestartStep(s), RetryFetch(r))
  {
  }

  /** Recreating the consumers ends that: every unacknowledged message, a stranded one too, reaches a worker again,
      every unacknowledged callback can be fetched again, and no row is lost. */
  lemma RestartRevives(cfg: Config, s: State, s': State, w: nat, m: nat)
    requires s' == Apply(cfg, s, Restart) && cfg.maxDeliver >= 1
    requires w in s.workers && m in s.messages && !s.messages[m].acked
    ensures s'.table == s.table && m in s'.messages && s'.messages[m].task == s.messages[m].task
    ensures Enabled(cfg, s', Fetch(w, m)) && ReachesWorker(cfg, s', m)
    ensures forall r :: r in s.retries && !s.retries[r].acked ==> Enabled(cfg, s', RetryFetch(r))
  {
    RestartOffers(cfg, s, w, m);
    var run := FetchHolds(cfg, s', w, m);
  }

  // ---- It happens ----

  /** One worker, one submitted task, its message delivered `n` times and dropped each time. */
  function DroppedState(row: T.Row, t: TaskId, now: Instant, n: nat): State {
    State(map[t := row], {}, map[0 := Message(Some(t), row.callback, n, false)], map[0 := Idle], map[], Waiting, now,
          [EvPublished(t)])
  }

  lemma DropAgain(cfg: Config, row: T.Row, t: TaskId, now: Instant, n: nat, held: State)
    requires n < cfg.maxDeliver && held == FetchStep(DroppedState(row, t, now, n), 0, 0)
    ensures Next(cfg, DroppedState(row, t, now, n), held) && Next(cfg, held, DroppedState(row, t, now, n + 1))
  {
    var s, s' := DroppedState(row, t, now, n), DroppedState(row, t, now, n + 1);
    assert Enabled(cfg, s, Fetch(0, 0)) && held == Apply(cfg, s, Fetch(0, 0));
    assert Enabled(cfg, held, Crash(0));
    assert Apply(cfg, held, Crash(0)).workers == s'.workers;
    assert Apply(cfg, held, Crash(0)) == s';
  }

  lemma PublishedRun(cfg: Config, t: TaskId, payload: Fields, now: Instant) returns (run: seq<State>)
    ensures IsRun(cfg, run)
    ensures Last(run) == DroppedState(T.NewRow(T.Queued, payload, None, Iso(now)), t, now, 0)
  {
    var row := T.NewRow(T.Queued, payload, None, Iso(now));
    var s0 := State(map[], {}, map[], map[0 := Idle], map[], Waiting, now, []);
    var s1 := s0.(table := map[t := row], unpublished := {t});
    var s2 := DroppedState(row, t, now, 0);
    assert Enabled(cfg, s0, Submit(t, payload, None)) && s1 == Apply(cfg, s0, Submit(t, payload, None));
    assert Enabled(cfg, s1, Publish(t, 0)) && s2 == Apply(cfg, s1, Publish(t, 0));
    run := [s0, s1, s2];
  }

  ghost predicate RunsTo(cfg: Config, run: seq<State>, s: State) {
    IsRun(cfg, run) && Last(run) == s
  }

  lemma Extended(cfg: Config, run: seq<State>, s: State, s': State)
    requires RunsTo(cfg, run, s) && Next(cfg, s, s')
    ensures RunsTo(cfg, run + [s'], s')
  {
    var longer := run + [s'];
    assert forall i :: 0 <= i < |run| ==> longer[i] == run[i];
  }

  lemma {:induction false} DroppedRun(
    cfg: Config, row: T.Row, t: TaskId, now: Instant, begun: seq<State>, n: nat) returns (run: seq<State>)
    requires n <= cfg.maxDeliver && RunsTo(cfg, begun, DroppedState(row, t, now, 0))
    ensures RunsTo(cfg, run, DroppedState(row, t, now, n))
  {
    if n == 0 {
      run := begun;
    } else {
      var init := DroppedRun(cfg, row, t, now, begun, n - 1);
      run := DroppedOnce(cfg, row, t, now, init, n - 1);
    }
  }

  lemma DroppedOnce(
    cfg: Config, row: T.Row, t: TaskId, now: Instant, init: seq<State>, n: nat) returns (run: seq<State>)
    requires n < cfg.maxDeliver && RunsTo(cfg, init, DroppedState(row, t, now, n))
    ensures RunsTo(cfg, run, DroppedState(row, t, now, n + 1))
  {
    var s, s' := DroppedState(row, t, now, n), DroppedState(row, t, now, n + 1);
    var held := FetchStep(s, 0, 0);
    DropAgain(cfg, row, t, now, n, held);
    Extended(cfg, init, s, held);
    Extended(cfg, init + [held], held, s');
    run := init + [held] + [s'];
  }

  ghost predicate StrandedUnfinished(cfg: Config, run: seq<State>, m: nat, t: TaskId)
    requires run != []
  {
    var s := Last(run);
    && IsRun(cfg, run) && Stranded(cfg, s, m) && s.messages[m].task == Some(t)
    && !S.Settled(s, t) && !HasDeadLetter(s.log, m)
  }

  /** So a message may end neither acknowledged nor dead-lettered: under every delivery limit, a worker that dies on
      each delivery strands it with its task unfinished. */
  lemma StrandingIsReachable(cfg: Config, t: TaskId, payload: Fields, now: Instant)
    ensures exists run :: run != [] && StrandedUnfinished(cfg, run, 0, t)
  {
    var row := T.NewRow(T.Queued, payload, None, Iso(now));
    var begun := PublishedRun(cfg, t, payload, now);
    var run := DroppedRun(cfg, row, t, now, begun, cfg.maxDeliver);
    var s := Last(run);
    assert forall w :: w in s.workers ==> s.workers[w].Idle?;
    assert StrandedUnfinished(cfg, run, 0, t);
  }
}
