/**
 * What can still become of a stored task and of a queued callback. A task is put on the work queue only by the request
 * that stored it; when that fails the task stays queued for good, whatever is submitted later. A queued callback is
 * delivered or dead-lettered unless the retry loop has stopped.
 */
module LeaseQueues {
  import opened Json
  import opened IsoTime
  import opened LeaseProtocol
  import S = LeaseSafety
  import F = LeaseFate
  import T = TaskTable

  // ---- Tasks that never reach the queue ----

  ghost predicate HasMessage(s: State, t: TaskId) {
    exists m :: m in s.messages && s.messages[m].task == Some(t)
  }

  predicate NotOn(p: Phase, t: TaskId) {
    p.Executing? || p.Committed? || p.Retrying? ==> p.task != t
  }

  /** Stored, with nothing in the system that could work on it. */
  ghost predicate Lost(s: State, t: TaskId) {
    && t in s.table && t !in s.unpublished && !HasMessage(s, t)
    && (forall w :: w in s.workers ==> NotOn(s.workers[w], t))
    && (forall r :: r in s.retries ==> s.retries[r].task != t)
  }

  lemma HandleKeepsLost(s: State, w: nat, p: Phase, o: Owner, base: Instant, expires: Instant, t: TaskId)
    requires p.Fetched? && TaskFor(s, p) && Lost(s, t)
    ensures var s' := HandleStep(s, w, p, o, base, expires); Lost(s', t) && s'.table[t] == s.table[t]
  {
  }

  predicate TableStep(step: Step) {
    step.Submit? || step.Heartbeat? || step.Finish? || step.CallbackDone? || step.RetryDeliver?
  }

  /** A worker's step on another task moves only that worker and that task's row. */
  lemma ElsewhereKeepsLost(s: State, s': State, w: nat, t: TaskId)
    requires Lost(s, t) && s'.messages == s.messages && s'.retries == s.retries && s'.unpublished == s.unpublished
    requires w in s.workers && w in s'.workers && s'.workers == s.workers[w := s'.workers[w]] && NotOn(s'.workers[w], t)
    requires t in s'.table && s'.table[t] == s.table[t]
    ensures Lost(s', t)
  {
  }

  lemma FinishKeepsLost(s: State, w: nat, result: T.TaskResult, t: TaskId)
    requires Lost(s, t) && w in s.workers && s.workers[w].Executing?
    ensures var s' := FinishStep(s, w, s.workers[w], result); Lost(s', t) && s'.table[t] == s.table[t]
  {
    ElsewhereKeepsLost(s, FinishStep(s, w, s.workers[w], result), w, t);
  }

  lemma CallbackKeepsLost(s: State, w: nat, outcome: T.CallbackStatus, error: string, t: TaskId)
    requires Lost(s, t) && w in s.workers && s.workers[w].Committed?
    ensures var s' := CallbackStep(s, w, s.workers[w], outcome, error); Lost(s', t) && s'.table[t] == s.table[t]
  {
    ElsewhereKeepsLost(s, CallbackStep(s, w, s.workers[w], outcome, error), w, t);
  }

  lemma HeartbeatKeepsLost(cfg: Config, s: State, s': State, step: Step, t: TaskId)
    requires Enabled(cfg, s, step) && s' == Apply(cfg, s, step) && Lost(s, t) && step.Heartbeat?
    ensures Lost(s', t) && s'.table[t] == s.table[t]
  {
    if s' != s {
      ElsewhereKeepsLost(s, s', step.worker, t);
    }
  }

  lemma TableStepKeepsLost(cfg: Config, s: State, s': State, step: Step, t: TaskId)
    requires Enabled(cfg, s, step) && s' == Apply(cfg, s, step) && Lost(s, t) && (step.Submit? || step.RetryDeliver?)
    ensures Lost(s', t) && s'.table[t] == s.table[t]
  {
    if step.RetryDeliver? {
      assert s.retries[s.retryLoop.retry].task != t;
    }
  }

  lemma QueueStepKeepsLost(cfg: Config, s: State, s': State, step: Step, t: TaskId)
    requires Enabled(cfg, s, step) && s' == Apply(cfg, s, step) && Lost(s, t) && !TableStep(step) && !step.Handle?
    ensures Lost(s', t) && s'.table == s.table
  {
  }

  lemma StepKeepsLost(cfg: Config, s: State, s': State, t: TaskId)
    requires Next(cfg, s, s') && Lost(s, t)
    ensures Lost(s', t) && s'.table[t] == s.table[t]
  {
    var step :| Enabled(cfg, s, step) && s' == Apply(cfg, s, step);
    if step.Handle? {
      HandleKeepsLost(s, step.worker, s.workers[step.worker], step.owner, step.leaseBase, step.expires, t);
    } else if step.Heartbeat? {
      HeartbeatKeepsLost(cfg, s, s', step, t);
    } else if step.Finish? {
      FinishKeepsLost(s, step.worker, step.result, t);
    } else if step.CallbackDone? {
      CallbackKeepsLost(s, step.worker, step.outcome, step.error, t);
    } else if TableStep(step) {
      TableStepKeepsLost(cfg, s, s', step, t);
    } else {
      QueueStepKeepsLost(cfg, s, s', step, t);
    }
  }

  /** A lost task stays as it is in every continuation, submissions of it and restarts included. */
  lemma {:induction false} LostForever(cfg: Config, run: seq<State>, t: TaskId)
    requires F.Continues(cfg, run) && Lost(run[0], t)
    ensures Lost(Last(run), t) && Last(run).table[t] == run[0].table[t]
    decreases |run|
  {
    if |run| > 1 {
      var n := |run| - 1;
      assert F.Continues(cfg, run[..n]);
      LostForever(cfg, run[..n], t);
      assert Next(cfg, run[n - 1], run[n - 1 + 1]);
      StepKeepsLost(cfg, run[n - 1], run[n], t);
    }
  }

  // ---- Every stored task is unpublished, on the queue or lost ----

  /** A callback is queued only for a task that was published. */
  predicate RetriesPublished(s: State) {
    forall r :: r in s.retries ==> s.retries[r].task !in s.unpublished
  }

  lemma RetryPublishedStep(cfg: Config, s: State, s': State, step: Step)
    requires S.Inv(cfg, s) && RetriesPublished(s) && Enabled(cfg, s, step) && s' == Apply(cfg, s, step)
    requires step.Submit? || step.PublishRetry?
    ensures RetriesPublished(s')
  {
    if step.PublishRetry? {
      var p := s.workers[step.worker];
      assert S.PhaseOk(s, S.Hist(s.log), p);
      assert S.MessageOk(cfg, s, s.messages[p.msg]);
    } else {
      assert forall r :: r in s.retries ==> S.OutcomeOk(s, s.retries[r].task, s.retries[r].payload);
    }
  }

  lemma OtherStepsPublishNoRetry(cfg: Config, s: State, s': State, step: Step)
    requires RetriesPublished(s) && Enabled(cfg, s, step) && s' == Apply(cfg, s, step)
    requires !step.Submit? && !step.PublishRetry? && !step.Handle?
    ensures RetriesPublished(s')
  {
  }

  lemma HandleQueuesNoRetry(s: State, w: nat, p: Phase, o: Owner, base: Instant, expires: Instant)
    requires p.Fetched? && TaskFor(s, p)
    ensures var s' := HandleStep(s, w, p, o, base, expires); s'.retries == s.retries && s'.unpublished == s.unpublished
  {
  }

  lemma StepKeepsRetriesPublished(cfg: Config, s: State, s': State)
    requires S.Inv(cfg, s) && RetriesPublished(s) && Next(cfg, s, s')
    ensures RetriesPublished(s')
  {
    var step :| Enabled(cfg, s, step) && s' == Apply(cfg, s, step);
    if step.Submit? || step.PublishRetry? {
      RetryPublishedStep(cfg, s, s', step);
    } else if step.Handle? {
      HandleQueuesNoRetry(s, step.worker, s.workers[step.worker], step.owner, step.leaseBase, step.expires);
    } else {
      OtherStepsPublishNoRetry(cfg, s, s', step);
    }
  }

  lemma WorkersAreElsewhere(cfg: Config, s: State, t: TaskId)
    requires S.Inv(cfg, s) && t in s.unpublished
    ensures t in s.table && !HasMessage(s, t)
    ensures forall w :: w in s.workers ==> NotOn(s.workers[w], t)
  {
    assert S.RowOk(s, S.Hist(s.log)(t), t);
    assert forall m :: m in s.messages ==> S.MessageOk(cfg, s, s.messages[m]);
    forall w | w in s.workers ensures NotOn(s.workers[w], t) {
      assert S.PhaseOk(s, S.Hist(s.log), s.workers[w]);
    }
  }

  /** Giving up publishing, or dying before it, loses the task. */
  lemma DroppingLoses(cfg: Config, s: State, s': State, step: Step, t: TaskId)
    requires S.Inv(cfg, s) && RetriesPublished(s) && Enabled(cfg, s, step) && s' == Apply(cfg, s, step)
    requires t in s.unpublished && (step == PublishLost(t) || step.Restart?)
    ensures Lost(s', t) && s'.table == s.table
  {
    WorkersAreElsewhere(cfg, s, t);
  }

  /** Where a stored task is. */
  ghost predicate Placed(s: State, t: TaskId) {
    t in s.table ==> t in s.unpublished || HasMessage(s, t) || Lost(s, t)
  }

  lemma MessageStays(cfg: Config, s: State, s': State, step: Step, m: nat)
    requires Enabled(cfg, s, step) && s' == Apply(cfg, s, step) && m in s.messages
    ensures m in s'.messages && s'.messages[m].task == s.messages[m].task
  {
    if step.Handle? {
      F.HandleMessages(s, step.worker, s.workers[step.worker], step.owner, step.leaseBase, step.expires);
    }
  }

  lemma UnpublishedStep(cfg: Config, s: State, s': State, step: Step, t: TaskId)
    requires Enabled(cfg, s, step) && s' == Apply(cfg, s, step) && t in s.unpublished
    requires step != PublishLost(t) && !step.Restart?
    ensures t in s'.unpublished || HasMessage(s', t)
  {
    if step.Publish? && step.task == t {
      assert s'.messages[step.msg].task == Some(t);
    }
  }

  lemma NewRowIsUnpublished(cfg: Config, s: State, s': State, step: Step, t: TaskId)
    requires Enabled(cfg, s, step) && s' == Apply(cfg, s, step) && t !in s.table && t in s'.table
    ensures t in s'.unpublished
  {
    if step.Handle? {
      F.HandleTable(s, step.worker, s.workers[step.worker], step.owner, step.leaseBase, step.expires);
      assert false;
    }
    F.OtherStepAddsNoRow(cfg, s, s', step, t);
  }

  lemma StepKeepsPlaced(cfg: Config, s: State, s': State, t: TaskId)
    requires S.Inv(cfg, s) && RetriesPublished(s) && Placed(s, t) && Next(cfg, s, s')
    ensures Placed(s', t)
  {
    var step :| Enabled(cfg, s, step) && s' == Apply(cfg, s, step);
    if t !in s.table {
      if t in s'.table {
        NewRowIsUnpublished(cfg, s, s', step, t);
      }
    } else if HasMessage(s, t) {
      var m :| m in s.messages && s.messages[m].task == Some(t);
      MessageStays(cfg, s, s', step, m);
    } else if Lost(s, t) {
      StepKeepsLost(cfg, s, s', t);
    } else if step == PublishLost(t) || step.Restart? {
      DroppingLoses(cfg, s, s', step, t);
    } else {
      UnpublishedStep(cfg, s, s', step, t);
    }
  }

  lemma {:induction false} RunPlaces(cfg: Config, run: seq<State>, i: nat, t: TaskId)
    requires IsRun(cfg, run) && i < |run|
    ensures RetriesPublished(run[i]) && Placed(run[i], t)
  {
    if i > 0 {
      RunPlaces(cfg, run, i - 1, t);
      S.RunKeeps(cfg, run, i - 1);
      assert Next(cfg, run[i - 1], run[i - 1 + 1]);
      StepKeepsRetriesPublished(cfg, run[i - 1], run[i]);
      StepKeepsPlaced(cfg, run[i - 1], run[i], t);
    }
  }

  // ---- Exactly which stored tasks can still run ----

  ghost predicate CanReachQueue(cfg: Config, s: State, t: TaskId) {
    exists more :: F.Continues(cfg, more) && more[0] == s && HasMessage(Last(more), t)
  }

  lemma {:induction false} AboveAll(xs: set<nat>) returns (k: nat)
    ensures forall x :: x in xs ==> x < k
  {
    if xs == {} {
      return 0;
    }
    var x :| x in xs;
    k := AboveAll(xs - {x});
    if k <= x {
      k := x + 1;
    }
    assert forall y :: y in xs ==> y == x || y in xs - {x};
  }

  lemma PublishReaches(cfg: Config, s: State, t: TaskId)
    requires t in s.unpublished && t in s.table
    ensures CanReachQueue(cfg, s, t)
  {
    var m := AboveAll(s.messages.Keys);
    assert m !in s.messages.Keys;
    var s' := Apply(cfg, s, Publish(t, m));
    assert s'.messages[m].task == Some(t);
    var more := [s, s'];
    assert F.Continues(cfg, more) && Last(more) == s';
  }

  /** In every reachable state, a stored task without a queue message can still get one if and only if the request that
      stored it has yet to publish it. If not, its row stays as it is in every continuation, whatever is submitted. */
  lemma ReachesQueueExactlyWhen(cfg: Config, run: seq<State>, i: nat, t: TaskId)
    requires IsRun(cfg, run) && i < |run| && t in run[i].table && !HasMessage(run[i], t)
    ensures CanReachQueue(cfg, run[i], t) <==> t in run[i].unpublished
    ensures t !in run[i].unpublished ==>
      forall more :: F.Continues(cfg, more) && more[0] == run[i] ==>
        t in Last(more).table && Last(more).table[t] == run[i].table[t]
  {
    RunPlaces(cfg, run, i, t);
    if t in run[i].unpublished {
      PublishReaches(cfg, run[i], t);
    } else {
      forall more | F.Continues(cfg, more) && more[0] == run[i]
        ensures Lost(Last(more), t) && Last(more).table[t] == run[i].table[t]
      {
        LostForever(cfg, more, t);
      }
    }
  }

  lemma LossSteps(cfg: Config, s: State, t: TaskId, payload: Fields, callback: Option<string>)
    requires t !in s.table && s.messages == map[]
    ensures var submit := Submit(t, payload, callback);
      && var s1 := Apply(cfg, s, submit);
         && Enabled(cfg, s1, PublishLost(t))
         && var s2 := Apply(cfg, s1, PublishLost(t));
            && Apply(cfg, s2, submit) == s2 && s2.messages == map[] && t !in s2.unpublished
            && t in s2.table && s2.table[t].execution == T.Queued
  {
  }

  /** It happens: a task is stored, publishing it fails, and the caller's second submission is taken as a duplicate. */
  lemma LossIsReachable(cfg: Config, t: TaskId, payload: Fields, callback: Option<string>, now: Instant)
    ensures exists run ::
      && IsRun(cfg, run) && t in Last(run).table && Last(run).table[t].execution == T.Queued
      && t !in Last(run).unpublished && !HasMessage(Last(run), t)
  {
    var s0 := State(map[], {}, map[], map[], map[], Waiting, now, []);
    var submit := Submit(t, payload, callback);
    LossSteps(cfg, s0, t, payload, callback);
    var s1 := Apply(cfg, s0, submit);
    var s2 := Apply(cfg, s1, PublishLost(t));
    var run := [s0, s1, s2, s2];
    assert Next(cfg, s0, s1);
    assert Next(cfg, s1, s2);
    assert Next(cfg, s2, s2) by { assert Enabled(cfg, s2, submit); }
    FourStates(cfg, s0, s1, s2);
  }

  lemma FourStates(cfg: Config, s0: State, s1: State, s2: State)
    requires Init(s0) && Next(cfg, s0, s1) && Next(cfg, s1, s2) && Next(cfg, s2, s2)
    ensures IsRun(cfg, [s0, s1, s2, s2]) && Last([s0, s1, s2, s2]) == s2
  {
    var run := [s0, s1, s2, s2];
    forall i, next | 0 <= i && next == i + 1 && next < |run| ensures Next(cfg, run[i], run[next]) {
      assert i == 0 || i == 1 || i == 2;
    }
  }

  // ---- Callbacks that wait for a retry ----

  predicate InLoop(s: State, r: nat) {
    !s.retryLoop.Waiting? && !s.retryLoop.Stopped? && s.retryLoop.retry == r
  }

  /** What the loop holds is on the queue, at the delivery it was fetched with. */
  predicate LoopHolds(cfg: Config, s: State) {
    !s.retryLoop.Waiting? && !s.retryLoop.Stopped? ==>
      && s.retryLoop.retry in s.retries
      && (!s.retryLoop.Dropped? ==> s.retryLoop.delivery == s.retries[s.retryLoop.retry].delivered)
  }

  /** Unless the loop has stopped, a callback that waits has a delivery left or is in the loop. */
  predicate NoneStranded(cfg: Config, s: State) {
    !s.retryLoop.Stopped? ==>
      forall r :: r in s.retries && !s.retries[r].acked ==> s.retries[r].delivered < cfg.maxDeliver || InLoop(s, r)
  }

  lemma RetryStepKeepsLoop(cfg: Config, s: State, s': State, step: Step)
    requires Enabled(cfg, s, step) && s' == Apply(cfg, s, step) && cfg.maxDeliver >= 1
    requires LoopHolds(cfg, s) && NoneStranded(cfg, s)
    requires step.PublishRetry? || step.RetryFetch? || step.RetryAck? || step.Restart?
    ensures LoopHolds(cfg, s') && NoneStranded(cfg, s')
  {
  }

  lemma LoopStepKeepsLoop(cfg: Config, s: State, s': State, step: Step)
    requires Enabled(cfg, s, step) && s' == Apply(cfg, s, step)
    requires LoopHolds(cfg, s) && NoneStranded(cfg, s)
    requires step.RetryDeliver? || step.RetryRaise? || step.RetryGiveUp? || step.RetryNak? || step.RetryStop?
    ensures LoopHolds(cfg, s') && NoneStranded(cfg, s')
  {
  }

  predicate RetryStep(step: Step) {
    || step.PublishRetry? || step.RetryFetch? || step.RetryAck? || step.Restart? || step.RetryDeliver?
    || step.RetryRaise? || step.RetryGiveUp? || step.RetryNak? || step.RetryStop?
  }

  lemma OtherStepsLeaveLoop(cfg: Config, s: State, s': State, step: Step)
    requires Enabled(cfg, s, step) && s' == Apply(cfg, s, step) && !RetryStep(step) && !step.Handle?
    ensures s'.retries == s.retries && s'.retryLoop == s.retryLoop
  {
  }

  lemma HandleLeavesLoop(s: State, w: nat, p: Phase, o: Owner, base: Instant, expires: Instant)
    requires p.Fetched? && TaskFor(s, p)
    ensures var s' := HandleStep(s, w, p, o, base, expires); s'.retries == s.retries && s'.retryLoop == s.retryLoop
  {
  }

  lemma StepLeavesLoop(cfg: Config, s: State, s': State, step: Step)
    requires Enabled(cfg, s, step) && s' == Apply(cfg, s, step) && !RetryStep(step)
    ensures s'.retries == s.retries && s'.retryLoop == s.retryLoop
  {
    if step.Handle? {
      HandleLeavesLoop(s, step.worker, s.workers[step.worker], step.owner, step.leaseBase, step.expires);
    } else {
      OtherStepsLeaveLoop(cfg, s, s', step);
    }
  }

  lemma StepKeepsLoop(cfg: Config, s: State, s': State)
    requires Next(cfg, s, s') && cfg.maxDeliver >= 1 && LoopHolds(cfg, s) && NoneStranded(cfg, s)
    ensures LoopHolds(cfg, s') && NoneStranded(cfg, s')
  {
    var step :| Enabled(cfg, s, step) && s' == Apply(cfg, s, step);
    if !RetryStep(step) {
      StepLeavesLoop(cfg, s, s', step);
    } else if step.PublishRetry? || step.RetryFetch? || step.RetryAck? || step.Restart? {
      RetryStepKeepsLoop(cfg, s, s', step);
    } else {
      LoopStepKeepsLoop(cfg, s, s', step);
    }
  }

  lemma {:induction false} RunKeepsLoop(cfg: Config, run: seq<State>, i: nat)
    requires IsRun(cfg, run) && i < |run| && cfg.maxDeliver >= 1
    ensures LoopHolds(cfg, run[i]) && NoneStranded(cfg, run[i])
  {
    if i > 0 {
      RunKeepsLoop(cfg, run, i - 1);
      assert Next(cfg, run[i - 1], run[i - 1 + 1]);
      StepKeepsLoop(cfg, run[i - 1], run[i]);
    }
  }

  predicate Waits(s: State, r: nat) {
    r in s.retries && !s.retries[r].acked
  }

  /** A stopped loop settles nothing until the executor is restarted. */
  lemma StoppedStep(cfg: Config, s: State, s': State, step: Step, r: nat)
    requires Enabled(cfg, s, step) && s' == Apply(cfg, s, step) && !step.Restart?
    requires s.retryLoop.Stopped? && Waits(s, r)
    ensures s'.retryLoop.Stopped? && Waits(s', r)
  {
    if !RetryStep(step) {
      StepLeavesLoop(cfg, s, s', step);
    }
  }

  lemma {:induction false} StoppedForLife(cfg: Config, more: seq<State>, r: nat)
    requires F.Continues(cfg, more) && more[0].retryLoop.Stopped? && Waits(more[0], r)
    ensures Restarts(more[0].log) <= Restarts(Last(more).log)
    ensures F.SameLife(more) ==> Last(more).retryLoop.Stopped? && Waits(Last(more), r)
    decreases |more|
  {
    if |more| > 1 {
      var n := |more| - 1;
      var s, s', init := more[n - 1], more[n], more[..n];
      assert F.Continues(cfg, init);
      StoppedForLife(cfg, init, r);
      assert Next(cfg, more[n - 1], more[n - 1 + 1]);
      var step :| Enabled(cfg, s, step) && s' == Apply(cfg, s, step);
      F.RestartsGrow(cfg, s, s', step);
      if F.SameLife(more) {
        StoppedStep(cfg, s, s', step, r);
      }
    }
  }

  /** Delivered or dead-lettered, and so acknowledged. */
  predicate RetrySettled(s: State, r: nat) {
    r in s.retries && s.retries[r].acked
  }

  ghost predicate CanSettle(cfg: Config, s: State, r: nat) {
    exists more :: F.Continues(cfg, more) && more[0] == s && F.SameLife(more) && RetrySettled(Last(more), r)
  }

  lemma LoopStepInLife(cfg: Config, s: State, s': State, step: Step)
    requires Enabled(cfg, s, step) && s' == Apply(cfg, s, step)
    requires RetryStep(step) && !step.Restart?
    ensures Restarts(s'.log) == Restarts(s.log)
  {
    if s'.log != s.log {
      S.HistAfter(s.log, Last(s'.log));
      assert s'.log == s.log + [Last(s'.log)];
    }
  }

  lemma SettlesNext(cfg: Config, s: State, s': State, step: Step, r: nat)
    requires Enabled(cfg, s, step) && s' == Apply(cfg, s, step) && Restarts(s'.log) == Restarts(s.log)
    requires CanSettle(cfg, s', r)
    ensures CanSettle(cfg, s, r)
  {
    var rest :| F.Continues(cfg, rest) && rest[0] == s' && F.SameLife(rest) && RetrySettled(Last(rest), r);
    var more := [s] + rest;
    assert Next(cfg, s, s');
    forall i | 0 <= i < |more| - 1 ensures Next(cfg, more[i], more[i + 1]) {
      if i > 0 {
        assert more[i] == rest[i - 1] && more[i + 1] == rest[i - 1 + 1];
      }
    }
    assert Last(more) == Last(rest);
  }

  /** The loop is at work, and callback `r` waits. */
  predicate Working(cfg: Config, s: State, r: nat) {
    LoopHolds(cfg, s) && NoneStranded(cfg, s) && !s.retryLoop.Stopped? && Waits(s, r)
  }

  lemma AckSettles(cfg: Config, s: State, r: nat)
    requires Working(cfg, s, r) && (s.retryLoop.Delivered? || s.retryLoop.Dropped?) && InLoop(s, r)
    ensures CanSettle(cfg, s, r)
  {
    var s' := Apply(cfg, s, RetryAck);
    LoopStepInLife(cfg, s, s', RetryAck);
    assert F.Continues(cfg, [s']) && F.SameLife([s']) && RetrySettled(Last([s']), r);
    SettlesNext(cfg, s, s', RetryAck, r);
  }

  lemma HeldSettles(cfg: Config, s: State, r: nat)
    requires Working(cfg, s, r) && s.retryLoop.Holding? && InLoop(s, r)
    ensures CanSettle(cfg, s, r)
  {
    var s' := Apply(cfg, s, RetryDeliver);
    LoopStepInLife(cfg, s, s', RetryDeliver);
    LoopStepKeepsLoop(cfg, s, s', RetryDeliver);
    AckSettles(cfg, s', r);
    SettlesNext(cfg, s, s', RetryDeliver, r);
  }

  lemma FetchSettles(cfg: Config, s: State, r: nat)
    requires Working(cfg, s, r) && s.retryLoop.Waiting? && cfg.maxDeliver >= 1
    ensures CanSettle(cfg, s, r)
  {
    var step := RetryFetch(r);
    var s' := Apply(cfg, s, step);
    LoopStepInLife(cfg, s, s', step);
    RetryStepKeepsLoop(cfg, s, s', step);
    HeldSettles(cfg, s', r);
    SettlesNext(cfg, s, s', step, r);
  }

  lemma DroppedSettles(cfg: Config, s: State, r: nat)
    requires Working(cfg, s, r) && s.retryLoop.Dropped? && cfg.maxDeliver >= 1
    ensures CanSettle(cfg, s, r)
  {
    if InLoop(s, r) {
      AckSettles(cfg, s, r);
    } else {
      var s' := Apply(cfg, s, RetryAck);
      LoopStepInLife(cfg, s, s', RetryAck);
      RetryStepKeepsLoop(cfg, s, s', RetryAck);
      FetchSettles(cfg, s', r);
      SettlesNext(cfg, s, s', RetryAck, r);
    }
  }

  lemma FailingSettles(cfg: Config, s: State, r: nat)
    requires Working(cfg, s, r) && s.retryLoop.Failing? && cfg.maxDeliver >= 1
    ensures CanSettle(cfg, s, r)
  {
    var step := if s.retryLoop.delivery >= cfg.maxDeliver then RetryGiveUp else RetryNak;
    var s' := Apply(cfg, s, step);
    LoopStepInLife(cfg, s, s', step);
    LoopStepKeepsLoop(cfg, s, s', step);
    if step.RetryNak? {
      FetchSettles(cfg, s', r);
    } else {
      DroppedSettles(cfg, s', r);
    }
    SettlesNext(cfg, s, s', step, r);
  }

  lemma BusySettles(cfg: Config, s: State, r: nat)
    requires Working(cfg, s, r) && (s.retryLoop.Holding? || s.retryLoop.Delivered?) && cfg.maxDeliver >= 1
    ensures CanSettle(cfg, s, r)
  {
    var s' := Apply(cfg, s, RetryRaise);
    LoopStepInLife(cfg, s, s', RetryRaise);
    LoopStepKeepsLoop(cfg, s, s', RetryRaise);
    FailingSettles(cfg, s', r);
    SettlesNext(cfg, s, s', RetryRaise, r);
  }

  lemma WorkingSettles(cfg: Config, s: State, r: nat)
    requires Working(cfg, s, r) && cfg.maxDeliver >= 1
    ensures CanSettle(cfg, s, r)
  {
    match s.retryLoop
    case Waiting => FetchSettles(cfg, s, r);
    case Failing(_, _) => FailingSettles(cfg, s, r);
    case Dropped(_) => DroppedSettles(cfg, s, r);
    case _ => BusySettles(cfg, s, r);
  }

  /** In every reachable state, a queued callback can still be delivered or dead-lettered in this life of the executor
      if and only if the retry loop has not stopped: no number of failures strands it otherwise. */
  lemma RetrySettlesExactlyWhen(cfg: Config, run: seq<State>, i: nat, r: nat)
    requires IsRun(cfg, run) && i < |run| && cfg.maxDeliver >= 1 && Waits(run[i], r)
    ensures CanSettle(cfg, run[i], r) <==> !run[i].retryLoop.Stopped?
  {
    RunKeepsLoop(cfg, run, i);
    if run[i].retryLoop.Stopped? {
      forall more | F.Continues(cfg, more) && more[0] == run[i] && F.SameLife(more)
        ensures !RetrySettled(Last(more), r)
      {
        StoppedForLife(cfg, more, r);
      }
    } else {
      WorkingSettles(cfg, run[i], r);
    }
  }
}
