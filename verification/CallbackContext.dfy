/**
 * The stored context of a host collection that waits for a remote callback: the helpers that change it, the sweeper
 * that times it out or queues it again, and the bounded retries of publishing its metrics. Each helper's load, edit
 * and save is one atomic step.
 */
module CallbackContext {
  import opened Json

  type TaskId = string

  datatype Execution = WaitingCallback | ExecutionFinished | CallbackTimeout

  datatype Delivery = NotReady | Processing | Published | PublishPending | DeliveryFailed

  /** Times are milliseconds. */
  datatype Context = Context(
    execution: Execution,
    delivery: Delivery,
    createdAt: nat,
    updatedAt: nat,
    rawCallback: Option<Fields>,
    receivedAt: Option<nat>,
    deadlineAt: Option<nat>,
    enqueuedAt: Option<nat>,
    startedAt: Option<nat>,
    completedAt: Option<nat>,
    jobId: Option<string>,
    publishAttempts: nat,
    lastRetryAt: Option<nat>,
    nextRetryAt: Option<nat>,
    publishedAt: Option<nat>,
    lastError: Option<string>)

  type Contexts = map<TaskId, Context>

  datatype Config = Config(submitAcceptSeconds: nat, deadlineSeconds: nat, staleSeconds: nat, backoffs: seq<nat>)

  // ---- Edits of one context ----

  function Fresh(now: nat): Context {
    Context(WaitingCallback, NotReady, now, now, None, None, None, None, None, None, None, 0, None, None, None, None)
  }

  function Accepted(c: Context, now: nat, cfg: Config): Context {
    c.(deadlineAt := Some(now + cfg.deadlineSeconds * 1000), lastError := None, updatedAt := now)
  }

  function Recorded(c: Context, payload: Fields, now: nat): Context {
    if c.rawCallback.Some? then c
    else c.(rawCallback := Some(payload), receivedAt := Some(now), lastError := None, execution := ExecutionFinished,
            updatedAt := now)
  }

  function Enqueued(c: Context, job: string, now: nat): Context {
    c.(enqueuedAt := Some(now), jobId := Some(job), delivery := Processing, updatedAt := now)
  }

  function Started(c: Context, now: nat): Context {
    c.(startedAt := Some(now), lastError := None, nextRetryAt := None, delivery := Processing, updatedAt := now)
  }

  function Completed(c: Context, now: nat): Context {
    c.(completedAt := Some(now), publishedAt := Some(now), lastError := None, nextRetryAt := None,
       delivery := Published, updatedAt := now)
  }

  function Failed(c: Context, error: string, now: nat): Context {
    c.(completedAt := Some(now), lastError := Some(error), nextRetryAt := None, delivery := DeliveryFailed,
       updatedAt := now)
  }

  function Scheduled(c: Context, error: string, now: nat, cfg: Config): Context {
    var attempts := c.publishAttempts + 1;
    if attempts > |cfg.backoffs| then Failed(c, error, now)
    else
      c.(publishAttempts := attempts, lastRetryAt := Some(now),
         nextRetryAt := Some(now + cfg.backoffs[attempts - 1] * 1000), lastError := Some(error),
         delivery := PublishPending, updatedAt := now)
  }

  function TimedOut(c: Context, reason: string, now: nat): Context {
    c.(lastError := Some(reason), execution := CallbackTimeout, updatedAt := now)
  }

  // ---- The sweeper's reading of one context ----

  function OrZero(t: Option<nat>): nat {
    if t.Some? then t.value else 0
  }

  /** The time limit the context is under has passed: its deadline, or without one the limit for accepting it. */
  predicate PastLimit(c: Context, now: nat, cfg: Config) {
    if OrZero(c.deadlineAt) == 0
    then c.createdAt != 0 && c.createdAt + cfg.submitAcceptSeconds * 1000 <= now
    else OrZero(c.deadlineAt) <= now
  }

  predicate TimeoutDue(c: Context, now: nat, cfg: Config) {
    c.execution.WaitingCallback? && PastLimit(c, now, cfg)
  }

  predicate EnqueueDue(c: Context, now: nat, cfg: Config) {
    || (c.delivery.PublishPending? && OrZero(c.nextRetryAt) != 0 && OrZero(c.nextRetryAt) <= now)
    || (c.delivery.Processing? && OrZero(c.startedAt) != 0 && OrZero(c.startedAt) + cfg.staleSeconds * 1000 <= now)
  }

  function TimeoutReason(seen: Context): string {
    if OrZero(seen.deadlineAt) == 0 then "submit accept timeout" else "callback timeout"
  }

  /** What the sweeper, having seen `seen`, does to the context as it is by then. `now` is when it marks. */
  function Swept(c: Context, seen: Context, sweepNow: nat, now: nat, job: string, cfg: Config): Context {
    if TimeoutDue(seen, sweepNow, cfg) then TimedOut(c, TimeoutReason(seen), now)
    else if EnqueueDue(seen, sweepNow, cfg) then Enqueued(c, job, now)
    else c
  }

  // ---- Runs ----

  datatype View = View(id: TaskId, seen: Context)

  /** A sweep lists contexts one by one, then reads the clock, then acts on what it saw. */
  datatype Sweep = Listing(views: seq<View>) | Acting(now: nat, views: seq<View>)

  datatype State = State(clock: nat, contexts: Contexts, sweeps: map<nat, Sweep>)

  datatype Step =
    | Tick(elapsed: nat)
    | Store(id: TaskId)
    | Vanish(id: TaskId) // cleared, or expired
    | Accept(id: TaskId)
    | Record(id: TaskId, payload: Fields)
    | Enqueue(id: TaskId, job: string)
    | Start(id: TaskId)
    | Publish(id: TaskId)
    | Fail(id: TaskId, error: string)
    | Schedule(id: TaskId, error: string)
    | BeginSweep(sweeper: nat)
    | Look(sweeper: nat, id: TaskId)
    | EndListing(sweeper: nat)
    | Act(sweeper: nat, job: string)

  /** Every helper leaves a missing context missing. */
  function Edit(m: Contexts, id: TaskId, edit: Context -> Context): Contexts {
    if id in m then m[id := edit(m[id])] else m
  }

  predicate Enabled(s: State, step: Step) {
    match step
    case BeginSweep(k) => k !in s.sweeps
    case Look(k, id) => k in s.sweeps && s.sweeps[k].Listing? && id in s.contexts
    case EndListing(k) => k in s.sweeps && s.sweeps[k].Listing?
    case Act(k, _) => k in s.sweeps && s.sweeps[k].Acting?
    case _ => true
  }

  function Contexts'(s: State, step: Step, cfg: Config): Contexts
    requires Enabled(s, step)
  {
    var m, now := s.contexts, s.clock;
    match step
    case Store(id) => m[id := Fresh(now)]
    case Vanish(id) => m - {id}
    case Accept(id) => Edit(m, id, c => Accepted(c, now, cfg))
    case Record(id, payload) => Edit(m, id, c => Recorded(c, payload, now))
    case Enqueue(id, job) => Edit(m, id, c => Enqueued(c, job, now))
    case Start(id) => Edit(m, id, c => Started(c, now))
    case Publish(id) => Edit(m, id, c => Completed(c, now))
    case Fail(id, error) => Edit(m, id, c => Failed(c, error, now))
    case Schedule(id, error) => Edit(m, id, c => Scheduled(c, error, now, cfg))
    case Act(k, job) =>
      var sweep := s.sweeps[k];
      if sweep.views == [] then m
      else
        var v := sweep.views[0];
        Edit(m, v.id, c => Swept(c, v.seen, sweep.now, now, job, cfg))
    case _ => m
  }

  function Sweeps'(s: State, step: Step): map<nat, Sweep>
    requires Enabled(s, step)
  {
    match step
    case BeginSweep(k) => s.sweeps[k := Listing([])]
    case Look(k, id) => s.sweeps[k := Listing(s.sweeps[k].views + [View(id, s.contexts[id])])]
    case EndListing(k) => s.sweeps[k := Acting(s.clock, s.sweeps[k].views)]
    case Act(k, _) =>
      var sweep := s.sweeps[k];
      if sweep.views == [] then s.sweeps - {k} else s.sweeps[k := Acting(sweep.now, sweep.views[1..])]
    case _ => s.sweeps
  }

  function Apply(s: State, step: Step, cfg: Config): State
    requires Enabled(s, step)
  {
    State(if step.Tick? then s.clock + step.elapsed else s.clock, Contexts'(s, step, cfg), Sweeps'(s, step))
  }

  predicate Init(s: State) {
    s.contexts == map[] && s.sweeps == map[]
  }

  /** `states[t + 1]` follows from `states[t]` by `steps[t]`. */
  predicate IsRun(states: seq<State>, steps: seq<Step>, cfg: Config) {
    && |states| == |steps| + 1
    && Init(states[0])
    && forall t :: 0 <= t < |steps| ==> Enabled(states[t], steps[t]) && states[t + 1] == Apply(states[t], steps[t], cfg)
  }

  /** The edit a step makes to the context of `id`, when there is one and the step does not store or remove it. */
  function EditOf(s: State, step: Step, id: TaskId, cfg: Config, c: Context): Context
    requires Enabled(s, step)
  {
    var now := s.clock;
    match step
    case Accept(i) => if i == id then Accepted(c, now, cfg) else c
    case Record(i, payload) => if i == id then Recorded(c, payload, now) else c
    case Enqueue(i, job) => if i == id then Enqueued(c, job, now) else c
    case Start(i) => if i == id then Started(c, now) else c
    case Publish(i) => if i == id then Completed(c, now) else c
    case Fail(i, error) => if i == id then Failed(c, error, now) else c
    case Schedule(i, error) => if i == id then Scheduled(c, error, now, cfg) else c
    case Act(k, job) =>
      var sweep := s.sweeps[k];
      if sweep.views != [] && sweep.views[0].id == id
      then Swept(c, sweep.views[0].seen, sweep.now, now, job, cfg)
      else c
    case _ => c
  }

  /** A context comes into being only by `Store`, and otherwise only by the step's edit changes. */
  lemma StepEdits(s: State, step: Step, cfg: Config, id: TaskId, s': State)
    requires Enabled(s, step) && s' == Apply(s, step, cfg)
    ensures step == Store(id) ==> id in s'.contexts && s'.contexts[id] == Fresh(s.clock)
    ensures step == Vanish(id) ==> id !in s'.contexts
    ensures step != Store(id) && step != Vanish(id) ==> (id in s'.contexts <==> id in s.contexts)
    ensures step != Store(id) && id in s'.contexts ==>
      id in s.contexts && s'.contexts[id] == EditOf(s, step, id, cfg, s.contexts[id])
  {
  }

  // ---- In every reachable state ----

  predicate Consistent(c: Context, clock: nat, cfg: Config) {
    && (c.rawCallback.Some? <==> c.receivedAt.Some?)
    && (c.execution.ExecutionFinished? ==> c.rawCallback.Some?)
    && (c.rawCallback.Some? ==> !c.execution.WaitingCallback?)
    && c.publishAttempts <= |cfg.backoffs|
    && c.createdAt <= c.updatedAt <= clock
    && (c.receivedAt.Some? ==> c.createdAt <= c.receivedAt.value <= clock)
    && (c.delivery.PublishPending? ==> c.nextRetryAt.Some? && c.publishAttempts > 0)
  }

  ghost predicate AllConsistent(s: State, cfg: Config) {
    forall id :: id in s.contexts ==> Consistent(s.contexts[id], s.clock, cfg)
  }

  lemma EditKeepsConsistent(s: State, step: Step, id: TaskId, cfg: Config, c: Context)
    requires Enabled(s, step) && Consistent(c, s.clock, cfg)
    ensures Consistent(EditOf(s, step, id, cfg, c), s.clock, cfg)
  {
  }

  lemma StepKeepsConsistent(s: State, step: Step, cfg: Config, s': State)
    requires Enabled(s, step) && s' == Apply(s, step, cfg) && AllConsistent(s, cfg)
    ensures AllConsistent(s', cfg) && s.clock <= s'.clock
  {
    forall id | id in s'.contexts ensures Consistent(s'.contexts[id], s'.clock, cfg) {
      StepEdits(s, step, cfg, id, s');
      if step != Store(id) {
        EditKeepsConsistent(s, step, id, cfg, s.contexts[id]);
      }
    }
  }

  /** In every reachable state: payload and received time are there together; a finished execution has its payload; a
      context that still waits has none; scheduled retries are within the number of backoffs. */
  lemma {:induction false} RunIsConsistent(states: seq<State>, steps: seq<Step>, cfg: Config, t: nat)
    requires IsRun(states, steps, cfg) && t < |states|
    ensures AllConsistent(states[t], cfg)
    decreases t
  {
    if t > 0 {
      RunIsConsistent(states, steps, cfg, t - 1);
      StepKeepsConsistent(states[t - 1], steps[t - 1], cfg, states[t]);
    }
  }

  lemma {:induction false} ClockIsMonotone(states: seq<State>, steps: seq<Step>, cfg: Config, i: nat, j: nat)
    requires IsRun(states, steps, cfg) && i <= j < |states|
    ensures states[i].clock <= states[j].clock
    decreases j
  {
    if i < j {
      ClockIsMonotone(states, steps, cfg, i, j - 1);
    }
  }

  // ---- The first payload wins ----

  predicate NoStore(steps: seq<Step>, i: nat, j: nat, id: TaskId)
    requires i <= j <= |steps|
  {
    forall t :: i <= t < j ==> steps[t] != Store(id)
  }

  /** Once a context is gone, only storing a new one brings it back. */
  lemma {:induction false} PresentBefore(states: seq<State>, steps: seq<Step>, cfg: Config, i: nat, j: nat, id: TaskId)
    requires IsRun(states, steps, cfg) && i <= j < |states| && NoStore(steps, i, j, id)
    requires id in states[j].contexts
    ensures id in states[i].contexts
    decreases j
  {
    if i < j {
      StepEdits(states[j - 1], steps[j - 1], cfg, id, states[j]);
      PresentBefore(states, steps, cfg, i, j - 1, id);
    }
  }

  ghost predicate Present(states: seq<State>, i: nat, j: nat, id: TaskId)
    requires i <= j < |states|
  {
    forall t :: i <= t <= j ==> id in states[t].contexts
  }

  lemma PresentWithin(states: seq<State>, steps: seq<Step>, cfg: Config, i: nat, j: nat, id: TaskId)
    requires IsRun(states, steps, cfg) && i <= j < |states| && NoStore(steps, i, j, id)
    requires id in states[j].contexts
    ensures Present(states, i, j, id)
  {
    forall t | i <= t <= j ensures id in states[t].contexts {
      PresentBefore(states, steps, cfg, t, j, id);
    }
  }

  /** A recorded payload, and the time it came in, are never replaced while the context lives. */
  lemma {:induction false} FirstPayloadWins(
    states: seq<State>, steps: seq<Step>, cfg: Config, i: nat, j: nat, id: TaskId)
    requires IsRun(states, steps, cfg) && i <= j < |states| && NoStore(steps, i, j, id)
    requires id in states[i].contexts && id in states[j].contexts && states[i].contexts[id].rawCallback.Some?
    ensures states[j].contexts[id].rawCallback == states[i].contexts[id].rawCallback
    ensures states[j].contexts[id].receivedAt == states[i].contexts[id].receivedAt
    decreases j
  {
    if i < j {
      StepEdits(states[j - 1], steps[j - 1], cfg, id, states[j]);
      FirstPayloadWins(states, steps, cfg, i, j - 1, id);
    }
  }

  /** The step that brings a payload in is a `Record` of that payload, and it sets payload, time and status at once. */
  lemma PayloadComesWhole(states: seq<State>, steps: seq<Step>, cfg: Config, t: nat, id: TaskId)
    requires IsRun(states, steps, cfg) && t < |steps|
    requires id in states[t + 1].contexts
    requires !(id in states[t].contexts && states[t].contexts[id].rawCallback.Some?)
    ensures var c := states[t + 1].contexts[id];
            c.rawCallback.Some? <==> id in states[t].contexts && steps[t].Record? && steps[t].id == id
    ensures var c := states[t + 1].contexts[id];
            c.rawCallback.Some? ==>
              && c.rawCallback == Some(steps[t].payload)
              && c.receivedAt == Some(states[t].clock)
              && c.execution.ExecutionFinished?
  {
    StepEdits(states[t], steps[t], cfg, id, states[t + 1]);
  }

  // ---- Time limits ----

  /** Sweeper `k` took `view` in one of the first `n` steps, not after time `latest`. */
  ghost predicate SeenBy(states: seq<State>, steps: seq<Step>, n: nat, k: nat, view: View, latest: nat)
    requires n <= |steps| < |states|
  {
    exists i :: 0 <= i < n && steps[i] == Look(k, view.id) && TakenAt(states[i], view) && states[i].clock <= latest
  }

  predicate TakenAt(s: State, view: View) {
    view.id in s.contexts && s.contexts[view.id] == view.seen
  }

  ghost predicate SweepSound(states: seq<State>, steps: seq<Step>, n: nat, k: nat, sweep: Sweep)
    requires n <= |steps| < |states|
  {
    var latest := if sweep.Acting? then sweep.now else states[n].clock;
    && latest <= states[n].clock
    && forall x :: 0 <= x < |sweep.views| ==> SeenBy(states, steps, n, k, sweep.views[x], latest)
  }

  lemma SweepStaysSound(states: seq<State>, steps: seq<Step>, n: nat, k: nat, sweep: Sweep)
    requires n < |steps| < |states| && SweepSound(states, steps, n, k, sweep) && states[n].clock <= states[n + 1].clock
    ensures SweepSound(states, steps, n + 1, k, sweep)
  {
    var latest := if sweep.Acting? then sweep.now else states[n].clock;
    forall x | 0 <= x < |sweep.views|
      ensures SeenBy(states, steps, n + 1, k, sweep.views[x], if sweep.Acting? then sweep.now else states[n + 1].clock)
    {
      assert SeenBy(states, steps, n, k, sweep.views[x], latest);
    }
  }

  /** What the next step makes of a sweep. */
  lemma SweepStep(s: State, step: Step, cfg: Config, k: nat, s': State)
    requires Enabled(s, step) && s' == Apply(s, step, cfg) && k in s'.sweeps
    ensures k !in s.sweeps ==> s'.sweeps[k] == Listing([])
    ensures k in s.sweeps ==>
      || s'.sweeps[k] == s.sweeps[k]
      || (step.Look? && step.sweeper == k && step.id in s.contexts
          && s'.sweeps[k] == Listing(s.sweeps[k].views + [View(step.id, s.contexts[step.id])]))
      || (s.sweeps[k].Listing? && s'.sweeps[k] == Acting(s.clock, s.sweeps[k].views))
      || (s.sweeps[k].Acting? && s.sweeps[k].views != []
          && s'.sweeps[k] == Acting(s.sweeps[k].now, s.sweeps[k].views[1..]))
  {
  }

  lemma {:induction false} SweepsAreSound(states: seq<State>, steps: seq<Step>, cfg: Config, t: nat, k: nat)
    requires IsRun(states, steps, cfg) && t <= |steps| && k in states[t].sweeps
    ensures SweepSound(states, steps, t, k, states[t].sweeps[k])
    decreases t
  {
    if t > 0 {
      var s, step, s' := states[t - 1], steps[t - 1], states[t - 1 + 1];
      ClockIsMonotone(states, steps, cfg, t - 1, t);
      SweepStep(s, step, cfg, k, s');
      if k in s.sweeps {
        SweepsAreSound(states, steps, cfg, t - 1, k);
        SweepStaysSound(states, steps, t - 1, k, s.sweeps[k]);
        if step.Look? && step.sweeper == k && s'.sweeps[k] != s.sweeps[k] {
          var view := View(step.id, s.contexts[step.id]);
          assert steps[t - 1] == Look(k, view.id) && TakenAt(states[t - 1], view);
          assert SeenBy(states, steps, t, k, view, states[t].clock);
        }
      }
    }
  }

  /** No step stores the context anew or gives it a new deadline. */
  predicate LimitUntouched(steps: seq<Step>, i: nat, j: nat, id: TaskId)
    requires i <= j <= |steps|
  {
    forall t :: i <= t < j ==> steps[t] != Store(id) && steps[t] != Accept(id)
  }

  lemma {:induction false} LimitIsStable(states: seq<State>, steps: seq<Step>, cfg: Config, i: nat, j: nat, id: TaskId)
    requires IsRun(states, steps, cfg) && i <= j < |states| && LimitUntouched(steps, i, j, id)
    requires id in states[i].contexts && id in states[j].contexts
    ensures states[j].contexts[id].deadlineAt == states[i].contexts[id].deadlineAt
    ensures states[j].contexts[id].createdAt == states[i].contexts[id].createdAt
    decreases j
  {
    if i < j {
      StepEdits(states[j - 1], steps[j - 1], cfg, id, states[j]);
      LimitIsStable(states, steps, cfg, i, j - 1, id);
    }
  }

  lemma LimitStaysPast(c: Context, d: Context, now: nat, later: nat, cfg: Config)
    requires PastLimit(c, now, cfg) && now <= later && d.deadlineAt == c.deadlineAt && d.createdAt == c.createdAt
    ensures PastLimit(d, later, cfg)
  {
  }

  /** Step `t` is an act of a sweeper on what it saw of `id` itself in step `i`, read by its own clock in between. */
  ghost predicate ActsOnSight(states: seq<State>, steps: seq<Step>, i: nat, t: nat, id: TaskId) {
    && i < t < |steps| < |states| && steps[t].Act? && steps[t].sweeper in states[t].sweeps
    && var sweep := states[t].sweeps[steps[t].sweeper];
       && sweep.Acting? && sweep.views != [] && sweep.views[0].id == id
       && steps[i] == Look(steps[t].sweeper, id) && TakenAt(states[i], sweep.views[0])
       && states[i].clock <= sweep.now <= states[t].clock
  }

  lemma ActHasSight(states: seq<State>, steps: seq<Step>, cfg: Config, t: nat, id: TaskId)
    requires IsRun(states, steps, cfg) && t < |steps| && steps[t].Act?
    requires states[t].sweeps[steps[t].sweeper].views != [] && states[t].sweeps[steps[t].sweeper].views[0].id == id
    ensures exists i :: 0 <= i < t && ActsOnSight(states, steps, i, t, id)
  {
    var k := steps[t].sweeper;
    var sweep := states[t].sweeps[k];
    SweepsAreSound(states, steps, cfg, t, k);
    assert SeenBy(states, steps, t, k, sweep.views[0], sweep.now);
    var i :|
      && 0 <= i < t && steps[i] == Look(k, id)
      && TakenAt(states[i], sweep.views[0]) && states[i].clock <= sweep.now;
    assert ActsOnSight(states, steps, i, t, id);
  }

  /** A step turns a context into `CallbackTimeout` only as an act of a sweeper that itself saw it waiting with its
      limit passed by the time it finished listing; and unless it was stored or accepted anew since then, its own
      limit has passed. */
  lemma TimeoutOnlyPastLimit(states: seq<State>, steps: seq<Step>, cfg: Config, t: nat, id: TaskId)
    requires IsRun(states, steps, cfg) && t < |steps|
    requires id in states[t].contexts && !states[t].contexts[id].execution.CallbackTimeout?
    requires id in states[t + 1].contexts && states[t + 1].contexts[id].execution.CallbackTimeout?
    ensures exists i ::
      && 0 <= i < t && ActsOnSight(states, steps, i, t, id)
      && TimeoutDue(states[i].contexts[id], states[t].sweeps[steps[t].sweeper].now, cfg)
      && (LimitUntouched(steps, i, t, id) ==> PastLimit(states[t].contexts[id], states[t].clock, cfg))
  {
    StepEdits(states[t], steps[t], cfg, id, states[t + 1]);
    ActHasSight(states, steps, cfg, t, id);
    var i :| 0 <= i < t && ActsOnSight(states, steps, i, t, id);
    var sweep := states[t].sweeps[steps[t].sweeper];
    assert TimeoutDue(states[i].contexts[id], sweep.now, cfg);
    if LimitUntouched(steps, i, t, id) {
      LimitIsStable(states, steps, cfg, i, t, id);
      LimitStaysPast(states[i].contexts[id], states[t].contexts[id], sweep.now, states[t].clock, cfg);
    }
  }

  /** A sweeper changes a context only as due by what it saw: it times out one that waited past its limit, and queues
      again one whose retry time had come or whose processing had gone stale. */
  lemma SweepActsOnlyWhenDue(states: seq<State>, steps: seq<Step>, cfg: Config, t: nat, id: TaskId)
    requires IsRun(states, steps, cfg) && t < |steps| && steps[t].Act?
    requires id in states[t].contexts && id in states[t + 1].contexts
    requires states[t + 1].contexts[id] != states[t].contexts[id]
    ensures var before, after := states[t].contexts[id], states[t + 1].contexts[id];
      exists i ::
        && 0 <= i < t && ActsOnSight(states, steps, i, t, id)
        && var seen, now := states[i].contexts[id], states[t].sweeps[steps[t].sweeper].now;
           || (TimeoutDue(seen, now, cfg) && after.execution.CallbackTimeout? && after.delivery == before.delivery)
           || (EnqueueDue(seen, now, cfg) && after.delivery.Processing? && after.execution == before.execution)
  {
    StepEdits(states[t], steps[t], cfg, id, states[t + 1]);
    ActHasSight(states, steps, cfg, t, id);
    var i :| 0 <= i < t && ActsOnSight(states, steps, i, t, id);
  }

  /** A sight past its limit: the deadline if one was set, else the time for accepting the context. */
  predicate SawOverdue(seen: Context, now: nat, cfg: Config) {
    && seen.execution.WaitingCallback?
    && (|| (seen.deadlineAt.Some? && 0 < seen.deadlineAt.value <= now)
        || ((seen.deadlineAt.None? || seen.deadlineAt.value == 0)
            && 0 < seen.createdAt && seen.createdAt + cfg.submitAcceptSeconds * 1000 <= now))
  }

  /** A sight of a retry whose time has come, or of processing that has gone stale. */
  predicate SawResumable(seen: Context, now: nat, cfg: Config) {
    || (seen.delivery.PublishPending? && seen.nextRetryAt.Some? && 0 < seen.nextRetryAt.value <= now)
    || (seen.delivery.Processing? && seen.startedAt.Some? && 0 < seen.startedAt.value
        && seen.startedAt.value + cfg.staleSeconds * 1000 <= now)
  }

  /** And it acts on all that is due: a context that is still there is timed out, with the reason, if the sight was
      overdue; else it is queued again if the sight was resumable; else it is left alone. */
  lemma SweepActsWheneverDue(states: seq<State>, steps: seq<Step>, cfg: Config, t: nat, view: View)
    requires IsRun(states, steps, cfg) && t < |steps| && steps[t].Act? && view.id in states[t].contexts
    requires states[t].sweeps[steps[t].sweeper].views != [] && states[t].sweeps[steps[t].sweeper].views[0] == view
    ensures view.id in states[t + 1].contexts
    ensures var before, after := states[t].contexts[view.id], states[t + 1].contexts[view.id];
      var seen, now := view.seen, states[t].sweeps[steps[t].sweeper].now;
      if SawOverdue(seen, now, cfg) then
        after == before.(
          execution := CallbackTimeout, updatedAt := states[t].clock,
          lastError := Some(if seen.deadlineAt.Some? && seen.deadlineAt.value > 0
                            then "callback timeout" else "submit accept timeout"))
      else if SawResumable(seen, now, cfg) then
        after == before.(
          delivery := Processing, jobId := Some(steps[t].job), enqueuedAt := Some(states[t].clock),
          updatedAt := states[t].clock)
      else after == before
  {
    StepEdits(states[t], steps[t], cfg, view.id, states[t + 1]);
  }

  /** Nothing else of any context changes in that step. */
  lemma SweepTouchesOne(states: seq<State>, steps: seq<Step>, cfg: Config, t: nat, id: TaskId)
    requires IsRun(states, steps, cfg) && t < |steps| && steps[t].Act?
    requires var views := states[t].sweeps[steps[t].sweeper].views; views != [] ==> views[0].id != id
    ensures id in states[t + 1].contexts <==> id in states[t].contexts
    ensures id in states[t].contexts ==> states[t + 1].contexts[id] == states[t].contexts[id]
  {
    StepEdits(states[t], steps[t], cfg, id, states[t + 1]);
  }

  // ---- What each helper leaves ----

  /** A stored context waits with nothing done; accepting it starts its deadline. */
  lemma SubmissionStates(states: seq<State>, steps: seq<Step>, cfg: Config, t: nat, id: TaskId)
    requires IsRun(states, steps, cfg) && t < |steps| && id in states[t + 1].contexts
    ensures steps[t] == Store(id) ==>
      var c := states[t + 1].contexts[id];
      && c.execution == WaitingCallback && c.delivery == NotReady && c.publishAttempts == 0
      && c.createdAt == c.updatedAt == states[t].clock
      && c.rawCallback.None? && c.receivedAt.None? && c.deadlineAt.None? && c.startedAt.None?
      && c.nextRetryAt.None? && c.publishedAt.None? && c.lastError.None?
    ensures steps[t] == Accept(id) && id in states[t].contexts ==>
      states[t + 1].contexts[id] == states[t].contexts[id].(
        deadlineAt := Some(states[t].clock + cfg.deadlineSeconds * 1000), lastError := None,
        updatedAt := states[t].clock)
  {
    StepEdits(states[t], steps[t], cfg, id, states[t + 1]);
  }

  /** Starting, publishing and failing set the delivery status and its times, and end any scheduled retry. */
  lemma ProcessingStates(states: seq<State>, steps: seq<Step>, cfg: Config, t: nat, id: TaskId)
    requires IsRun(states, steps, cfg) && t < |steps| && id in states[t].contexts && id in states[t + 1].contexts
    ensures steps[t] == Start(id) ==>
      states[t + 1].contexts[id] == states[t].contexts[id].(
        startedAt := Some(states[t].clock), delivery := Processing, nextRetryAt := None, lastError := None,
        updatedAt := states[t].clock)
    ensures steps[t] == Publish(id) ==>
      states[t + 1].contexts[id] == states[t].contexts[id].(
        publishedAt := Some(states[t].clock), completedAt := Some(states[t].clock), delivery := Published,
        nextRetryAt := None, lastError := None, updatedAt := states[t].clock)
    ensures steps[t].Fail? && steps[t].id == id ==>
      states[t + 1].contexts[id] == states[t].contexts[id].(
        completedAt := Some(states[t].clock), delivery := DeliveryFailed, nextRetryAt := None,
        lastError := Some(steps[t].error), updatedAt := states[t].clock)
    ensures steps[t].Enqueue? && steps[t].id == id ==>
      states[t + 1].contexts[id] == states[t].contexts[id].(
        enqueuedAt := Some(states[t].clock), delivery := Processing, jobId := Some(steps[t].job),
        updatedAt := states[t].clock)
  {
    StepEdits(states[t], steps[t], cfg, id, states[t + 1]);
  }

  // ---- When a finished execution is safe ----

  /** Where steps lead from a state, if each is enabled in turn. */
  function Ends(s: State, steps: seq<Step>, cfg: Config): Option<State>
    decreases |steps|
  {
    if steps == [] then Some(s)
    else if !Enabled(s, steps[0]) then None
    else Ends(Apply(s, steps[0], cfg), steps[1..], cfg)
  }

  /** The sight can lead to a timeout: it is due by the sweep's clock or, while listing, can still become due. */
  predicate CanTimeOut(sweep: Sweep, seen: Context, cfg: Config) {
    && seen.execution.WaitingCallback?
    && if sweep.Acting? then PastLimit(seen, sweep.now, cfg) else HasLimit(seen)
  }

  predicate SweepThreatens(sweep: Sweep, id: TaskId, cfg: Config) {
    exists x :: 0 <= x < |sweep.views| && sweep.views[x].id == id && CanTimeOut(sweep, sweep.views[x].seen, cfg)
  }

  /** Some sweep in flight holds such a sight of the context. */
  ghost predicate Threatened(s: State, id: TaskId, cfg: Config) {
    exists k :: k in s.sweeps && SweepThreatens(s.sweeps[k], id, cfg)
  }

  predicate Finished(s: State, id: TaskId) {
    id in s.contexts && s.contexts[id].execution.ExecutionFinished? && s.contexts[id].rawCallback.Some?
  }

  lemma ThreatNeedsSight(s: State, step: Step, cfg: Config, id: TaskId, s': State, k: nat)
    requires Enabled(s, step) && s' == Apply(s, step, cfg) && Finished(s, id) && k in s'.sweeps
    requires k in s.sweeps ==> !SweepThreatens(s.sweeps[k], id, cfg)
    ensures !SweepThreatens(s'.sweeps[k], id, cfg)
  {
    SweepStep(s, step, cfg, k, s');
    if k in s.sweeps {
      var a, b := s.sweeps[k], s'.sweeps[k];
      forall x | 0 <= x < |b.views| && b.views[x].id == id ensures !CanTimeOut(b, b.views[x].seen, cfg) {
        if x < |a.views| && b.views[x] == a.views[x] {
          assert !CanTimeOut(a, a.views[x].seen, cfg);
        } else if x + 1 < |a.views| && b.views[x] == a.views[x + 1] {
          assert !CanTimeOut(a, a.views[x + 1].seen, cfg);
        }
      }
    }
  }

  lemma UnthreatenedStep(s: State, step: Step, cfg: Config, id: TaskId, s': State)
    requires Enabled(s, step) && s' == Apply(s, step, cfg) && step != Store(id)
    requires Finished(s, id) && !Threatened(s, id, cfg)
    ensures id in s'.contexts ==> Finished(s', id) && !Threatened(s', id, cfg)
  {
    StepEdits(s, step, cfg, id, s');
    if step.Act? && s.sweeps[step.sweeper].views != [] && s.sweeps[step.sweeper].views[0].id == id {
      var sweep := s.sweeps[step.sweeper];
      assert !SweepThreatens(sweep, id, cfg);
      assert !CanTimeOut(sweep, sweep.views[0].seen, cfg);
    }
    forall k | k in s'.sweeps ensures !SweepThreatens(s'.sweeps[k], id, cfg) {
      ThreatNeedsSight(s, step, cfg, id, s', k);
    }
  }

  lemma {:induction false} GoneStaysGone(s: State, steps: seq<Step>, cfg: Config, id: TaskId)
    requires id !in s.contexts && Store(id) !in steps && Ends(s, steps, cfg).Some?
    ensures id !in Ends(s, steps, cfg).value.contexts
    decreases |steps|
  {
    if steps != [] {
      var s' := Apply(s, steps[0], cfg);
      StepEdits(s, steps[0], cfg, id, s');
      GoneStaysGone(s', steps[1..], cfg, id);
    }
  }

  lemma {:induction false} UnthreatenedStays(s: State, steps: seq<Step>, cfg: Config, id: TaskId)
    requires Finished(s, id) && !Threatened(s, id, cfg) && Store(id) !in steps && Ends(s, steps, cfg).Some?
    ensures id in Ends(s, steps, cfg).value.contexts ==> Finished(Ends(s, steps, cfg).value, id)
    decreases |steps|
  {
    if steps != [] {
      var s' := Apply(s, steps[0], cfg);
      UnthreatenedStep(s, steps[0], cfg, id, s');
      if id in s'.contexts {
        UnthreatenedStays(s', steps[1..], cfg, id);
      } else {
        GoneStaysGone(s', steps[1..], cfg, id);
      }
    }
  }

  predicate SameLimit(c: Context, d: Context) {
    d.deadlineAt == c.deadlineAt && d.createdAt == c.createdAt
  }

  function Acts(k: nat, n: nat): seq<Step> {
    if n == 0 then [] else [Act(k, "")] + Acts(k, n - 1)
  }

  /** Once its sweep acts, a due sight overwrites whatever the context says by then. */
  lemma {:induction false} DueSightOverwrites(s: State, k: nat, x: nat, cfg: Config, id: TaskId)
    requires k in s.sweeps && s.sweeps[k].Acting? && x < |s.sweeps[k].views| && id in s.contexts
    requires s.sweeps[k].views[x].id == id && TimeoutDue(s.sweeps[k].views[x].seen, s.sweeps[k].now, cfg)
    ensures var e := Ends(s, Acts(k, x + 1), cfg);
      && e.Some? && id in e.value.contexts && e.value.contexts[id].execution.CallbackTimeout?
      && e.value.clock == s.clock && SameLimit(e.value.contexts[id], s.contexts[id])
    decreases x
  {
    var step := Act(k, "");
    var s' := Apply(s, step, cfg);
    StepEdits(s, step, cfg, id, s');
    assert Acts(k, x + 1)[0] == step && Acts(k, x + 1)[1..] == Acts(k, x);
    if x > 0 {
      assert s'.sweeps[k] == Acting(s.sweeps[k].now, s.sweeps[k].views[1..]);
      DueSightOverwrites(s', k, x - 1, cfg, id);
    }
  }

  /** Listing ended after waiting `d`, a sight that is due by then overwrites. */
  lemma ListedSightOverwrites(s: State, k: nat, x: nat, cfg: Config, id: TaskId, d: nat, steps: seq<Step>)
    requires k in s.sweeps && s.sweeps[k].Listing? && x < |s.sweeps[k].views| && id in s.contexts
    requires s.sweeps[k].views[x].id == id && TimeoutDue(s.sweeps[k].views[x].seen, s.clock + d, cfg)
    requires steps == [Tick(d), EndListing(k)] + Acts(k, x + 1)
    ensures var e := Ends(s, steps, cfg);
      && e.Some? && id in e.value.contexts && e.value.contexts[id].execution.CallbackTimeout?
      && e.value.clock == s.clock + d && SameLimit(e.value.contexts[id], s.contexts[id])
  {
    var s1 := Apply(s, steps[0], cfg);
    assert steps[1..][0] == EndListing(k) && steps[1..][1..] == Acts(k, x + 1);
    var s2 := Apply(s1, EndListing(k), cfg);
    assert s2.sweeps[k] == Acting(s.clock + d, s.sweeps[k].views);
    DueSightOverwrites(s2, k, x, cfg, id);
  }

  /** When the limit of a context passes, if ever. */
  predicate HasLimit(c: Context) {
    OrZero(c.deadlineAt) != 0 || c.createdAt != 0
  }

  function LimitTime(c: Context, cfg: Config): nat {
    if OrZero(c.deadlineAt) == 0 then c.createdAt + cfg.submitAcceptSeconds * 1000 else OrZero(c.deadlineAt)
  }

  lemma LimitPasses(c: Context, now: nat, cfg: Config)
    ensures PastLimit(c, now, cfg) <==> HasLimit(c) && LimitTime(c, cfg) <= now
  {
  }

  /** Steps that do not store the context, nor accept it anew. */
  predicate Leaves(steps: seq<Step>, id: TaskId) {
    Store(id) !in steps && Accept(id) !in steps
  }

  lemma {:induction false} ActsLeave(k: nat, n: nat, id: TaskId)
    ensures Leaves(Acts(k, n), id)
  {
    if n > 0 {
      ActsLeave(k, n - 1, id);
    }
  }

  predicate Marked(e: Option<State>, id: TaskId) {
    e.Some? && id in e.value.contexts && e.value.contexts[id].execution.CallbackTimeout?
  }

  lemma ActingThreat(s: State, k: nat, x: nat, cfg: Config, id: TaskId) returns (steps: seq<Step>)
    requires k in s.sweeps && s.sweeps[k].Acting? && x < |s.sweeps[k].views| && id in s.contexts
    requires s.sweeps[k].views[x].id == id && CanTimeOut(s.sweeps[k], s.sweeps[k].views[x].seen, cfg)
    ensures Store(id) !in steps && Marked(Ends(s, steps, cfg), id)
  {
    steps := Acts(k, x + 1);
    ActsLeave(k, x + 1, id);
    DueSightOverwrites(s, k, x, cfg, id);
  }

  lemma ListedThreat(s: State, k: nat, x: nat, cfg: Config, id: TaskId) returns (steps: seq<Step>)
    requires k in s.sweeps && s.sweeps[k].Listing? && x < |s.sweeps[k].views| && id in s.contexts
    requires s.sweeps[k].views[x].id == id && CanTimeOut(s.sweeps[k], s.sweeps[k].views[x].seen, cfg)
    ensures Store(id) !in steps && Marked(Ends(s, steps, cfg), id)
  {
    var d := LimitTime(s.sweeps[k].views[x].seen, cfg);
    steps := [Tick(d), EndListing(k)] + Acts(k, x + 1);
    ActsLeave(k, x + 1, id);
    ListedSightOverwrites(s, k, x, cfg, id, d, steps);
  }

  lemma ThreatIsReal(s: State, cfg: Config, id: TaskId) returns (steps: seq<Step>)
    requires id in s.contexts && Threatened(s, id, cfg)
    ensures Store(id) !in steps && Marked(Ends(s, steps, cfg), id)
  {
    var k :| k in s.sweeps && SweepThreatens(s.sweeps[k], id, cfg);
    var sweep := s.sweeps[k];
    var x :| 0 <= x < |sweep.views| && sweep.views[x].id == id && CanTimeOut(sweep, sweep.views[x].seen, cfg);
    if sweep.Acting? {
      steps := ActingThreat(s, k, x, cfg, id);
    } else {
      steps := ListedThreat(s, k, x, cfg, id);
    }
  }

  /** No continuation that leaves the context in place shows it otherwise than finished. */
  ghost predicate SafelyFinished(s: State, id: TaskId, cfg: Config) {
    forall steps: seq<Step> ::
      Store(id) !in steps && Ends(s, steps, cfg).Some? && id in Ends(s, steps, cfg).value.contexts ==>
        Ends(s, steps, cfg).value.contexts[id].execution.ExecutionFinished?
  }

  /** In every reachable state, a finished execution is safe from being overwritten if and only if no sweep in flight
      holds a sight of its context, taken while it waited, that is due or can become due: the mark does not look
      again. */
  lemma FinishedStaysExactlyWhen(states: seq<State>, steps: seq<Step>, cfg: Config, t: nat, id: TaskId)
    requires IsRun(states, steps, cfg) && t < |states|
    requires id in states[t].contexts && states[t].contexts[id].execution.ExecutionFinished?
    ensures SafelyFinished(states[t], id, cfg) <==> !Threatened(states[t], id, cfg)
  {
    var s := states[t];
    RunIsConsistent(states, steps, cfg, t);
    if Threatened(s, id, cfg) {
      var more := ThreatIsReal(s, cfg, id);
      assert !SafelyFinished(s, id, cfg);
    } else {
      forall more: seq<Step> |
        Store(id) !in more && Ends(s, more, cfg).Some? && id in Ends(s, more, cfg).value.contexts
        ensures Ends(s, more, cfg).value.contexts[id].execution.ExecutionFinished?
      {
        UnthreatenedStays(s, more, cfg, id);
      }
    }
  }

  // ---- When a timeout is on time ----

  function Later(a: nat, b: nat): nat {
    if a < b then b else a
  }

  /** The sight can mark context `c` while its own limit is ahead: it is due and `c` is not, or, while listing, it
      becomes due at a time when `c` is not. */
  predicate CanMarkEarly(sweep: Sweep, seen: Context, c: Context, clock: nat, cfg: Config) {
    && seen.execution.WaitingCallback?
    && if sweep.Acting? then PastLimit(seen, sweep.now, cfg) && !PastLimit(c, clock, cfg)
       else HasLimit(seen) && !PastLimit(c, Later(clock, LimitTime(seen, cfg)), cfg)
  }

  predicate SweepHurries(sweep: Sweep, id: TaskId, c: Context, clock: nat, cfg: Config) {
    exists x ::
      && 0 <= x < |sweep.views| && sweep.views[x].id == id
      && CanMarkEarly(sweep, sweep.views[x].seen, c, clock, cfg)
  }

  /** Some sweep in flight holds such a sight of the context. */
  ghost predicate Hurried(s: State, id: TaskId, cfg: Config)
    requires id in s.contexts
  {
    exists k :: k in s.sweeps && SweepHurries(s.sweeps[k], id, s.contexts[id], s.clock, cfg)
  }

  predicate OnTime(s: State, id: TaskId, cfg: Config)
    requires id in s.contexts
  {
    s.contexts[id].execution.CallbackTimeout? ==> PastLimit(s.contexts[id], s.clock, cfg)
  }

  lemma EarlyFades(sweep: Sweep, seen: Context, c: Context, d: Context, clock: nat, later: nat, cfg: Config)
    requires !CanMarkEarly(sweep, seen, c, clock, cfg) && SameLimit(c, d) && clock <= later
    ensures !CanMarkEarly(sweep, seen, d, later, cfg)
  {
  }

  lemma HurryNeedsSight(s: State, step: Step, cfg: Config, id: TaskId, s': State, k: nat)
    requires Enabled(s, step) && s' == Apply(s, step, cfg) && k in s'.sweeps && s.clock <= s'.clock
    requires id in s.contexts && id in s'.contexts && SameLimit(s.contexts[id], s'.contexts[id])
    requires k in s.sweeps ==> !SweepHurries(s.sweeps[k], id, s.contexts[id], s.clock, cfg)
    ensures !SweepHurries(s'.sweeps[k], id, s'.contexts[id], s'.clock, cfg)
  {
    SweepStep(s, step, cfg, k, s');
    if k in s.sweeps {
      var a, b, c, d := s.sweeps[k], s'.sweeps[k], s.contexts[id], s'.contexts[id];
      forall x | 0 <= x < |b.views| && b.views[x].id == id
        ensures !CanMarkEarly(b, b.views[x].seen, d, s'.clock, cfg)
      {
        if x < |a.views| && b.views[x] == a.views[x] {
          assert !CanMarkEarly(a, a.views[x].seen, c, s.clock, cfg);
          EarlyFades(a, a.views[x].seen, c, d, s.clock, s'.clock, cfg);
        } else if x + 1 < |a.views| && b.views[x] == a.views[x + 1] {
          assert !CanMarkEarly(a, a.views[x + 1].seen, c, s.clock, cfg);
          EarlyFades(a, a.views[x + 1].seen, c, d, s.clock, s'.clock, cfg);
        }
      }
    }
  }

  lemma UnhurriedStep(s: State, step: Step, cfg: Config, id: TaskId, s': State)
    requires Enabled(s, step) && s' == Apply(s, step, cfg) && step != Store(id) && step != Accept(id)
    requires id in s.contexts && OnTime(s, id, cfg) && !Hurried(s, id, cfg)
    ensures id in s'.contexts ==> OnTime(s', id, cfg) && !Hurried(s', id, cfg)
  {
    StepEdits(s, step, cfg, id, s');
    if id in s'.contexts {
      if step.Act? && s.sweeps[step.sweeper].views != [] && s.sweeps[step.sweeper].views[0].id == id {
        var sweep := s.sweeps[step.sweeper];
        assert !SweepHurries(sweep, id, s.contexts[id], s.clock, cfg);
        assert !CanMarkEarly(sweep, sweep.views[0].seen, s.contexts[id], s.clock, cfg);
      }
      forall k | k in s'.sweeps ensures !SweepHurries(s'.sweeps[k], id, s'.contexts[id], s'.clock, cfg) {
        HurryNeedsSight(s, step, cfg, id, s', k);
      }
    }
  }

  lemma {:induction false} UnhurriedStays(s: State, steps: seq<Step>, cfg: Config, id: TaskId)
    requires id in s.contexts && OnTime(s, id, cfg) && !Hurried(s, id, cfg)
    requires Leaves(steps, id) && Ends(s, steps, cfg).Some?
    ensures id in Ends(s, steps, cfg).value.contexts ==> OnTime(Ends(s, steps, cfg).value, id, cfg)
    decreases |steps|
  {
    if steps != [] {
      var s' := Apply(s, steps[0], cfg);
      UnhurriedStep(s, steps[0], cfg, id, s');
      if id in s'.contexts {
        UnhurriedStays(s', steps[1..], cfg, id);
      } else {
        GoneStaysGone(s', steps[1..], cfg, id);
      }
    }
  }

  predicate MarkedEarly(e: Option<State>, id: TaskId, cfg: Config) {
    e.Some? && id in e.value.contexts && !OnTime(e.value, id, cfg)
  }

  lemma ListedHurry(s: State, k: nat, x: nat, cfg: Config, id: TaskId) returns (steps: seq<Step>)
    requires k in s.sweeps && s.sweeps[k].Listing? && x < |s.sweeps[k].views| && id in s.contexts
    requires s.sweeps[k].views[x].id == id
    requires CanMarkEarly(s.sweeps[k], s.sweeps[k].views[x].seen, s.contexts[id], s.clock, cfg)
    ensures Leaves(steps, id) && MarkedEarly(Ends(s, steps, cfg), id, cfg)
  {
    var seen := s.sweeps[k].views[x].seen;
    var d := Later(s.clock, LimitTime(seen, cfg)) - s.clock;
    steps := [Tick(d), EndListing(k)] + Acts(k, x + 1);
    ActsLeave(k, x + 1, id);
    LimitPasses(seen, s.clock + d, cfg);
    ListedSightOverwrites(s, k, x, cfg, id, d, steps);
  }

  lemma ActingHurry(s: State, k: nat, x: nat, cfg: Config, id: TaskId) returns (steps: seq<Step>)
    requires k in s.sweeps && s.sweeps[k].Acting? && x < |s.sweeps[k].views| && id in s.contexts
    requires s.sweeps[k].views[x].id == id
    requires CanMarkEarly(s.sweeps[k], s.sweeps[k].views[x].seen, s.contexts[id], s.clock, cfg)
    ensures Leaves(steps, id) && MarkedEarly(Ends(s, steps, cfg), id, cfg)
  {
    steps := Acts(k, x + 1);
    ActsLeave(k, x + 1, id);
    DueSightOverwrites(s, k, x, cfg, id);
  }

  lemma HurryIsReal(s: State, cfg: Config, id: TaskId) returns (steps: seq<Step>)
    requires id in s.contexts && Hurried(s, id, cfg)
    ensures Leaves(steps, id) && MarkedEarly(Ends(s, steps, cfg), id, cfg)
  {
    var c := s.contexts[id];
    var k :| k in s.sweeps && SweepHurries(s.sweeps[k], id, c, s.clock, cfg);
    var sweep := s.sweeps[k];
    var x :|
      && 0 <= x < |sweep.views| && sweep.views[x].id == id
      && CanMarkEarly(sweep, sweep.views[x].seen, c, s.clock, cfg);
    if sweep.Acting? {
      steps := ActingHurry(s, k, x, cfg, id);
    } else {
      steps := ListedHurry(s, k, x, cfg, id);
    }
  }

  ghost predicate AlwaysOnTime(s: State, id: TaskId, cfg: Config) {
    forall steps: seq<Step> ::
      Leaves(steps, id) && Ends(s, steps, cfg).Some? && id in Ends(s, steps, cfg).value.contexts ==>
        OnTime(Ends(s, steps, cfg).value, id, cfg)
  }

  /** A context that is not timed out yet is timed out only past its own limit, in every continuation that does not
      store or accept it anew, if and only if no sweep in flight holds a sight of it that can mark it early. */
  lemma OnTimeExactlyWhen(s: State, cfg: Config, id: TaskId)
    requires id in s.contexts && !s.contexts[id].execution.CallbackTimeout?
    ensures AlwaysOnTime(s, id, cfg) <==> !Hurried(s, id, cfg)
  {
    if Hurried(s, id, cfg) {
      var more := HurryIsReal(s, cfg, id);
      assert !AlwaysOnTime(s, id, cfg);
    } else {
      forall more: seq<Step> | Leaves(more, id) && Ends(s, more, cfg).Some? && id in Ends(s, more, cfg).value.contexts
        ensures OnTime(Ends(s, more, cfg).value, id, cfg)
      {
        UnhurriedStays(s, more, cfg, id);
      }
    }
  }

  // ---- Both races happen ----

  /** What may come between the sweeper's listing and its mark. */
  datatype Late = LatePayload(payload: Fields) | LateAcceptance

  function LateSteps(cfg: Config, id: TaskId, late: Late): seq<Step> {
    [Store(id), Tick(cfg.submitAcceptSeconds * 1000), BeginSweep(0), Look(0, id), EndListing(0),
     (match late case LatePayload(p) => Record(id, p) case LateAcceptance => Accept(id)), Act(0, "")]
  }

  /** The states of such a run. */
  function LateState(cfg: Config, id: TaskId, late: Late, t: nat): State {
    var now := 1 + cfg.submitAcceptSeconds * 1000;
    var c, sight := Fresh(1), View(id, Fresh(1));
    var d := match late case LatePayload(p) => Recorded(c, p, now) case LateAcceptance => Accepted(c, now, cfg);
    State(if t < 2 then 1 else now,
          if t == 0 then map[]
          else map[id := if t < 6 then c else if t == 6 then d else TimedOut(d, "submit accept timeout", now)],
          if t < 3 then map[]
          else map[0 := if t == 3 then Listing([])
                        else if t == 4 then Listing([sight])
                        else Acting(now, if t < 7 then [sight] else [])])
  }

  lemma LateContexts(cfg: Config, id: TaskId, late: Late, t: nat)
    requires t < 7
    ensures var s, step := LateState(cfg, id, late, t), LateSteps(cfg, id, late)[t];
            Enabled(s, step) && LateState(cfg, id, late, t + 1).contexts == Contexts'(s, step, cfg)
  {
    assert LateSteps(cfg, id, late)[5] ==
      match late case LatePayload(p) => Record(id, p) case LateAcceptance => Accept(id);
  }

  lemma LateSweeps(cfg: Config, id: TaskId, late: Late, t: nat)
    requires t < 7
    ensures var s, step := LateState(cfg, id, late, t), LateSteps(cfg, id, late)[t];
            Enabled(s, step) && LateState(cfg, id, late, t + 1).sweeps == Sweeps'(s, step)
  {
    var sight := View(id, Fresh(1));
    assert [] + [sight] == [sight] && [sight][1..] == [];
  }

  lemma LateRun(cfg: Config, id: TaskId, late: Late, states: seq<State>)
    requires states == seq(8, t requires 0 <= t < 8 => LateState(cfg, id, late, t))
    ensures IsRun(states, LateSteps(cfg, id, late), cfg)
  {
    var steps := LateSteps(cfg, id, late);
    forall t | 0 <= t < |steps|
      ensures Enabled(states[t], steps[t]) && states[t + 1] == Apply(states[t], steps[t], cfg)
    {
      LateContexts(cfg, id, late, t);
      LateSweeps(cfg, id, late, t);
    }
  }

  /** Whatever the limits, a callback between listing and mark is recorded and its finished status then overwritten. */
  lemma StaleSightOverwrites(cfg: Config, id: TaskId, payload: Fields, states: seq<State>)
    requires states == seq(8, t requires 0 <= t < 8 => LateState(cfg, id, LatePayload(payload), t))
    ensures IsRun(states, LateSteps(cfg, id, LatePayload(payload)), cfg)
    ensures states[6].contexts[id].execution.ExecutionFinished?
    ensures states[7].contexts[id].rawCallback == Some(payload) && states[7].contexts[id].execution.CallbackTimeout?
  {
    LateRun(cfg, id, LatePayload(payload), states);
  }

  /** And an acceptance between listing and mark starts a deadline that the mark then ignores: the context is timed out
      with its own limit still ahead. */
  lemma AcceptanceIsOverruled(cfg: Config, id: TaskId, states: seq<State>)
    requires cfg.deadlineSeconds > 0
    requires states == seq(8, t requires 0 <= t < 8 => LateState(cfg, id, LateAcceptance, t))
    ensures IsRun(states, LateSteps(cfg, id, LateAcceptance), cfg)
    ensures states[6].contexts[id].execution.WaitingCallback? && states[7].contexts[id].execution.CallbackTimeout?
    ensures !PastLimit(states[7].contexts[id], states[7].clock, cfg)
  {
    LateRun(cfg, id, LateAcceptance, states);
  }

  // ---- Publish retries ----

  /** Calls of the retry scheduler for `id` in steps `i` to `j`. */
  function Calls(steps: seq<Step>, i: nat, j: nat, id: TaskId): nat
    requires i <= j <= |steps|
    decreases j
  {
    if i == j then 0
    else Calls(steps, i, j - 1, id) + if steps[j - 1].Schedule? && steps[j - 1].id == id then 1 else 0
  }

  predicate GivesUp(states: seq<State>, steps: seq<Step>, t: nat, id: TaskId)
    requires t < |steps| && |states| == |steps| + 1
  {
    && steps[t].Schedule? && steps[t].id == id
    && id in states[t + 1].contexts && states[t + 1].contexts[id].delivery.DeliveryFailed?
  }

  /** Those among them that did not schedule another attempt. */
  function GivenUp(states: seq<State>, steps: seq<Step>, i: nat, j: nat, id: TaskId): nat
    requires i <= j <= |steps| && |states| == |steps| + 1
    decreases j
  {
    if i == j then 0 else GivenUp(states, steps, i, j - 1, id) + if GivesUp(states, steps, j - 1, id) then 1 else 0
  }

  lemma AttemptsStep(states: seq<State>, steps: seq<Step>, cfg: Config, t: nat, id: TaskId)
    requires IsRun(states, steps, cfg) && t < |steps| && steps[t] != Store(id)
    requires id in states[t].contexts && id in states[t + 1].contexts
    ensures states[t + 1].contexts[id].publishAttempts == states[t].contexts[id].publishAttempts
      + (if steps[t].Schedule? && steps[t].id == id && !GivesUp(states, steps, t, id) then 1 else 0)
  {
    StepEdits(states[t], steps[t], cfg, id, states[t + 1]);
  }

  function Attempts(s: State, id: TaskId): nat
    requires id in s.contexts
  {
    s.contexts[id].publishAttempts
  }

  predicate Schedules(states: seq<State>, steps: seq<Step>, t: nat, id: TaskId)
    requires t < |steps| && |states| == |steps| + 1
  {
    steps[t].Schedule? && steps[t].id == id && !GivesUp(states, steps, t, id)
  }

  lemma {:induction false} AttemptsAddUp(states: seq<State>, steps: seq<Step>, i: nat, j: nat, id: TaskId)
    requires |states| == |steps| + 1 && i <= j < |states| && Present(states, i, j, id)
    requires forall t :: i <= t < j ==>
      Attempts(states[t + 1], id) == Attempts(states[t], id) + if Schedules(states, steps, t, id) then 1 else 0
    ensures Attempts(states[j], id) ==
      Attempts(states[i], id) + Calls(steps, i, j, id) - GivenUp(states, steps, i, j, id)
    ensures Attempts(states[i], id) <= Attempts(states[j], id)
    decreases j
  {
    if i < j {
      AttemptsAddUp(states, steps, i, j - 1, id);
      assert states[j - 1 + 1] == states[j];
    }
  }

  /** While a context lives, `publish_attempts` counts the scheduled retries. */
  lemma AttemptsAreCounted(
    states: seq<State>, steps: seq<Step>, cfg: Config, i: nat, j: nat, id: TaskId)
    requires IsRun(states, steps, cfg) && i <= j < |states| && NoStore(steps, i, j, id)
    requires id in states[i].contexts && id in states[j].contexts
    ensures Attempts(states[j], id) ==
      Attempts(states[i], id) + Calls(steps, i, j, id) - GivenUp(states, steps, i, j, id)
    ensures Attempts(states[i], id) <= Attempts(states[j], id)
  {
    PresentWithin(states, steps, cfg, i, j, id);
    forall t | i <= t < j ensures
      Attempts(states[t + 1], id) == Attempts(states[t], id) + if Schedules(states, steps, t, id) then 1 else 0
    {
      AttemptsStep(states, steps, cfg, t, id);
    }
    AttemptsAddUp(states, steps, i, j, id);
  }

  /** From any point of a context's life at most `|backoffs| - publish_attempts` more retries are scheduled, and each
      call beyond that marks the delivery as failed. */
  lemma RetriesRunOut(states: seq<State>, steps: seq<Step>, cfg: Config, i: nat, j: nat, id: TaskId)
    requires IsRun(states, steps, cfg) && i <= j < |states| && NoStore(steps, i, j, id)
    requires id in states[i].contexts && id in states[j].contexts
    ensures 0 <= Calls(steps, i, j, id) - GivenUp(states, steps, i, j, id)
              <= |cfg.backoffs| - states[i].contexts[id].publishAttempts <= |cfg.backoffs|
  {
    RunIsConsistent(states, steps, cfg, j);
    AttemptsAreCounted(states, steps, cfg, i, j, id);
  }

  /** Each scheduled retry uses up one backoff, in their order: the measure `|backoffs| - publish_attempts` goes down
      by one and the next attempt is due that backoff later. With nothing left, the delivery has failed. */
  lemma ScheduleDecreases(states: seq<State>, steps: seq<Step>, cfg: Config, t: nat, id: TaskId)
    requires IsRun(states, steps, cfg) && t < |steps|
    requires steps[t].Schedule? && steps[t].id == id && id in states[t].contexts
    ensures id in states[t + 1].contexts
    ensures var a, b := states[t].contexts[id], states[t + 1].contexts[id];
            if a.publishAttempts == |cfg.backoffs|
            then b.delivery.DeliveryFailed? && b.publishAttempts == a.publishAttempts
            else
              && b.delivery.PublishPending?
              && |cfg.backoffs| - b.publishAttempts == |cfg.backoffs| - a.publishAttempts - 1
              && b.nextRetryAt == Some(states[t].clock + cfg.backoffs[a.publishAttempts] * 1000)
              && b.lastRetryAt == Some(states[t].clock) && b.lastError == Some(steps[t].error)
              && b.execution == a.execution && b.rawCallback == a.rawCallback
  {
    RunIsConsistent(states, steps, cfg, t);
    StepEdits(states[t], steps[t], cfg, id, states[t + 1]);
  }

  // ---- The code ----

  /** When the sweeper makes its mark on the `x`-th context, and the job it queues there. */
  datatype Mark = Mark(now: nat, job: string)

  function SweptAll(m: Contexts, views: seq<View>, sweepNow: nat, marks: nat -> Mark, cfg: Config): Contexts {
    if views == [] then m
    else
      var x := |views| - 1;
      var v := views[x];
      Edit(SweptAll(m, views[..x], sweepNow, marks, cfg), v.id,
           c => Swept(c, v.seen, sweepNow, marks(x).now, marks(x).job, cfg))
  }

  datatype RetryInfo = RetryInfo(scheduled: bool, attempt: nat, maxAttempts: nat)

  /** The contexts kept under their keys, and the helpers that load, edit and save them. */
  class ContextStore {
    var contexts: Contexts
    const cfg: Config

    constructor (cfg: Config)
      ensures contexts == map[] && this.cfg == cfg
    {
      contexts := map[];
      this.cfg := cfg;
    }

    method Update(id: TaskId, edit: Context -> Context) returns (updated: Option<Context>)
      modifies this
      ensures contexts == Edit(old(contexts), id, edit)
      ensures updated == if id in contexts then Some(contexts[id]) else None
    {
      if id !in contexts {
        return None;
      }
      var c := edit(contexts[id]);
      contexts := contexts[id := c];
      return Some(c);
    }

    method RecordPayload(id: TaskId, payload: Fields, now: nat) returns (updated: Option<Context>)
      modifies this
      ensures contexts == Edit(old(contexts), id, c => Recorded(c, payload, now))
      ensures updated == if id in contexts then Some(contexts[id]) else None
    {
      if id !in contexts {
        return None;
      }
      if contexts[id].rawCallback.Some? {
        assert contexts[id := contexts[id]] == contexts;
        return Some(contexts[id]);
      }
      updated := Update(id, (c: Context) => c.(rawCallback := Some(payload), receivedAt := Some(now), lastError := None,
                                    execution := ExecutionFinished, updatedAt := now));
    }

    method ScheduleRetry(id: TaskId, error: string, now: nat) returns (info: RetryInfo)
      modifies this
      ensures contexts == Edit(old(contexts), id, c => Scheduled(c, error, now, cfg))
      ensures info.scheduled <==> id in contexts && contexts[id].delivery.PublishPending?
      ensures id in contexts ==>
        info.attempt == old(contexts)[id].publishAttempts + 1 && info.maxAttempts == |cfg.backoffs|
    {
      if id !in contexts {
        return RetryInfo(false, 0, 0);
      }
      var attempts := contexts[id].publishAttempts + 1;
      if attempts > |cfg.backoffs| {
        var _ := Update(id, c => Failed(c, error, now));
        return RetryInfo(false, attempts, |cfg.backoffs|);
      }
      var next := now + cfg.backoffs[attempts - 1] * 1000;
      var _ := Update(id, (c: Context) => c.(
        publishAttempts := attempts, lastRetryAt := Some(now), nextRetryAt := Some(next), lastError := Some(error),
        delivery := PublishPending, updatedAt := now));
      return RetryInfo(true, attempts, |cfg.backoffs|);
    }

    /** One sweep over listed contexts, undisturbed; the clock is read anew for each mark. */
    method Sweep(views: seq<View>, sweepNow: nat, marks: nat -> Mark)
      modifies this
      ensures contexts == SweptAll(old(contexts), views, sweepNow, marks, cfg)
    {
      for x := 0 to |views|
        invariant contexts == SweptAll(old(contexts), views[..x], sweepNow, marks, cfg)
      {
        var id, seen := views[x].id, views[x].seen;
        assert views[..x + 1][..x] == views[..x];
        var mark := marks(x);
        if TimeoutDue(seen, sweepNow, cfg) {
          var _ := Update(id, c => TimedOut(c, TimeoutReason(seen), mark.now));
        } else if EnqueueDue(seen, sweepNow, cfg) {
          var _ := Update(id, c => Enqueued(c, mark.job, mark.now));
        } else {
          assert id in contexts ==> contexts[id := contexts[id]] == contexts;
        }
      }
      assert views[..|views|] == views;
    }
  }

  // ---- Backoffs from the configuration ----

  const DEFAULT_BACKOFFS: seq<nat> := [15, 60, 300, 900]

  predicate AllPositive(s: seq<nat>) {
    forall k :: 0 <= k < |s| ==> s[k] > 0
  }

  /** The positive numbers among the parts; `parse` is the number a part reads as, if any. */
  function Positive(parts: seq<string>, parse: string -> Option<int>): seq<nat> {
    if parts == [] then []
    else
      var n := parse(parts[|parts| - 1]);
      Positive(parts[..|parts| - 1], parse) + if n.Some? && n.value > 0 then [n.value] else []
  }

  lemma {:induction false} PositiveIsPositive(parts: seq<string>, parse: string -> Option<int>)
    ensures AllPositive(Positive(parts, parse))
  {
    if parts != [] {
      PositiveIsPositive(parts[..|parts| - 1], parse);
    }
  }

  /** Part by part, in order: a number above zero is kept, anything else is passed over. */
  lemma {:induction false} PositiveConcat(a: seq<string>, b: seq<string>, parse: string -> Option<int>)
    ensures Positive(a + b, parse) == Positive(a, parse) + Positive(b, parse)
    decreases |b|
  {
    if b == [] {
      assert a + b == a;
    } else {
      assert (a + b)[..|a + b| - 1] == a + b[..|b| - 1];
      PositiveConcat(a, b[..|b| - 1], parse);
    }
  }

  lemma PositiveOne(part: string, parse: string -> Option<int>)
    ensures Positive([part], parse) ==
      (if parse(part).Some? && parse(part).value > 0 then [parse(part).value] else [])
  {
    assert [part][..0] == [];
  }

  method ParsePositive(parts: seq<string>, parse: string -> Option<int>) returns (backoffs: seq<nat>)
    ensures backoffs == Positive(parts, parse)
  {
    backoffs := [];
    for x := 0 to |parts|
      invariant backoffs == Positive(parts[..x], parse)
    {
      assert parts[..x + 1][..x] == parts[..x];
      var n := parse(parts[x]);
      if n.Some? && n.value > 0 {
        backoffs := backoffs + [n.value];
      }
    }
    assert parts[..|parts|] == parts;
  }

  lemma DefaultsArePositive()
    ensures |DEFAULT_BACKOFFS| > 0 && AllPositive(DEFAULT_BACKOFFS)
  {
  }

  /** There is always at least one backoff and all are positive: without a usable setting the default applies. */
  method ParseBackoffs(parts: seq<string>, parse: string -> Option<int>) returns (backoffs: seq<nat>)
    ensures backoffs == if |Positive(parts, parse)| == 0 then [15, 60, 300, 900] else Positive(parts, parse)
    ensures |backoffs| > 0 && AllPositive(backoffs)
  {
    var parsed := ParsePositive(parts, parse);
    PositiveIsPositive(parts, parse);
    DefaultsArePositive();
    backoffs := if |parsed| == 0 then DEFAULT_BACKOFFS else parsed;
  }
}
