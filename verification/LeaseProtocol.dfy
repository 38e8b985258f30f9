/**
 * The executor's task protocol as a transition system: submissions, the work queue with redelivery, workers that
 * claim a task under a lease, run it, commit the result and call back, the callback retry queue, dead letters,
 * crashes and restarts. A step of a worker runs from one suspension point of its coroutine to the next.
 * The log records what happened, in order.
 */
module LeaseProtocol {
  import opened Json
  import opened IsoTime
  import T = TaskTable

  type TaskId = string
  type Owner = string

  /** `window` and `interval` are microseconds; the configuration loader keeps `maxDeliver` at one or more. */
  datatype Config = Config(maxDeliver: nat, interval: nat, window: nat)

  /** A work-queue message; `task` is `None` when its body does not decode to a task. */
  datatype Message = Message(task: Option<TaskId>, callback: Option<string>, delivered: nat, acked: bool)

  datatype RetryMessage = RetryMessage(task: TaskId, payload: T.TaskResult, delivered: nat, acked: bool)

  datatype Phase =
    | Idle
    | Fetched(msg: nat, delivery: nat)
    | Executing(msg: nat, delivery: nat, task: TaskId, owner: Owner, leaseBase: Instant)
    | Committed(msg: nat, delivery: nat, task: TaskId, result: T.TaskResult)
    | Retrying(msg: nat, delivery: nat, task: TaskId, result: T.TaskResult)
    | Acking(msg: nat, delivery: nat)
    | Raised(msg: nat, delivery: nat)
    | DeadLettered(msg: nat)

  datatype RetryPhase =
    | Waiting
    | Holding(retry: nat, delivery: nat)
    | Delivered(retry: nat, delivery: nat)
    | Failing(retry: nat, delivery: nat)
    | Dropped(retry: nat)
    | Stopped // an error escaped the loop; nothing starts it again

  datatype Event =
    | EvPublished(task: TaskId)
    | EvClaimed(task: TaskId, owner: Owner, delivery: nat)
    | EvCommitted(task: TaskId, owner: Owner, status: T.Status)
    | EvDeadLetter(msg: nat)
    | EvAcked(msg: nat, carried: Option<TaskId>)
    | EvRetryDelivered(retry: nat)
    | EvRetryDeadLetter(retry: nat)
    | EvRetryAcked(retry: nat)
    | EvRestarted

  type Log = seq<Event>

  datatype State = State(
    table: T.Table,
    unpublished: set<TaskId>,
    messages: map<nat, Message>,
    workers: map<nat, Phase>,
    retries: map<nat, RetryMessage>,
    retryLoop: RetryPhase,
    now: Instant,
    log: Log)

  datatype Step =
    | Tick(later: Instant)
    | Submit(task: TaskId, payload: Fields, callback: Option<string>)
    | Publish(task: TaskId, msg: nat)
    | PublishLost(task: TaskId)
    | Inject(msg: nat)
    | Fetch(worker: nat, msg: nat)
    | Handle(worker: nat, owner: Owner, leaseBase: Instant, expires: Instant)
    | Raise(worker: nat)
    | Heartbeat(worker: nat, expires: Instant)
    | Finish(worker: nat, result: T.TaskResult)
    | CallbackDone(worker: nat, outcome: T.CallbackStatus, error: string)
    | PublishRetry(worker: nat, retry: nat, compacted: T.TaskResult)
    | Ack(worker: nat)
    | GiveUp(worker: nat)
    | Nak(worker: nat)
    | Crash(worker: nat)
    | Restart
    | RetryFetch(retry: nat)
    | RetryDeliver
    | RetryRaise
    | RetryGiveUp
    | RetryAck
    | RetryNak
    | RetryStop

  // ---- Histories read off the log ----

  datatype Commit = Commit(owner: Owner, status: T.Status)

  /** One task's past: who claimed it, what was committed, how often its message was published, and on which
      delivery numbers it was claimed since the consumer was last created. */
  datatype History = History(claims: seq<Owner>, commits: seq<Commit>, publishes: nat, deliveries: set<nat>)

  function Extend(h: History, e: Event, t: TaskId): History {
    match e
    case EvPublished(u) => if u == t then h.(publishes := h.publishes + 1) else h
    case EvClaimed(u, o, d) => if u == t then h.(claims := h.claims + [o], deliveries := h.deliveries + {d}) else h
    case EvCommitted(u, o, st) => if u == t then h.(commits := h.commits + [Commit(o, st)]) else h
    case EvRestarted => h.(deliveries := {})
    case _ => h
  }

  function HistoryOf(log: Log, t: TaskId): History {
    if log == [] then History([], [], 0, {})
    else Extend(HistoryOf(log[..|log| - 1], t), log[|log| - 1], t)
  }

  function Restarts(log: Log): nat {
    if log == [] then 0
    else Restarts(log[..|log| - 1]) + (if log[|log| - 1].EvRestarted? then 1 else 0)
  }

  /** Claims of a task granted since the consumer was last created. */
  function LifeClaims(log: Log, t: TaskId): nat {
    if log == [] then 0
    else
      var before, e := LifeClaims(log[..|log| - 1], t), log[|log| - 1];
      if e.EvRestarted? then 0 else before + if e.EvClaimed? && e.task == t then 1 else 0
  }

  function OwnersIn(log: Log): set<Owner> {
    set e | e in log && e.EvClaimed? :: e.owner
  }

  function Last<X>(s: seq<X>): X
    requires s != []
  {
    s[|s| - 1]
  }

  // ---- Steps ----

  function WithPhase(s: State, w: nat, p: Phase): State {
    s.(workers := s.workers[w := p])
  }

  function Logged(s: State, e: Event): State {
    s.(log := s.log + [e])
  }

  predicate Holds(s: State, w: nat) {
    w in s.workers && !s.workers[w].Idle?
  }

  function Outcome(success: bool): T.Status {
    if success then T.Success else T.Failed
  }

  function Stamp(s: State): string {
    Iso(s.now)
  }

  predicate TaskFor(s: State, p: Phase) {
    !p.Idle? && p.msg in s.messages && s.messages[p.msg].task.Some?
  }

  predicate HandleEnabled(cfg: Config, s: State, p: Phase, owner: Owner, leaseBase: Instant, expires: Instant) {
    && p.Fetched? && TaskFor(s, p)
    && owner != "" && owner !in OwnersIn(s.log)
    && Micros(leaseBase) <= Micros(s.now)
    && Micros(expires) == Micros(leaseBase) + cfg.window
  }

  predicate Enabled(cfg: Config, s: State, step: Step) {
    match step
    case Tick(later) => Micros(s.now) <= Micros(later)
    case Submit(t, payload, callback) => true
    case Publish(t, m) => t in s.unpublished && t in s.table && m !in s.messages
    case PublishLost(t) => t in s.unpublished
    case Inject(m) => m !in s.messages
    case Fetch(w, m) =>
      && w in s.workers && s.workers[w].Idle?
      && m in s.messages && !s.messages[m].acked && s.messages[m].delivered < cfg.maxDeliver
    case Handle(w, owner, leaseBase, expires) =>
      w in s.workers && HandleEnabled(cfg, s, s.workers[w], owner, leaseBase, expires)
    case Raise(w) => Holds(s, w) && !s.workers[w].DeadLettered? && !s.workers[w].Raised?
    case Heartbeat(w, expires) =>
      w in s.workers && s.workers[w].Executing? && Micros(expires) == Micros(s.now) + cfg.window
    case Finish(w, result) =>
      w in s.workers && s.workers[w].Executing? && result.taskId == s.workers[w].task
    case CallbackDone(w, outcome, _) =>
      && w in s.workers && s.workers[w].Committed? && s.workers[w].msg in s.messages
      && (outcome == T.CbSent || outcome == T.CbFailed || outcome == T.CbNone)
      && (outcome == T.CbNone <==> s.messages[s.workers[w].msg].callback.None?)
    case PublishRetry(w, r, compacted) =>
      && w in s.workers && s.workers[w].Retrying? && r !in s.retries
      && compacted.taskId == s.workers[w].result.taskId && compacted.success == s.workers[w].result.success
    case Ack(w) =>
      && w in s.workers && (s.workers[w].Acking? || s.workers[w].DeadLettered?)
      && s.workers[w].msg in s.messages
    case GiveUp(w) => w in s.workers && s.workers[w].Raised? && s.workers[w].delivery >= cfg.maxDeliver
    case Nak(w) => w in s.workers && s.workers[w].Raised? && s.workers[w].delivery < cfg.maxDeliver
    case Crash(w) => w in s.workers
    case Restart => true
    case RetryFetch(r) =>
      s.retryLoop.Waiting? && r in s.retries && !s.retries[r].acked && s.retries[r].delivered < cfg.maxDeliver
    case RetryDeliver => s.retryLoop.Holding? && s.retryLoop.retry in s.retries
    case RetryRaise => s.retryLoop.Holding? || s.retryLoop.Delivered?
    case RetryGiveUp => s.retryLoop.Failing? && s.retryLoop.delivery >= cfg.maxDeliver
    case RetryAck => (s.retryLoop.Delivered? || s.retryLoop.Dropped?) && s.retryLoop.retry in s.retries
    case RetryNak => s.retryLoop.Failing? && s.retryLoop.delivery < cfg.maxDeliver
    case RetryStop => true
  }

  function FetchStep(s: State, w: nat, m: nat): State
    requires m in s.messages
  {
    var n := s.messages[m].delivered + 1;
    WithPhase(s, w, Fetched(m, n)).(messages := s.messages[m := s.messages[m].(delivered := n)])
  }

  /** What a worker makes of a decoded message: a finished task is acknowledged, a task that is leased to another or
      unknown is skipped and its message left to be delivered again, any other is claimed. */
  datatype Handling = Acknowledge | Skip | Claim

  function HandlingOf(s: State, p: Phase, owner: Owner): Handling
    requires TaskFor(s, p)
  {
    var t := s.messages[p.msg].task.value;
    if t in s.table && T.IsTerminal(s.table[t].status) then Acknowledge
    else
      match T.ClaimReplyFor(s.table, t, owner, Stamp(s))
      case Finished => Acknowledge
      case Granted(_) => Claim
      case _ => Skip
  }

  function HandleStep(s: State, w: nat, p: Phase, owner: Owner, leaseBase: Instant, expires: Instant): State
    requires p.Fetched? && TaskFor(s, p)
  {
    match HandlingOf(s, p, owner)
    case Acknowledge => WithPhase(s, w, Acking(p.msg, p.delivery))
    case Skip => WithPhase(s, w, Idle)
    case Claim =>
      var t := s.messages[p.msg].task.value;
      Logged(WithPhase(s, w, Executing(p.msg, p.delivery, t, owner, leaseBase)), EvClaimed(t, owner, p.delivery))
      .(table := T.Claimed(s.table, t, owner, Iso(expires), Stamp(s)))
  }

  /** The commit is fenced by the owner id; losing the lease raises. */
  function FinishStep(s: State, w: nat, p: Phase, result: T.TaskResult): State
    requires p.Executing?
  {
    if T.CanCommit(s.table, p.task, Some(p.owner)) then
      Logged(WithPhase(s, w, Committed(p.msg, p.delivery, p.task, result)),
        EvCommitted(p.task, p.owner, Outcome(result.success)))
      .(table := T.Committed(s.table, p.task, Outcome(result.success), result, Stamp(s), Some(p.owner)))
    else WithPhase(s, w, Raised(p.msg, p.delivery))
  }

  /** A failed callback leaves its error in the stored result. */
  function Noted(result: T.TaskResult, outcome: T.CallbackStatus, error: string): T.TaskResult {
    if outcome == T.CbFailed then result.(callbackError := Some(error)) else result
  }

  function CallbackStep(s: State, w: nat, p: Phase, outcome: T.CallbackStatus, error: string): State
    requires p.Committed?
  {
    var next :=
      if outcome == T.CbFailed then Retrying(p.msg, p.delivery, p.task, p.result) else Acking(p.msg, p.delivery);
    WithPhase(s, w, next).(
      table := T.CallbackUpdated(
        s.table, p.task, outcome, Noted(p.result, outcome, error), Stamp(s), Some(Outcome(p.result.success))))
  }

  function RestartStep(s: State): State {
    Logged(s, EvRestarted).(
      unpublished := {},
      messages := map m | m in s.messages :: s.messages[m].(delivered := 0),
      workers := map w | w in s.workers :: Idle,
      retries := map r | r in s.retries :: s.retries[r].(delivered := 0),
      retryLoop := Waiting)
  }

  function Apply(cfg: Config, s: State, step: Step): State
    requires Enabled(cfg, s, step)
  {
    match step
    case Tick(later) => s.(now := later)
    case Submit(t, payload, callback) =>
      s.(table := T.Created(s.table, t, T.Queued, payload, callback, Stamp(s)),
         unpublished := if t in s.table then s.unpublished else s.unpublished + {t})
    case Publish(t, m) =>
      Logged(s, EvPublished(t)).(
        messages := s.messages[m := Message(Some(t), s.table[t].callback, 0, false)],
        unpublished := s.unpublished - {t})
    case PublishLost(t) => s.(unpublished := s.unpublished - {t})
    case Inject(m) => s.(messages := s.messages[m := Message(None, None, 0, false)])
    case Fetch(w, m) => FetchStep(s, w, m)
    case Handle(w, owner, leaseBase, expires) => HandleStep(s, w, s.workers[w], owner, leaseBase, expires)
    case Raise(w) => WithPhase(s, w, Raised(s.workers[w].msg, s.workers[w].delivery))
    case Heartbeat(w, expires) =>
      var p := s.workers[w];
      if T.CanRenew(s.table, p.task, p.owner) then
        WithPhase(s, w, p.(leaseBase := s.now)).(table := T.Renewed(s.table, p.task, p.owner, Iso(expires), Stamp(s)))
      else s
    case Finish(w, result) => FinishStep(s, w, s.workers[w], result)
    case CallbackDone(w, outcome, error) => CallbackStep(s, w, s.workers[w], outcome, error)
    case PublishRetry(w, r, compacted) =>
      var p := s.workers[w];
      WithPhase(s, w, Acking(p.msg, p.delivery)).(retries := s.retries[r := RetryMessage(p.task, compacted, 0, false)])
    case Ack(w) =>
      var m := s.workers[w].msg;
      Logged(WithPhase(s, w, Idle), EvAcked(m, s.messages[m].task)).(
        messages := s.messages[m := s.messages[m].(acked := true)])
    case GiveUp(w) => Logged(WithPhase(s, w, DeadLettered(s.workers[w].msg)), EvDeadLetter(s.workers[w].msg))
    case Nak(w) => WithPhase(s, w, Idle)
    case Crash(w) => WithPhase(s, w, Idle)
    case Restart => RestartStep(s)
    case RetryFetch(r) =>
      var n := s.retries[r].delivered + 1;
      s.(retryLoop := Holding(r, n), retries := s.retries[r := s.retries[r].(delivered := n)])
    case RetryDeliver =>
      var m := s.retries[s.retryLoop.retry];
      Logged(s, EvRetryDelivered(s.retryLoop.retry)).(
        retryLoop := Delivered(s.retryLoop.retry, s.retryLoop.delivery),
        table := T.CallbackUpdated(s.table, m.task, T.CbSent, m.payload, Stamp(s), Some(Outcome(m.payload.success))))
    case RetryRaise => s.(retryLoop := Failing(s.retryLoop.retry, s.retryLoop.delivery))
    case RetryGiveUp => Logged(s, EvRetryDeadLetter(s.retryLoop.retry)).(retryLoop := Dropped(s.retryLoop.retry))
    case RetryAck =>
      var r := s.retryLoop.retry;
      Logged(s, EvRetryAcked(r)).(retryLoop := Waiting, retries := s.retries[r := s.retries[r].(acked := true)])
    case RetryNak => s.(retryLoop := Waiting)
    case RetryStop => s.(retryLoop := Stopped)
  }

  ghost predicate Next(cfg: Config, s: State, s': State) {
    exists step :: Enabled(cfg, s, step) && s' == Apply(cfg, s, step)
  }

  predicate Init(s: State) {
    && s.table == map[] && s.unpublished == {} && s.messages == map[] && s.retries == map[]
    && (forall w :: w in s.workers ==> s.workers[w].Idle?)
    && s.retryLoop.Waiting? && s.log == []
  }

  /** A finite run from an initial state. */
  ghost predicate IsRun(cfg: Config, run: seq<State>) {
    && run != [] && Init(run[0])
    && forall i, next {:trigger Next(cfg, run[i], run[next])} :: 0 <= i && next == i + 1 && next < |run| ==>
         Next(cfg, run[i], run[next])
  }
}
