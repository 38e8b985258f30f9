/**
 * Timed mutual exclusion: while heartbeats are not too late, the lease of a worker that is executing a task is never
 * expired, so no second worker can claim the task, and the worker's own commit goes through.
 */
module LeaseTiming {
  import opened Json
  import opened IsoTime
  import opened LeaseProtocol
  import S = LeaseSafety
  import T = TaskTable

  // ---- The configured times, in microseconds ----

  const SECOND := 1_000_000

  function Max(a: int, b: int): int {
    if a < b then b else a
  }

  function Min(a: int, b: int): int {
    if a < b then a else b
  }

  /** Seconds before the queue redelivers: the first backoff if one is configured, else the ack wait, never below one.
      */
  function AckDeadline(backoff: seq<int>, ackWait: int): int {
    Max(1, if backoff != [] then backoff[0] else ackWait)
  }

  /** Forty percent of the deadline, between one second and thirty. */
  function HeartbeatInterval(deadline: int): nat {
    Max(SECOND, Min(30 * SECOND, deadline * 400_000))
  }

  /** One and a half deadlines, and at least a second more than the heartbeat interval. */
  function LeaseWindow(deadline: int): nat {
    Max(deadline * 1_500_000, HeartbeatInterval(deadline) + SECOND)
  }

  function ConfigFor(maxDeliver: nat, backoff: seq<int>, ackWait: int): Config {
    var d := AckDeadline(backoff, ackWait);
    Config(maxDeliver, HeartbeatInterval(d), LeaseWindow(d))
  }

  /** Whatever is configured: heartbeats come every one to thirty seconds, at forty percent of the redelivery deadline
      where that is in range, and so at least twice before the queue redelivers; the lease lasts one and a half
      deadlines, and never less than a second more than the interval. `d` is the deadline in seconds. */
  lemma HeartbeatsPrecedeRedelivery(maxDeliver: nat, backoff: seq<int>, ackWait: int, d: int)
    requires d == (if backoff != [] then backoff[0] else ackWait)
    ensures var cfg := ConfigFor(maxDeliver, backoff, ackWait);
      && cfg.maxDeliver == maxDeliver
      && SECOND <= cfg.interval <= 30 * SECOND
      && (d <= 1 ==> cfg.interval == SECOND)
      && (d >= 2 ==> 2 * cfg.interval <= d * SECOND)
      && (3 <= d <= 75 ==> 5 * cfg.interval == 2 * (d * SECOND))
      && (d >= 75 ==> cfg.interval == 30 * SECOND)
      && cfg.window >= cfg.interval + SECOND
      && 2 * cfg.window >= 3 * (d * SECOND)
      && (d >= 4 ==> 2 * cfg.window == 3 * (d * SECOND))
      && (d <= 3 ==> cfg.window == Max(d, 1) * 1_500_000 || cfg.window == cfg.interval + SECOND)
  {
  }

  // ---- The invariant ----

  /** The heartbeat of an executing worker is due one interval after the lease was last written. */
  function Lateness(cfg: Config, s: State, p: Phase): int
    requires p.Executing?
  {
    Micros(s.now) - (Micros(p.leaseBase) + cfg.interval)
  }

  predicate HeartbeatsWithin(cfg: Config, s: State, slack: int) {
    forall w :: w in s.workers && s.workers[w].Executing? ==> Lateness(cfg, s, s.workers[w]) < slack
  }

  ghost predicate LeaseCurrent(cfg: Config, table: T.Table, p: Phase) {
    && p.Executing? && p.task in table && p.owner != ""
    && table[p.task].execution == T.Running
    && table[p.task].leaseOwner == Some(p.owner)
    && exists e: Instant ::
         table[p.task].leaseExpiresAt == Some(Iso(e)) && Micros(e) == Micros(p.leaseBase) + cfg.window
  }

  ghost predicate Held(cfg: Config, s: State, p: Phase) {
    p.Executing? ==> LeaseCurrent(cfg, s.table, p) && p.owner in OwnersIn(s.log)
  }

  predicate Apart(p: Phase, q: Phase) {
    p.Executing? && q.Executing? ==> p.task != q.task
  }

  ghost predicate Exclusive(cfg: Config, s: State) {
    && (forall w :: w in s.workers ==> Held(cfg, s, s.workers[w]))
    && (forall v, w :: v in s.workers && w in s.workers && v != w ==> Apart(s.workers[v], s.workers[w]))
  }

  // ---- Why a second claim is refused ----

  lemma LeaseRefuses(cfg: Config, s: State, p: Phase, owner: Owner)
    requires Held(cfg, s, p) && p.Executing? && owner !in OwnersIn(s.log)
    requires cfg.interval <= cfg.window && Lateness(cfg, s, p) < cfg.window - cfg.interval
    ensures !T.ClaimReplyFor(s.table, p.task, owner, Stamp(s)).Granted?
  {
    var e: Instant :| s.table[p.task].leaseExpiresAt == Some(Iso(e)) && Micros(e) == Micros(p.leaseBase) + cfg.window;
    IsoOrderIsTimeOrder(s.now, e);
    assert T.HeldByOther(s.table[p.task], owner, Stamp(s));
  }

  // ---- Each step keeps it ----

  /** Nothing that an executing worker relies on has moved, and no worker has started executing. */
  predicate Untouched(s: State, s': State) {
    && (forall w :: w in s'.workers && s'.workers[w].Executing? ==> w in s.workers && s.workers[w] == s'.workers[w])
    && (forall w :: w in s'.workers && s'.workers[w].Executing? && s'.workers[w].task in s.table ==>
          && s'.workers[w].task in s'.table
          && s'.table[s'.workers[w].task].execution == s.table[s'.workers[w].task].execution
          && s'.table[s'.workers[w].task].leaseOwner == s.table[s'.workers[w].task].leaseOwner
          && s'.table[s'.workers[w].task].leaseExpiresAt == s.table[s'.workers[w].task].leaseExpiresAt)
    && OwnersIn(s.log) <= OwnersIn(s'.log)
  }

  lemma UntouchedKeeps(cfg: Config, s: State, s': State)
    requires Exclusive(cfg, s) && Untouched(s, s')
    ensures Exclusive(cfg, s')
  {
    forall w | w in s'.workers
      ensures Held(cfg, s', s'.workers[w])
    {
      if s'.workers[w].Executing? {
        assert Held(cfg, s, s.workers[w]);
      }
    }
  }

  lemma OwnersGrow(log: Log, e: Event)
    ensures OwnersIn(log) <= OwnersIn(log + [e])
    ensures e.EvClaimed? ==> e.owner in OwnersIn(log + [e])
  {
    forall o | o in OwnersIn(log)
      ensures o in OwnersIn(log + [e])
    {
      var f :| f in log && f.EvClaimed? && f.owner == o;
      assert f in log + [e];
    }
    assert e in log + [e];
  }

  lemma OwnersStay(cfg: Config, s: State, s': State, step: Step)
    requires Enabled(cfg, s, step) && s' == Apply(cfg, s, step)
    ensures OwnersIn(s.log) <= OwnersIn(s'.log)
  {
    S.LogGrows(cfg, s, s', step);
    if s'.log != s.log {
      OwnersGrow(s.log, Last(s'.log));
    }
  }

  lemma WorkersUntouched(cfg: Config, s: State, s': State, step: Step, w: nat)
    requires Enabled(cfg, s, step) && s' == Apply(cfg, s, step)
    requires !step.Handle? && !step.Heartbeat?
    requires w in s'.workers && s'.workers[w].Executing?
    ensures w in s.workers && s.workers[w] == s'.workers[w]
  {
  }

  lemma RowsUntouched(cfg: Config, s: State, s': State, step: Step, t: TaskId)
    requires Enabled(cfg, s, step) && s' == Apply(cfg, s, step) && t in s.table
    requires !step.Handle? && !step.Heartbeat? && !step.Finish?
    ensures t in s'.table && s'.table[t].execution == s.table[t].execution
    ensures s'.table[t].leaseOwner == s.table[t].leaseOwner && s'.table[t].leaseExpiresAt == s.table[t].leaseExpiresAt
  {
  }

  lemma OtherStepKeeps(cfg: Config, s: State, s': State, step: Step)
    requires Exclusive(cfg, s) && Enabled(cfg, s, step) && s' == Apply(cfg, s, step)
    requires !step.Handle? && !step.Heartbeat? && !step.Finish?
    ensures Exclusive(cfg, s')
  {
    OwnersStay(cfg, s, s', step);
    forall w | w in s'.workers && s'.workers[w].Executing?
      ensures w in s.workers && s.workers[w] == s'.workers[w]
    {
      WorkersUntouched(cfg, s, s', step, w);
    }
    forall w | w in s'.workers && s'.workers[w].Executing? && s'.workers[w].task in s.table
      ensures var t := s'.workers[w].task;
        && t in s'.table && s'.table[t].execution == s.table[t].execution
        && s'.table[t].leaseOwner == s.table[t].leaseOwner && s'.table[t].leaseExpiresAt == s.table[t].leaseExpiresAt
    {
      RowsUntouched(cfg, s, s', step, s'.workers[w].task);
    }
    UntouchedKeeps(cfg, s, s');
  }

  lemma FinishFrame(s: State, s': State, w: nat, p: Phase, result: T.TaskResult)
    requires w in s.workers && p.Executing? && s' == FinishStep(s, w, p, result)
    ensures forall v :: v in s'.workers && s'.workers[v].Executing? ==>
      v != w && v in s.workers && s.workers[v] == s'.workers[v]
    ensures forall t :: t in s.table && t != p.task ==> t in s'.table && s'.table[t] == s.table[t]
  {
  }

  lemma FinishKeeps(cfg: Config, s: State, s': State, w: nat, result: T.TaskResult)
    requires Exclusive(cfg, s) && OwnersIn(s.log) <= OwnersIn(s'.log)
    requires w in s.workers && s.workers[w].Executing? && s' == FinishStep(s, w, s.workers[w], result)
    ensures Exclusive(cfg, s')
  {
    var p := s.workers[w];
    FinishFrame(s, s', w, p, result);
    forall v | v in s'.workers && s'.workers[v].Executing?
      ensures v in s.workers && s.workers[v] == s'.workers[v] && s.workers[v].task != p.task
    {
      assert Apart(s.workers[v], s.workers[w]);
    }
    UntouchedKeeps(cfg, s, s');
  }

  /** A claim or a renewal by the only worker on its task. */
  lemma LeaseWriteKeeps(cfg: Config, s: State, s': State, w: nat, q: Phase, row: T.Row, e: Instant)
    requires Exclusive(cfg, s) && w in s.workers && q.Executing? && q.owner != "" && q.owner in OwnersIn(s'.log)
    requires forall v :: v in s.workers && v != w && s.workers[v].Executing? ==> s.workers[v].task != q.task
    requires OwnersIn(s.log) <= OwnersIn(s'.log)
    requires s'.workers == s.workers[w := q] && s'.table == s.table[q.task := row]
    requires row.execution == T.Running && row.leaseOwner == Some(q.owner) && row.leaseExpiresAt == Some(Iso(e))
    requires Micros(e) == Micros(q.leaseBase) + cfg.window
    ensures Exclusive(cfg, s')
  {
    forall v | v in s'.workers
      ensures Held(cfg, s', s'.workers[v])
    {
      if v != w {
        assert Held(cfg, s, s.workers[v]);
      }
    }
    forall v | v in s.workers && v != w
      ensures Apart(s.workers[v], q) && Apart(q, s.workers[v])
    {
    }
  }

  lemma HeartbeatKeeps(cfg: Config, s: State, s': State, step: Step)
    requires Exclusive(cfg, s) && Enabled(cfg, s, step) && step.Heartbeat? && s' == Apply(cfg, s, step)
    ensures Exclusive(cfg, s')
  {
    var w := step.worker;
    var p := s.workers[w];
    assert Held(cfg, s, p);
    forall v | v in s.workers && v != w && s.workers[v].Executing?
      ensures s.workers[v].task != p.task
    {
      assert Apart(s.workers[v], s.workers[w]);
    }
    LeaseWriteKeeps(cfg, s, s', w, s'.workers[w], s'.table[p.task], step.expires);
  }

  /** `s'` follows by worker `w` handling the message it fetched. */
  predicate Handled(cfg: Config, s: State, s': State, w: nat, owner: Owner, leaseBase: Instant, expires: Instant) {
    && w in s.workers && HandleEnabled(cfg, s, s.workers[w], owner, leaseBase, expires)
    && s' == HandleStep(s, w, s.workers[w], owner, leaseBase, expires)
  }

  lemma ClaimFrame(s: State, s': State, w: nat, p: Phase, o: Owner, base: Instant, expires: Instant, t: TaskId)
    requires p.Fetched? && TaskFor(s, p) && s' == HandleStep(s, w, p, o, base, expires)
    requires s.messages[p.msg].task == Some(t) && HandlingOf(s, p, o) == Claim
    ensures s'.log == s.log + [EvClaimed(t, o, p.delivery)]
    ensures s'.workers == s.workers[w := Executing(p.msg, p.delivery, t, o, base)]
    ensures t in s.table && s'.table == s.table[t := T.ClaimedRow(s.table[t], o, Iso(expires), Stamp(s))]
  {
  }

  lemma ClaimKeeps(cfg: Config, s: State, s': State, w: nat, o: Owner, base: Instant, expires: Instant, t: TaskId)
    requires Exclusive(cfg, s) && Handled(cfg, s, s', w, o, base, expires)
    requires s.messages[s.workers[w].msg].task == Some(t) && HandlingOf(s, s.workers[w], o) == Claim
    requires forall v :: v in s.workers && s.workers[v].Executing? ==> s.workers[v].task != t
    ensures Exclusive(cfg, s')
  {
    ClaimFrame(s, s', w, s.workers[w], o, base, expires, t);
    OwnersGrow(s.log, EvClaimed(t, o, s.workers[w].delivery));
    LeaseWriteKeeps(cfg, s, s', w, s'.workers[w], s'.table[t], expires);
  }

  lemma IdleHandleKeeps(cfg: Config, s: State, s': State, w: nat, o: Owner, base: Instant, expires: Instant)
    requires Exclusive(cfg, s) && Handled(cfg, s, s', w, o, base, expires) && HandlingOf(s, s.workers[w], o) != Claim
    ensures Exclusive(cfg, s')
  {
    UntouchedKeeps(cfg, s, s');
  }

  /** Granted means that no executing worker holds the task. */
  lemma ClaimMeansFree(cfg: Config, s: State, p: Phase, o: Owner, t: TaskId, v: nat)
    requires Exclusive(cfg, s) && TaskFor(s, p) && s.messages[p.msg].task == Some(t) && o !in OwnersIn(s.log)
    requires cfg.interval <= cfg.window && HeartbeatsWithin(cfg, s, cfg.window - cfg.interval)
    requires HandlingOf(s, p, o) == Claim && v in s.workers && s.workers[v].Executing?
    ensures s.workers[v].task != t
  {
    assert Held(cfg, s, s.workers[v]);
    LeaseRefuses(cfg, s, s.workers[v], o);
  }

  /** The step that could break exclusion: a claim, refused because every executing worker's lease is current. */
  lemma HandleKeeps(cfg: Config, s: State, s': State, w: nat, o: Owner, base: Instant, expires: Instant)
    requires Exclusive(cfg, s) && Handled(cfg, s, s', w, o, base, expires)
    requires cfg.interval <= cfg.window && HeartbeatsWithin(cfg, s, cfg.window - cfg.interval)
    ensures Exclusive(cfg, s')
  {
    var p := s.workers[w];
    if HandlingOf(s, p, o) == Claim {
      var t := s.messages[p.msg].task.value;
      forall v | v in s.workers && s.workers[v].Executing?
        ensures s.workers[v].task != t
      {
        ClaimMeansFree(cfg, s, p, o, t, v);
      }
      ClaimKeeps(cfg, s, s', w, o, base, expires, t);
    } else {
      IdleHandleKeeps(cfg, s, s', w, o, base, expires);
    }
  }

  lemma StepKeeps(cfg: Config, s: State, s': State)
    requires Exclusive(cfg, s) && Next(cfg, s, s')
    requires cfg.interval <= cfg.window && HeartbeatsWithin(cfg, s, cfg.window - cfg.interval)
    ensures Exclusive(cfg, s')
  {
    var step :| Enabled(cfg, s, step) && s' == Apply(cfg, s, step);
    if step.Handle? {
      HandleKeeps(cfg, s, s', step.worker, step.owner, step.leaseBase, step.expires);
    } else if step.Heartbeat? {
      HeartbeatKeeps(cfg, s, s', step);
    } else if step.Finish? {
      OwnersStay(cfg, s, s', step);
      FinishKeeps(cfg, s, s', step.worker, step.result);
    } else {
      OtherStepKeeps(cfg, s, s', step);
    }
  }

  // ---- Theorems over runs ----

  lemma {:induction false} RunIsExclusive(cfg: Config, run: seq<State>, i: nat)
    requires IsRun(cfg, run) && i < |run| && cfg.interval <= cfg.window
    requires forall j :: 0 <= j < i ==> HeartbeatsWithin(cfg, run[j], cfg.window - cfg.interval)
    ensures Exclusive(cfg, run[i])
  {
    if i > 0 {
      RunIsExclusive(cfg, run, i - 1);
      StepKeeps(cfg, run[i - 1], run[i - 1 + 1]);
    }
  }

  /** In a run whose heartbeats are late by less than the window minus the interval, a task has at most one executing
      worker; no other worker's claim on that task is granted, and its own renewal and commit are accepted. */
  lemma TimedMutualExclusion(cfg: Config, run: seq<State>, i: nat, w: nat)
    requires IsRun(cfg, run) && i < |run| && cfg.interval <= cfg.window
    requires forall j :: 0 <= j <= i ==> HeartbeatsWithin(cfg, run[j], cfg.window - cfg.interval)
    requires w in run[i].workers && run[i].workers[w].Executing?
    ensures var s, p := run[i], run[i].workers[w];
      && (forall v :: v in s.workers && s.workers[v].Executing? && s.workers[v].task == p.task ==> v == w)
      && (forall owner: Owner :: owner !in OwnersIn(s.log) ==>
          !T.ClaimReplyFor(s.table, p.task, owner, Stamp(s)).Granted?)
      && T.CanRenew(s.table, p.task, p.owner)
      && T.CanCommit(s.table, p.task, Some(p.owner))
  {
    var s, p := run[i], run[i].workers[w];
    RunIsExclusive(cfg, run, i);
    assert Held(cfg, s, p);
    forall v | v in s.workers && s.workers[v].Executing? && s.workers[v].task == p.task
      ensures v == w
    {
      assert v != w ==> Apart(s.workers[v], s.workers[w]);
    }
    forall owner: Owner | owner !in OwnersIn(s.log)
      ensures !T.ClaimReplyFor(s.table, p.task, owner, Stamp(s)).Granted?
    {
      LeaseRefuses(cfg, s, p, owner);
    }
  }

  /** Whatever deadline is configured, heartbeats that are never a full second late are enough. */
  lemma OneSecondIsEnough(maxDeliver: nat, backoff: seq<int>, ackWait: int, run: seq<State>, i: nat, v: nat, w: nat)
    requires var cfg := ConfigFor(maxDeliver, backoff, ackWait);
      IsRun(cfg, run) && i < |run| && forall j :: 0 <= j <= i ==> HeartbeatsWithin(cfg, run[j], SECOND)
    requires v in run[i].workers && w in run[i].workers && run[i].workers[v].Executing? && run[i].workers[w].Executing?
    requires run[i].workers[v].task == run[i].workers[w].task
    ensures v == w
  {
    var cfg := ConfigFor(maxDeliver, backoff, ackWait);
    assert SECOND <= cfg.window - cfg.interval;
    forall j | 0 <= j <= i
      ensures HeartbeatsWithin(cfg, run[j], cfg.window - cfg.interval)
    {
      assert HeartbeatsWithin(cfg, run[j], SECOND);
    }
    TimedMutualExclusion(cfg, run, i, w);
  }

  /** The exact limit: a running task can be claimed by a new owner if and only if the recorded expiry is not after
      now. */
  lemma TakeoverIffExpired(table: T.Table, t: TaskId, expires: Instant, now: Instant, holder: Owner, owner: Owner)
    requires t in table && table[t].execution == T.Running && table[t].status == T.Running
    requires table[t].leaseOwner == Some(holder) && table[t].leaseExpiresAt == Some(Iso(expires))
    requires holder != "" && owner != holder
    ensures T.ClaimReplyFor(table, t, owner, Iso(now)).Granted? <==> Micros(expires) <= Micros(now)
  {
    IsoOrderIsTimeOrder(now, expires);
    assert Iso(expires) != "";
  }

  /** A heartbeat makes the lease last one window from now: in a run whose heartbeats are in time, the task is refused
      to every other owner until then and granted from then on. */
  lemma HeartbeatExtends(
    cfg: Config, run: seq<State>, i: nat, w: nat, expires: Instant, s': State, later: Instant, other: Owner)
    requires IsRun(cfg, run) && i < |run| && cfg.interval <= cfg.window
    requires forall j :: 0 <= j <= i ==> HeartbeatsWithin(cfg, run[j], cfg.window - cfg.interval)
    requires Enabled(cfg, run[i], Heartbeat(w, expires)) && s' == Apply(cfg, run[i], Heartbeat(w, expires))
    requires other != run[i].workers[w].owner
    ensures var t := run[i].workers[w].task;
      && t in s'.table && s'.table[t].heartbeatAt == Some(Iso(run[i].now))
      && s'.workers[w] == run[i].workers[w].(leaseBase := run[i].now)
      && (T.ClaimReplyFor(s'.table, t, other, Iso(later)).Granted? <==>
          Micros(run[i].now) + cfg.window <= Micros(later))
  {
    var s, p := run[i], run[i].workers[w];
    TimedMutualExclusion(cfg, run, i, w);
    RunIsExclusive(cfg, run, i);
    assert Held(cfg, s, p);
    S.RunKeeps(cfg, run, i);
    assert S.RowOk(s, S.Hist(s.log)(p.task), p.task);
    TakeoverIffExpired(s'.table, p.task, expires, later, p.owner, other);
  }

  /** A claim lasts one window from when its expiry was computed. */
  lemma ClaimLasts(
    cfg: Config, s: State, s': State, w: nat, owner: Owner, base: Instant, expires: Instant, later: Instant,
    other: Owner)
    requires Handled(cfg, s, s', w, owner, base, expires) && HandlingOf(s, s.workers[w], owner) == Claim
    requires other != owner
    ensures var t := s.messages[s.workers[w].msg].task.value;
      && t in s'.table && s'.workers[w].Executing? && s'.workers[w].task == t && s'.workers[w].owner == owner
      && (T.ClaimReplyFor(s'.table, t, other, Iso(later)).Granted? <==> Micros(base) + cfg.window <= Micros(later))
  {
    var p := s.workers[w];
    var t := s.messages[p.msg].task.value;
    ClaimFrame(s, s', w, p, owner, base, expires, t);
    TakeoverIffExpired(s'.table, t, expires, later, owner, other);
  }
}
