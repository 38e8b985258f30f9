/** What every step of the protocol keeps, and what follows for whole runs. */
module LeaseSafety {
  import opened Json
  import opened IsoTime
  import opened LeaseProtocol
  import T = TaskTable

  // ---- The invariant, over the histories that the log gives ----

  type Histories = TaskId -> History

  predicate StatusConsistent(row: T.Row) {
    row.status ==
      (if row.execution == T.Success && row.callbackStatus == T.CbFailed then T.CallbackFailed else row.execution)
  }

  /** A row is a digest of the task's claims and commits. */
  predicate RowMatches(row: T.Row, h: History) {
    && StatusConsistent(row)
    && row.attempt == |h.claims|
    && (row.callbackStatus == T.CbFailed ==> T.IsTerminal(row.execution))
    && (match row.execution
        case Queued => h.claims == [] && h.commits == [] && row.leaseOwner.None?
        case Running => h.claims != [] && h.commits == [] && row.leaseOwner == Some(Last(h.claims))
        case CallbackFailed => false
        case outcome => h.claims != [] && h.commits == [Commit(Last(h.claims), outcome)] && row.leaseOwner.None?)
  }

  predicate RowOk(s: State, h: History, t: TaskId) {
    if t in s.table then
      && RowMatches(s.table[t], h)
      && h.publishes <= 1
      && (t in s.unpublished ==> h.publishes == 0 && h.deliveries == {})
    else
      h == History([], [], 0, {}) && t !in s.unpublished
  }

  ghost predicate RowsOk(s: State, hs: Histories) {
    forall t: TaskId :: RowOk(s, hs(t), t)
  }

  predicate MessageOk(cfg: Config, s: State, m: Message) {
    && m.delivered <= cfg.maxDeliver
    && (m.task.Some? ==> m.task.value in s.table && m.task.value !in s.unpublished)
  }

  predicate MessagesOk(cfg: Config, s: State) {
    && (forall m :: m in s.messages ==> MessageOk(cfg, s, s.messages[m]))
    && (forall m, n ::
          m in s.messages && n in s.messages && s.messages[m].task.Some? && s.messages[m].task == s.messages[n].task ==>
            m == n)
  }

  predicate DeliveryOk(cfg: Config, s: State, d: nat, t: TaskId) {
    && 1 <= d <= cfg.maxDeliver
    && forall m :: m in s.messages && s.messages[m].task == Some(t) ==> d <= s.messages[m].delivered
  }

  ghost predicate DeliveriesOk(cfg: Config, s: State, hs: Histories, restarts: nat) {
    forall t: TaskId ::
      && (forall d :: d in hs(t).deliveries ==> DeliveryOk(cfg, s, d, t))
      && |hs(t).claims| <= cfg.maxDeliver * restarts + |hs(t).deliveries|
  }

  predicate Settled(s: State, t: TaskId) {
    t in s.table && T.IsTerminal(s.table[t].execution)
  }

  predicate OutcomeOk(s: State, t: TaskId, r: T.TaskResult) {
    t in s.table && s.table[t].execution == Outcome(r.success) && r.taskId == t
  }

  predicate PhaseOk(s: State, hs: Histories, p: Phase) {
    !p.Idle? ==>
      && p.msg in s.messages
      && (!p.DeadLettered? ==> 1 <= p.delivery <= s.messages[p.msg].delivered)
      && match p
         case Fetched(m, d) => s.messages[m].task.Some? ==> d !in hs(s.messages[m].task.value).deliveries
         case Executing(m, _, t, o, _) => s.messages[m].task == Some(t) && t in s.table && o in hs(t).claims
         case Committed(m, _, t, r) => s.messages[m].task == Some(t) && OutcomeOk(s, t, r)
         case Retrying(m, _, t, r) => s.messages[m].task == Some(t) && OutcomeOk(s, t, r)
         case Acking(m, _) => s.messages[m].task.Some? && Settled(s, s.messages[m].task.value)
         case _ => true
  }

  predicate CallbackOpen(s: State, p: Phase) {
    p.Committed? ==> p.task in s.table && s.table[p.task].callbackStatus != T.CbFailed
  }

  /** Two workers never share a delivery they have yet to handle, nor a callback they have yet to make. */
  predicate Apart(p: Phase, q: Phase) {
    && !(p.Committed? && q.Committed? && p.task == q.task)
    && !(p.Fetched? && q.Fetched? && p == q)
  }

  predicate WorkersOk(s: State, hs: Histories) {
    && (forall w :: w in s.workers ==> PhaseOk(s, hs, s.workers[w]) && CallbackOpen(s, s.workers[w]))
    && (forall v, w :: v in s.workers && w in s.workers && v != w ==> Apart(s.workers[v], s.workers[w]))
  }

  predicate RetriesOk(s: State) {
    forall r :: r in s.retries ==> OutcomeOk(s, s.retries[r].task, s.retries[r].payload)
  }

  ghost predicate Core(cfg: Config, s: State, hs: Histories, restarts: nat) {
    && RowsOk(s, hs) && MessagesOk(cfg, s) && DeliveriesOk(cfg, s, hs, restarts)
    && WorkersOk(s, hs) && RetriesOk(s)
  }

  // ---- Elementary changes and what they keep; a step is one or a few of them ----

  lemma QuietKeeps(cfg: Config, s: State, s': State, hs: Histories, k: nat)
    requires Core(cfg, s, hs, k)
    requires s' == s.(now := s'.now, log := s'.log, retryLoop := s'.retryLoop)
    ensures Core(cfg, s', hs, k)
  {
  }

  lemma SameHistoriesKeep(cfg: Config, s: State, hs: Histories, hs': Histories, k: nat)
    requires Core(cfg, s, hs, k)
    requires forall t: TaskId :: hs'(t) == hs(t)
    ensures Core(cfg, s, hs', k)
  {
    assert RowsOk(s, hs') by {
      forall u: TaskId ensures RowOk(s, hs'(u), u) { assert RowOk(s, hs(u), u); }
    }
  }

  lemma SubmitKeeps(cfg: Config, s: State, t: TaskId, row: T.Row, hs: Histories, k: nat)
    requires Core(cfg, s, hs, k) && t !in s.table
    requires row.status == row.execution == T.Queued && row.attempt == 0 && row.leaseOwner.None?
    requires row.callbackStatus != T.CbFailed
    ensures Core(cfg, s.(table := s.table[t := row], unpublished := s.unpublished + {t}), hs, k)
  {
    var s' := s.(table := s.table[t := row], unpublished := s.unpublished + {t});
    assert RowsOk(s', hs) by {
      forall u: TaskId ensures RowOk(s', hs(u), u) { assert RowOk(s, hs(u), u); }
    }
  }

  lemma UnqueueKeeps(cfg: Config, s: State, gone: set<TaskId>, hs: Histories, k: nat)
    requires Core(cfg, s, hs, k)
    ensures Core(cfg, s.(unpublished := s.unpublished - gone), hs, k)
  {
    var s' := s.(unpublished := s.unpublished - gone);
    assert RowsOk(s', hs) by {
      forall u: TaskId ensures RowOk(s', hs(u), u) { assert RowOk(s, hs(u), u); }
    }
  }

  function TaskOf(m: Message): set<TaskId> {
    if m.task.Some? then {m.task.value} else {}
  }

  lemma NewMessageKeeps(cfg: Config, s: State, m: nat, msg: Message, hs: Histories, hs': Histories, k: nat)
    requires Core(cfg, s, hs, k) && m !in s.messages && msg.delivered == 0
    requires msg.task.Some? ==> msg.task.value in s.unpublished
    requires forall t: TaskId :: hs'(t) == if msg.task == Some(t) then Extend(hs(t), EvPublished(t), t) else hs(t)
    ensures Core(cfg, s.(messages := s.messages[m := msg], unpublished := s.unpublished - TaskOf(msg)), hs', k)
  {
    var s' := s.(messages := s.messages[m := msg], unpublished := s.unpublished - TaskOf(msg));
    assert RowsOk(s', hs') by {
      forall u: TaskId ensures RowOk(s', hs'(u), u) { assert RowOk(s, hs(u), u); }
    }
    assert MessagesOk(cfg, s') by {
      assert forall n :: n in s.messages ==> MessageOk(cfg, s, s.messages[n]);
    }
    assert DeliveriesOk(cfg, s', hs', k) by {
      forall u: TaskId, d | d in hs'(u).deliveries
        ensures DeliveryOk(cfg, s', d, u) { assert DeliveryOk(cfg, s, d, u); assert RowOk(s, hs(u), u); }
    }
    assert WorkersOk(s', hs') by {
      forall w | w in s.workers ensures PhaseOk(s', hs', s.workers[w]) { assert PhaseOk(s, hs, s.workers[w]); }
    }
  }

  /** Counters and flags of a message move; what it carries does not. */
  lemma MessageMarkKeeps(cfg: Config, s: State, m: nat, delivered: nat, acked: bool, hs: Histories, k: nat)
    requires Core(cfg, s, hs, k) && m in s.messages && s.messages[m].delivered <= delivered <= cfg.maxDeliver
    ensures Core(cfg, s.(messages := s.messages[m := s.messages[m].(delivered := delivered, acked := acked)]), hs, k)
  {
    var s' := s.(messages := s.messages[m := s.messages[m].(delivered := delivered, acked := acked)]);
    assert RowsOk(s', hs) by {
      forall u: TaskId ensures RowOk(s', hs(u), u) { assert RowOk(s, hs(u), u); }
    }
    assert MessagesOk(cfg, s');
  }

  lemma FetchWorkers(cfg: Config, s: State, s': State, w: nat, m: nat, n: nat, hs: Histories, k: nat)
    requires WorkersOk(s, hs) && DeliveriesOk(cfg, s, hs, k) && w in s.workers && m in s.messages
    requires n == s.messages[m].delivered + 1
    requires s'.table == s.table && s'.messages == s.messages[m := s.messages[m].(delivered := n)]
    requires s'.workers == s.workers[w := Fetched(m, n)]
    ensures WorkersOk(s', hs)
  {
    if s.messages[m].task.Some? {
      assert !DeliveryOk(cfg, s, n, s.messages[m].task.value);
    }
    forall v | v in s.workers && v != w
      ensures PhaseOk(s', hs, s.workers[v]) && Apart(s.workers[v], Fetched(m, n)) && Apart(Fetched(m, n), s.workers[v])
    {
      assert PhaseOk(s, hs, s.workers[v]);
    }
  }

  lemma FetchKeeps(cfg: Config, s: State, w: nat, m: nat, hs: Histories, k: nat)
    requires Core(cfg, s, hs, k) && w in s.workers && m in s.messages && s.messages[m].delivered < cfg.maxDeliver
    ensures Core(cfg, FetchStep(s, w, m), hs, k)
  {
    var n := s.messages[m].delivered + 1;
    var s' := FetchStep(s, w, m);
    MessageMarkKeeps(cfg, s, m, n, s.messages[m].acked, hs, k);
    FetchWorkers(cfg, s, s', w, m, n, hs, k);
    assert RowsOk(s', hs);
  }

  lemma PhaseKeeps(cfg: Config, s: State, w: nat, p: Phase, hs: Histories, k: nat)
    requires Core(cfg, s, hs, k) && w in s.workers
    requires PhaseOk(s, hs, p) && CallbackOpen(s, p)
    requires forall v :: v in s.workers && v != w ==> Apart(s.workers[v], p) && Apart(p, s.workers[v])
    ensures Core(cfg, WithPhase(s, w, p), hs, k)
  {
    var s' := WithPhase(s, w, p);
    assert RowsOk(s', hs) by {
      forall u: TaskId ensures RowOk(s', hs(u), u) { assert RowOk(s, hs(u), u); }
    }
  }

  predicate Rewrites(s: State, t: TaskId, row: T.Row) {
    && t in s.table && row.execution == s.table[t].execution && row.attempt == s.table[t].attempt
    && row.leaseOwner == s.table[t].leaseOwner && StatusConsistent(row)
    && (row.callbackStatus == T.CbFailed ==> T.IsTerminal(row.execution))
  }

  lemma RewrittenRows(s: State, s': State, t: TaskId, row: T.Row, hs: Histories)
    requires RowsOk(s, hs) && Rewrites(s, t, row) && s'.table == s.table[t := row] && s'.unpublished == s.unpublished
    ensures RowsOk(s', hs)
  {
    forall u: TaskId ensures RowOk(s', hs(u), u) { assert RowOk(s, hs(u), u); }
  }

  lemma RewrittenWorkers(s: State, s': State, t: TaskId, row: T.Row, hs: Histories)
    requires WorkersOk(s, hs) && Rewrites(s, t, row)
    requires s'.table == s.table[t := row] && s'.workers == s.workers && s'.messages == s.messages
    requires row.callbackStatus == T.CbFailed ==>
      || s.table[t].callbackStatus == T.CbFailed
      || forall w :: w in s.workers && s.workers[w].Committed? ==> s.workers[w].task != t
    ensures WorkersOk(s', hs)
  {
    forall w | w in s'.workers ensures PhaseOk(s', hs, s'.workers[w]) && CallbackOpen(s', s'.workers[w]) {
      assert PhaseOk(s, hs, s.workers[w]) && CallbackOpen(s, s.workers[w]);
    }
  }

  /** Rewriting bookkeeping columns of a row, or its callback status, keeps the outcome. */
  lemma RowRewriteKeeps(cfg: Config, s: State, t: TaskId, row: T.Row, hs: Histories, k: nat)
    requires Core(cfg, s, hs, k) && Rewrites(s, t, row)
    requires row.callbackStatus == T.CbFailed ==>
      || s.table[t].callbackStatus == T.CbFailed
      || forall w :: w in s.workers && s.workers[w].Committed? ==> s.workers[w].task != t
    ensures Core(cfg, s.(table := s.table[t := row]), hs, k)
  {
    var s' := s.(table := s.table[t := row]);
    RewrittenRows(s, s', t, row, hs);
    RewrittenWorkers(s, s', t, row, hs);
  }

  /** The row a claim or a commit writes, for the history with that event added. */
  lemma RowEventKeeps(s: State, s': State, t: TaskId, row: T.Row, e: Event, hs: Histories, hs': Histories)
    requires RowsOk(s, hs) && t in s.table && t !in s.unpublished
    requires s'.table == s.table[t := row] && s'.unpublished == s.unpublished
    requires e.EvClaimed? || e.EvCommitted?
    requires e.task == t && RowMatches(row, Extend(hs(t), e, t))
    requires forall u: TaskId :: hs'(u) == Extend(hs(u), e, u)
    ensures RowsOk(s', hs')
  {
    forall u: TaskId ensures RowOk(s', hs'(u), u) { assert RowOk(s, hs(u), u); }
  }

  lemma CommitWorkers(s: State, s': State, t: TaskId, row: T.Row, hs: Histories, hs': Histories)
    requires WorkersOk(s, hs) && t in s.table && !T.IsTerminal(s.table[t].execution)
    requires row.callbackStatus == s.table[t].callbackStatus
    requires s'.table == s.table[t := row] && s'.messages == s.messages && s'.workers == s.workers
    requires forall u: TaskId :: hs'(u).claims == hs(u).claims && hs'(u).deliveries == hs(u).deliveries
    ensures WorkersOk(s', hs')
    ensures forall w :: w in s.workers && s.workers[w].Committed? ==> s.workers[w].task != t
  {
    forall w | w in s.workers ensures PhaseOk(s', hs', s.workers[w]) { assert PhaseOk(s, hs, s.workers[w]); }
  }

  lemma CommitKeeps(
    cfg: Config, s: State, s': State, t: TaskId, o: Owner, row: T.Row, hs: Histories, hs': Histories, k: nat)
    requires Core(cfg, s, hs, k) && t in s.table && t !in s.unpublished && s.table[t].leaseOwner == Some(o)
    requires row.execution == T.Success || row.execution == T.Failed
    requires row == s.table[t].(
      status := row.execution, execution := row.execution, result := row.result, leaseOwner := None,
      leaseExpiresAt := None, heartbeatAt := row.heartbeatAt, updatedAt := row.updatedAt)
    requires forall u: TaskId :: hs'(u) == Extend(hs(u), EvCommitted(t, o, row.execution), u)
    requires s' == s.(table := s.table[t := row])
    ensures Core(cfg, s', hs', k)
    ensures forall w :: w in s.workers && s.workers[w].Committed? ==> s.workers[w].task != t
  {
    assert RowOk(s, hs(t), t);
    RowEventKeeps(s, s', t, row, EvCommitted(t, o, row.execution), hs, hs');
    CommitWorkers(s, s', t, row, hs, hs');
    assert DeliveriesOk(cfg, s', hs', k) by {
      forall u: TaskId, d | d in hs'(u).deliveries
        ensures DeliveryOk(cfg, s', d, u) { assert DeliveryOk(cfg, s, d, u); }
    }
  }

  lemma ClaimDeliveries(
    cfg: Config, s: State, s': State, t: TaskId, o: Owner, m: nat, d: nat, hs: Histories, hs': Histories, k: nat)
    requires DeliveriesOk(cfg, s, hs, k) && MessagesOk(cfg, s) && s'.messages == s.messages
    requires m in s.messages && s.messages[m].task == Some(t) && 1 <= d <= s.messages[m].delivered
    requires d !in hs(t).deliveries
    requires forall u: TaskId :: hs'(u) == Extend(hs(u), EvClaimed(t, o, d), u)
    ensures DeliveriesOk(cfg, s', hs', k)
  {
    assert MessageOk(cfg, s, s.messages[m]);
    forall u: TaskId, i | i in hs'(u).deliveries
      ensures DeliveryOk(cfg, s', i, u)
    {
      if i in hs(u).deliveries {
        assert DeliveryOk(cfg, s, i, u);
      }
    }
  }

  lemma ClaimWorkers(s: State, s': State, w: nat, t: TaskId, q: Phase, row: T.Row, hs: Histories, hs': Histories)
    requires WorkersOk(s, hs) && w in s.workers && s.workers[w].Fetched? && s.workers[w].msg in s.messages
    requires t in s.table && s.messages[s.workers[w].msg].task == Some(t) && !T.IsTerminal(s.table[t].execution)
    requires forall m :: m in s.messages && s.messages[m].task == Some(t) ==> m == s.workers[w].msg
    requires q.Executing? && q.msg == s.workers[w].msg && q.delivery == s.workers[w].delivery && q.task == t
    requires row.callbackStatus == s.table[t].callbackStatus
    requires s'.table == s.table[t := row] && s'.messages == s.messages && s'.workers == s.workers[w := q]
    requires forall u: TaskId :: hs'(u) == Extend(hs(u), EvClaimed(t, q.owner, q.delivery), u)
    ensures WorkersOk(s', hs')
  {
    assert hs'(t).claims == hs(t).claims + [q.owner];
    forall v | v in s.workers && v != w
      ensures PhaseOk(s', hs', s.workers[v])
    {
      assert PhaseOk(s, hs, s.workers[v]) && Apart(s.workers[v], s.workers[w]);
    }
    assert PhaseOk(s, hs, s.workers[w]);
  }

  lemma ClaimKeeps(
    cfg: Config, s: State, s': State, w: nat, t: TaskId, q: Phase, row: T.Row, hs: Histories, hs': Histories, k: nat)
    requires Core(cfg, s, hs, k) && w in s.workers && s.workers[w].Fetched? && s.workers[w].msg in s.messages
    requires s.messages[s.workers[w].msg].task == Some(t) && t in s.table && !T.IsTerminal(s.table[t].execution)
    requires q.Executing? && q.msg == s.workers[w].msg && q.delivery == s.workers[w].delivery && q.task == t
    requires row == s.table[t].(
      status := T.Running, execution := T.Running, leaseOwner := Some(q.owner), leaseExpiresAt := row.leaseExpiresAt,
      heartbeatAt := row.heartbeatAt, attempt := s.table[t].attempt + 1, updatedAt := row.updatedAt)
    requires forall u: TaskId :: hs'(u) == Extend(hs(u), EvClaimed(t, q.owner, q.delivery), u)
    requires s' == WithPhase(s, w, q).(table := s.table[t := row])
    ensures Core(cfg, s', hs', k)
  {
    var p := s.workers[w];
    assert PhaseOk(s, hs, p) && RowOk(s, hs(t), t) && MessageOk(cfg, s, s.messages[p.msg]);
    RowEventKeeps(s, s', t, row, EvClaimed(t, q.owner, q.delivery), hs, hs');
    ClaimDeliveries(cfg, s, s', t, q.owner, p.msg, p.delivery, hs, hs', k);
    ClaimWorkers(s, s', w, t, q, row, hs, hs');
  }

  lemma NewRetryKeeps(cfg: Config, s: State, r: nat, m: RetryMessage, hs: Histories, k: nat)
    requires Core(cfg, s, hs, k) && OutcomeOk(s, m.task, m.payload)
    ensures Core(cfg, s.(retries := s.retries[r := m]), hs, k)
  {
    var s' := s.(retries := s.retries[r := m]);
    assert RowsOk(s', hs) by {
      forall u: TaskId ensures RowOk(s', hs(u), u) { assert RowOk(s, hs(u), u); }
    }
  }

  lemma {:induction false} RangeBoundsSize(s: set<nat>, n: nat)
    requires forall d :: d in s ==> 1 <= d <= n
    ensures |s| <= n
  {
    if n == 0 {
      assert s == {};
    } else {
      RangeBoundsSize(s - {n}, n - 1);
    }
  }

  lemma ClaimsBounded(cfg: Config, s: State, hs: Histories, k: nat, t: TaskId)
    requires DeliveriesOk(cfg, s, hs, k)
    ensures |hs(t).claims| <= cfg.maxDeliver * (k + 1)
  {
    forall d | d in hs(t).deliveries ensures 1 <= d <= cfg.maxDeliver { assert DeliveryOk(cfg, s, d, t); }
    RangeBoundsSize(hs(t).deliveries, cfg.maxDeliver);
    assert cfg.maxDeliver * (k + 1) == cfg.maxDeliver * k + cfg.maxDeliver;
  }

  lemma RestartKeeps(cfg: Config, s: State, hs: Histories, hs': Histories, k: nat)
    requires Core(cfg, s, hs, k)
    requires forall u: TaskId :: hs'(u) == Extend(hs(u), EvRestarted, u)
    ensures Core(cfg, RestartStep(s), hs', k + 1)
  {
    var s' := RestartStep(s);
    assert RowsOk(s', hs') by {
      forall u: TaskId ensures RowOk(s', hs'(u), u) { assert RowOk(s, hs(u), u); }
    }
    forall t: TaskId
      ensures |hs'(t).claims| <= cfg.maxDeliver * (k + 1)
    {
      ClaimsBounded(cfg, s, hs, k, t);
    }
  }

  // ---- The invariant over the log ----

  function Hist(log: Log): Histories {
    t => HistoryOf(log, t)
  }

  lemma HistAfter(log: Log, e: Event)
    ensures forall t: TaskId :: Hist(log + [e])(t) == Extend(Hist(log)(t), e, t)
    ensures Restarts(log + [e]) == Restarts(log) + (if e.EvRestarted? then 1 else 0)
  {
    assert (log + [e])[..|log|] == log;
  }

  /** An acknowledgement is explained by an earlier commit of the message's task or an earlier dead letter for the
      message; on the retry queue, by an earlier delivery of the callback or an earlier dead letter. */
  predicate Explains(e: Event, ack: Event) {
    match ack
    case EvAcked(m, carried) => e == EvDeadLetter(m) || (e.EvCommitted? && carried == Some(e.task))
    case EvRetryAcked(r) => e == EvRetryDelivered(r) || e == EvRetryDeadLetter(r)
    case _ => true
  }

  predicate Explained(log: Log, i: nat)
    requires i < |log|
  {
    exists j :: 0 <= j < i && Explains(log[j], log[i])
  }

  predicate IsAck(e: Event) {
    e.EvAcked? || e.EvRetryAcked?
  }

  predicate AcksExplained(log: Log) {
    forall i :: 0 <= i < |log| && IsAck(log[i]) ==> Explained(log, i)
  }

  predicate LogOk(s: State) {
    && AcksExplained(s.log)
    && (forall w :: w in s.workers && s.workers[w].DeadLettered? ==> EvDeadLetter(s.workers[w].msg) in s.log)
    && (s.retryLoop.Delivered? ==> EvRetryDelivered(s.retryLoop.retry) in s.log)
    && (s.retryLoop.Dropped? ==> EvRetryDeadLetter(s.retryLoop.retry) in s.log)
    && (forall m :: m in s.messages && s.messages[m].acked ==> EvAcked(m, s.messages[m].task) in s.log)
    && (forall r :: r in s.retries && s.retries[r].acked ==> EvRetryAcked(r) in s.log)
  }

  ghost predicate Inv(cfg: Config, s: State) {
    Core(cfg, s, Hist(s.log), Restarts(s.log)) && LogOk(s)
  }

  lemma InitHolds(cfg: Config, s: State)
    requires Init(s)
    ensures Inv(cfg, s)
  {
  }

  lemma QuietEvent(cfg: Config, s: State, e: Event)
    requires Core(cfg, s, Hist(s.log), Restarts(s.log))
    requires !e.EvPublished? && !e.EvClaimed? && !e.EvCommitted? && !e.EvRestarted?
    ensures Core(cfg, Logged(s, e), Hist(s.log + [e]), Restarts(s.log + [e]))
  {
    HistAfter(s.log, e);
    SameHistoriesKeep(cfg, s, Hist(s.log), Hist(s.log + [e]), Restarts(s.log));
    QuietKeeps(cfg, s, Logged(s, e), Hist(s.log + [e]), Restarts(s.log));
  }

  lemma SubmissionSteps(cfg: Config, s: State, step: Step)
    requires Inv(cfg, s) && Enabled(cfg, s, step)
    requires step.Submit? || step.Publish? || step.PublishLost? || step.Inject?
    ensures Core(cfg, Apply(cfg, s, step), Hist(Apply(cfg, s, step).log), Restarts(Apply(cfg, s, step).log))
  {
    var hs, k := Hist(s.log), Restarts(s.log);
    match step
    case Submit(t, payload, callback) =>
      if t !in s.table {
        SubmitKeeps(cfg, s, t, T.NewRow(T.Queued, payload, callback, Stamp(s)), hs, k);
      }
    case Publish(t, m) =>
      var e := EvPublished(t);
      var s1 := Apply(cfg, s, step).(log := s.log);
      HistAfter(s.log, e);
      NewMessageKeeps(cfg, s, m, Message(Some(t), s.table[t].callback, 0, false), hs, Hist(s.log + [e]), k);
      QuietKeeps(cfg, s1, Logged(s1, e), Hist(s.log + [e]), k);
    case PublishLost(t) =>
      UnqueueKeeps(cfg, s, {t}, hs, k);
    case Inject(m) =>
      assert s.unpublished - {} == s.unpublished;
      NewMessageKeeps(cfg, s, m, Message(None, None, 0, false), hs, hs, k);
  }

  lemma RephaseKeeps(cfg: Config, s: State, w: nat, p: Phase, hs: Histories, k: nat)
    requires Core(cfg, s, hs, k) && w in s.workers && !p.Fetched? && !p.Committed? && PhaseOk(s, hs, p)
    ensures Core(cfg, WithPhase(s, w, p), hs, k)
  {
    PhaseKeeps(cfg, s, w, p, hs, k);
  }

  lemma ClaimIsHandle(s: State, w: nat, p: Phase, o: Owner, leaseBase: Instant, expires: Instant, t: TaskId, s1: State)
    requires p.Fetched? && TaskFor(s, p) && s.messages[p.msg].task.value == t && HandlingOf(s, p, o) == Claim
    requires s1 == WithPhase(s, w, Executing(p.msg, p.delivery, t, o, leaseBase)).(
      table := s.table[t := T.ClaimedRow(s.table[t], o, Iso(expires), Stamp(s))])
    ensures Logged(s1, EvClaimed(t, o, p.delivery)) == HandleStep(s, w, p, o, leaseBase, expires)
  {
  }

  lemma ClaimStep(cfg: Config, s: State, w: nat, o: Owner, leaseBase: Instant, expires: Instant)
    requires Inv(cfg, s) && w in s.workers && HandleEnabled(cfg, s, s.workers[w], o, leaseBase, expires)
    requires HandlingOf(s, s.workers[w], o) == Claim
    ensures var s' := HandleStep(s, w, s.workers[w], o, leaseBase, expires);
      Core(cfg, s', Hist(s'.log), Restarts(s'.log))
  {
    var k, p := Restarts(s.log), s.workers[w];
    var t := s.messages[p.msg].task.value;
    var e := EvClaimed(t, o, p.delivery);
    var hs' := Hist(s.log + [e]);
    HistAfter(s.log, e);
    var row := T.ClaimedRow(s.table[t], o, Iso(expires), Stamp(s));
    var q := Executing(p.msg, p.delivery, t, o, leaseBase);
    var s1 := WithPhase(s, w, q).(table := s.table[t := row]);
    ClaimKeeps(cfg, s, s1, w, t, q, row, Hist(s.log), hs', k);
    QuietKeeps(cfg, s1, Logged(s1, e), hs', k);
    ClaimIsHandle(s, w, p, o, leaseBase, expires, t, s1);
  }

  lemma AcknowledgedIsSettled(s: State, p: Phase, o: Owner, h: History, t: TaskId)
    requires TaskFor(s, p) && s.messages[p.msg].task.value == t && RowOk(s, h, t) && HandlingOf(s, p, o) == Acknowledge
    ensures Settled(s, t)
  {
  }

  lemma AcknowledgeKeeps(cfg: Config, s: State, w: nat, p: Phase, o: Owner, hs: Histories, k: nat)
    requires Core(cfg, s, hs, k) && w in s.workers && s.workers[w] == p && p.Fetched? && TaskFor(s, p)
    requires HandlingOf(s, p, o) == Acknowledge
    ensures Core(cfg, WithPhase(s, w, Acking(p.msg, p.delivery)), hs, k)
  {
    var t := s.messages[p.msg].task.value;
    assert PhaseOk(s, hs, p) && RowOk(s, hs(t), t);
    AcknowledgedIsSettled(s, p, o, hs(t), t);
    RephaseKeeps(cfg, s, w, Acking(p.msg, p.delivery), hs, k);
  }

  lemma HandleKeeps(cfg: Config, s: State, w: nat, o: Owner, leaseBase: Instant, expires: Instant)
    requires Inv(cfg, s) && w in s.workers && HandleEnabled(cfg, s, s.workers[w], o, leaseBase, expires)
    ensures var s' := HandleStep(s, w, s.workers[w], o, leaseBase, expires);
      Core(cfg, s', Hist(s'.log), Restarts(s'.log))
  {
    var hs, k, p := Hist(s.log), Restarts(s.log), s.workers[w];
    match HandlingOf(s, p, o)
    case Acknowledge => AcknowledgeKeeps(cfg, s, w, p, o, hs, k);
    case Skip => RephaseKeeps(cfg, s, w, Idle, hs, k);
    case Claim => ClaimStep(cfg, s, w, o, leaseBase, expires);
  }

  lemma HeartbeatKeeps(cfg: Config, s: State, s': State, step: Step)
    requires Inv(cfg, s) && Enabled(cfg, s, step) && step.Heartbeat? && s' == Apply(cfg, s, step)
    ensures Core(cfg, s', Hist(s.log), Restarts(s.log))
  {
    var hs, k, p := Hist(s.log), Restarts(s.log), s.workers[step.worker];
    assert PhaseOk(s, hs, p);
    if T.CanRenew(s.table, p.task, p.owner) {
      assert RowOk(s, hs(p.task), p.task);
      var row := s.table[p.task].(
        leaseExpiresAt := Some(Iso(step.expires)), heartbeatAt := Some(Stamp(s)), updatedAt := Stamp(s));
      var s1 := s.(table := s.table[p.task := row]);
      RowRewriteKeeps(cfg, s, p.task, row, hs, k);
      RephaseKeeps(cfg, s1, step.worker, p.(leaseBase := s.now), hs, k);
    }
  }

  lemma CommitStep(cfg: Config, s: State, s': State, w: nat, p: Phase, q: Phase, hs: Histories, hs': Histories, k: nat)
    requires Core(cfg, s, hs, k) && w in s.workers && s.workers[w] == p && p.Executing? && q.Committed?
    requires q.msg == p.msg && q.delivery == p.delivery && q.task == p.task == q.result.taskId
    requires T.CanCommit(s.table, p.task, Some(p.owner))
    requires exists now :: s' == WithPhase(s, w, q).(
      table := T.Committed(s.table, p.task, Outcome(q.result.success), q.result, now, Some(p.owner)), log := s'.log)
    requires forall u: TaskId :: hs'(u) == Extend(hs(u), EvCommitted(p.task, p.owner, Outcome(q.result.success)), u)
    ensures Core(cfg, s', hs', k)
  {
    var t := p.task;
    assert PhaseOk(s, hs, p) && MessageOk(cfg, s, s.messages[p.msg]) && RowOk(s, hs(t), t);
    var s1 := s.(table := s'.table);
    CommitKeeps(cfg, s, s1, t, p.owner, s'.table[t], hs, hs', k);
    CommittedPhaseKeeps(cfg, s1, w, q, hs', k);
    QuietKeeps(cfg, WithPhase(s1, w, q), s', hs', k);
  }

  lemma FinishKeeps(cfg: Config, s: State, s': State, step: Step)
    requires Inv(cfg, s) && Enabled(cfg, s, step) && step.Finish? && s' == Apply(cfg, s, step)
    ensures Core(cfg, s', Hist(s'.log), Restarts(s'.log))
  {
    var hs, k, w := Hist(s.log), Restarts(s.log), step.worker;
    var p := s.workers[w];
    if T.CanCommit(s.table, p.task, Some(p.owner)) {
      var e := EvCommitted(p.task, p.owner, Outcome(step.result.success));
      HistAfter(s.log, e);
      CommitStep(cfg, s, s', w, p, s'.workers[w], hs, Hist(s.log + [e]), k);
    } else {
      assert PhaseOk(s, hs, p);
      RephaseKeeps(cfg, s, w, Raised(p.msg, p.delivery), hs, k);
    }
  }

  lemma CommittedPhaseKeeps(cfg: Config, s: State, w: nat, p: Phase, hs: Histories, k: nat)
    requires Core(cfg, s, hs, k) && w in s.workers && p.Committed? && PhaseOk(s, hs, p) && CallbackOpen(s, p)
    requires forall v :: v in s.workers && s.workers[v].Committed? ==> s.workers[v].task != p.task
    ensures Core(cfg, WithPhase(s, w, p), hs, k)
  {
    PhaseKeeps(cfg, s, w, p, hs, k);
  }

  lemma CallbackKeeps(cfg: Config, s: State, s': State, step: Step)
    requires Inv(cfg, s) && Enabled(cfg, s, step) && step.CallbackDone? && s' == Apply(cfg, s, step)
    ensures Core(cfg, s', Hist(s.log), Restarts(s.log))
  {
    var hs, k, w := Hist(s.log), Restarts(s.log), step.worker;
    var p := s.workers[w];
    assert PhaseOk(s, hs, p) && CallbackOpen(s, p) && RowOk(s, hs(p.task), p.task);
    var q := s'.workers[w];
    RephaseKeeps(cfg, s, w, q, hs, k);
    var s1 := WithPhase(s, w, q);
    forall v | v in s1.workers && s1.workers[v].Committed?
      ensures s1.workers[v].task != p.task
    {
      assert Apart(s.workers[v], s.workers[w]);
    }
    RowRewriteKeeps(cfg, s1, p.task, s'.table[p.task], hs, k);
  }

  lemma PublishRetryKeeps(cfg: Config, s: State, s': State, step: Step)
    requires Inv(cfg, s) && Enabled(cfg, s, step) && step.PublishRetry? && s' == Apply(cfg, s, step)
    ensures Core(cfg, s', Hist(s.log), Restarts(s.log))
  {
    var hs, k, w := Hist(s.log), Restarts(s.log), step.worker;
    var p := s.workers[w];
    assert PhaseOk(s, hs, p);
    RephaseKeeps(cfg, s, w, Acking(p.msg, p.delivery), hs, k);
    NewRetryKeeps(cfg, WithPhase(s, w, Acking(p.msg, p.delivery)), step.retry, s'.retries[step.retry], hs, k);
  }

  lemma LeaveKeeps(cfg: Config, s: State, s': State, step: Step)
    requires Inv(cfg, s) && Enabled(cfg, s, step) && s' == Apply(cfg, s, step)
    requires step.Raise? || step.Nak? || step.Crash?
    ensures Core(cfg, s', Hist(s'.log), Restarts(s'.log))
  {
    var hs, k, w := Hist(s.log), Restarts(s.log), step.worker;
    assert PhaseOk(s, hs, s.workers[w]);
    RephaseKeeps(cfg, s, w, s'.workers[w], hs, k);
  }

  lemma GiveUpKeeps(cfg: Config, s: State, s': State, w: nat)
    requires Inv(cfg, s) && w in s.workers && s.workers[w].Raised?
    requires s' == WithPhase(s, w, DeadLettered(s.workers[w].msg))
    ensures Core(cfg, Logged(s', EvDeadLetter(s.workers[w].msg)), Hist(s'.log + [EvDeadLetter(s.workers[w].msg)]),
                 Restarts(s'.log + [EvDeadLetter(s.workers[w].msg)]))
  {
    var hs, k, p := Hist(s.log), Restarts(s.log), s.workers[w];
    assert PhaseOk(s, hs, p);
    RephaseKeeps(cfg, s, w, DeadLettered(p.msg), hs, k);
    QuietEvent(cfg, s', EvDeadLetter(p.msg));
  }

  lemma AckKeeps(cfg: Config, s: State, s1: State, s2: State, w: nat, p: Phase, e: Event)
    requires Inv(cfg, s) && w in s.workers && p == s.workers[w] && (p.Acking? || p.DeadLettered?) && p.msg in s.messages
    requires s1 == WithPhase(s, w, Idle) && e == EvAcked(p.msg, s.messages[p.msg].task)
    requires s2 == s1.(messages := s.messages[p.msg := s.messages[p.msg].(acked := true)])
    ensures Core(cfg, Logged(s2, e), Hist(s2.log + [e]), Restarts(s2.log + [e]))
  {
    var hs, k := Hist(s.log), Restarts(s.log);
    assert PhaseOk(s, hs, p);
    RephaseKeeps(cfg, s, w, Idle, hs, k);
    assert MessageOk(cfg, s, s.messages[p.msg]);
    MessageMarkKeeps(cfg, s1, p.msg, s.messages[p.msg].delivered, true, hs, k);
    QuietEvent(cfg, s2, e);
  }

  lemma EndSteps(cfg: Config, s: State, s': State, step: Step)
    requires Inv(cfg, s) && Enabled(cfg, s, step) && s' == Apply(cfg, s, step) && (step.GiveUp? || step.Ack?)
    ensures Core(cfg, s', Hist(s'.log), Restarts(s'.log))
  {
    var p := s.workers[step.worker];
    if step.GiveUp? {
      GiveUpKeeps(cfg, s, WithPhase(s, step.worker, DeadLettered(p.msg)), step.worker);
    } else {
      var s1 := WithPhase(s, step.worker, Idle);
      AckKeeps(cfg, s, s1, s1.(messages := s'.messages), step.worker, p, EvAcked(p.msg, s.messages[p.msg].task));
    }
  }

  lemma RetryLoopKeeps(cfg: Config, s: State, s': State, step: Step)
    requires Inv(cfg, s) && Enabled(cfg, s, step) && s' == Apply(cfg, s, step)
    requires step.RetryFetch? || step.RetryRaise? || step.RetryNak? || step.RetryStop?
    ensures Core(cfg, s', Hist(s'.log), Restarts(s'.log))
  {
    var hs, k := Hist(s.log), Restarts(s.log);
    var s1 := s.(retryLoop := s'.retryLoop);
    QuietKeeps(cfg, s, s1, hs, k);
    if step.RetryFetch? {
      NewRetryKeeps(cfg, s1, step.retry, s'.retries[step.retry], hs, k);
    }
  }

  lemma RetryGiveUpKeeps(cfg: Config, s: State, s': State, r: nat)
    requires Inv(cfg, s) && s' == s.(retryLoop := Dropped(r))
    ensures Core(cfg, Logged(s', EvRetryDeadLetter(r)), Hist(s'.log + [EvRetryDeadLetter(r)]),
                 Restarts(s'.log + [EvRetryDeadLetter(r)]))
  {
    QuietKeeps(cfg, s, s', Hist(s.log), Restarts(s.log));
    QuietEvent(cfg, s', EvRetryDeadLetter(r));
  }

  lemma RetryAckKeeps(cfg: Config, s: State, s1: State, s2: State, r: nat)
    requires Inv(cfg, s) && r in s.retries && s1 == s.(retryLoop := Waiting)
    requires s2 == s1.(retries := s.retries[r := s.retries[r].(acked := true)])
    ensures Core(cfg, Logged(s2, EvRetryAcked(r)), Hist(s2.log + [EvRetryAcked(r)]),
      Restarts(s2.log + [EvRetryAcked(r)]))
  {
    var hs, k := Hist(s.log), Restarts(s.log);
    QuietKeeps(cfg, s, s1, hs, k);
    assert OutcomeOk(s, s.retries[r].task, s.retries[r].payload);
    NewRetryKeeps(cfg, s1, r, s2.retries[r], hs, k);
    QuietEvent(cfg, s2, EvRetryAcked(r));
  }

  lemma RetryDoneKeeps(cfg: Config, s: State, s': State, step: Step)
    requires Inv(cfg, s) && Enabled(cfg, s, step) && s' == Apply(cfg, s, step)
    requires step.RetryGiveUp? || step.RetryAck?
    ensures Core(cfg, s', Hist(s'.log), Restarts(s'.log))
  {
    var r := s.retryLoop.retry;
    if step.RetryGiveUp? {
      RetryGiveUpKeeps(cfg, s, s.(retryLoop := Dropped(r)), r);
    } else {
      var s1 := s.(retryLoop := Waiting);
      RetryAckKeeps(cfg, s, s1, s1.(retries := s'.retries), r);
    }
  }

  lemma RetryDeliverKeeps(cfg: Config, s: State, s': State)
    requires Inv(cfg, s) && Enabled(cfg, s, RetryDeliver) && s' == Apply(cfg, s, RetryDeliver)
    ensures Core(cfg, s', Hist(s'.log), Restarts(s'.log))
  {
    var hs, k, m := Hist(s.log), Restarts(s.log), s.retries[s.retryLoop.retry];
    assert OutcomeOk(s, m.task, m.payload) && RowOk(s, hs(m.task), m.task);
    RowRewriteKeeps(cfg, s, m.task, s'.table[m.task], hs, k);
    var s1 := s.(table := s'.table);
    QuietKeeps(cfg, s1, s1.(retryLoop := s'.retryLoop), hs, k);
    QuietEvent(cfg, s1.(retryLoop := s'.retryLoop), EvRetryDelivered(s.retryLoop.retry));
  }

  lemma DeliverySteps(cfg: Config, s: State, s': State, step: Step)
    requires Inv(cfg, s) && Enabled(cfg, s, step) && s' == Apply(cfg, s, step)
    requires step.Fetch? || step.Handle? || step.Tick?
    ensures Core(cfg, s', Hist(s'.log), Restarts(s'.log))
  {
    match step
    case Tick(_) => QuietKeeps(cfg, s, s', Hist(s.log), Restarts(s.log));
    case Fetch(w, m) => FetchKeeps(cfg, s, w, m, Hist(s.log), Restarts(s.log));
    case Handle(w, o, leaseBase, expires) => HandleKeeps(cfg, s, w, o, leaseBase, expires);
  }

  lemma ExecutionSteps(cfg: Config, s: State, s': State, step: Step)
    requires Inv(cfg, s) && Enabled(cfg, s, step) && s' == Apply(cfg, s, step) && (step.Heartbeat? || step.Finish?)
    ensures Core(cfg, s', Hist(s'.log), Restarts(s'.log))
  {
    if step.Heartbeat? {
      HeartbeatKeeps(cfg, s, s', step);
    } else {
      FinishKeeps(cfg, s, s', step);
    }
  }

  lemma CallbackSteps(cfg: Config, s: State, s': State, step: Step)
    requires Inv(cfg, s) && Enabled(cfg, s, step) && s' == Apply(cfg, s, step)
    requires (step.CallbackDone? || step.PublishRetry?)
    ensures Core(cfg, s', Hist(s'.log), Restarts(s'.log))
  {
    if step.CallbackDone? {
      CallbackKeeps(cfg, s, s', step);
    } else {
      PublishRetryKeeps(cfg, s, s', step);
    }
  }

  lemma RestartCore(cfg: Config, s: State, s': State)
    requires Inv(cfg, s) && s' == RestartStep(s)
    ensures Core(cfg, s', Hist(s'.log), Restarts(s'.log))
  {
    HistAfter(s.log, EvRestarted);
    RestartKeeps(cfg, s, Hist(s.log), Hist(s'.log), Restarts(s.log));
  }

  lemma StepKeepsCore(cfg: Config, s: State, s': State, step: Step)
    requires Inv(cfg, s) && Enabled(cfg, s, step) && s' == Apply(cfg, s, step)
    ensures Core(cfg, s', Hist(s'.log), Restarts(s'.log))
  {
    if step.Submit? || step.Publish? || step.PublishLost? || step.Inject? {
      SubmissionSteps(cfg, s, step);
    } else if step.Raise? || step.Nak? || step.Crash? {
      LeaveKeeps(cfg, s, s', step);
    } else if step.GiveUp? || step.Ack? {
      EndSteps(cfg, s, s', step);
    } else if step.RetryFetch? || step.RetryRaise? || step.RetryNak? || step.RetryStop? {
      RetryLoopKeeps(cfg, s, s', step);
    } else if step.RetryGiveUp? || step.RetryAck? {
      RetryDoneKeeps(cfg, s, s', step);
    } else if step.Restart? {
      RestartCore(cfg, s, s');
    } else if step.RetryDeliver? {
      RetryDeliverKeeps(cfg, s, s');
    } else if step.Tick? || step.Fetch? || step.Handle? {
      DeliverySteps(cfg, s, s', step);
    } else if step.Heartbeat? || step.Finish? {
      ExecutionSteps(cfg, s, s', step);
    } else {
      CallbackSteps(cfg, s, s', step);
    }
  }

  // ---- Acknowledgements stay explained ----

  lemma AcksStayExplained(log: Log, e: Event)
    requires AcksExplained(log)
    requires IsAck(e) ==> exists j :: 0 <= j < |log| && Explains(log[j], e)
    ensures AcksExplained(log + [e])
  {
    var after := log + [e];
    forall i | 0 <= i < |after| && IsAck(after[i])
      ensures Explained(after, i)
    {
      if i < |log| {
        assert Explained(log, i);
        var j :| 0 <= j < i && Explains(log[j], log[i]);
        assert Explains(after[j], after[i]);
      } else {
        var j :| 0 <= j < |log| && Explains(log[j], e);
        assert Explains(after[j], after[i]);
      }
    }
  }

  lemma {:induction false} CommitIsLogged(log: Log, t: TaskId) returns (j: nat)
    requires HistoryOf(log, t).commits != []
    ensures j < |log| && log[j].EvCommitted? && log[j].task == t
  {
    var e := log[|log| - 1];
    if e.EvCommitted? && e.task == t {
      j := |log| - 1;
    } else {
      j := CommitIsLogged(log[..|log| - 1], t);
    }
  }

  lemma AckHasCause(cfg: Config, s: State, step: Step) returns (j: nat)
    requires Inv(cfg, s) && Enabled(cfg, s, step) && step.Ack?
    ensures var m := s.workers[step.worker].msg; j < |s.log| && Explains(s.log[j], EvAcked(m, s.messages[m].task))
  {
    var p := s.workers[step.worker];
    assert PhaseOk(s, Hist(s.log), p);
    if p.Acking? {
      var t := s.messages[p.msg].task.value;
      assert RowOk(s, Hist(s.log)(t), t);
      j := CommitIsLogged(s.log, t);
    } else {
      j :| 0 <= j < |s.log| && s.log[j] == EvDeadLetter(p.msg);
    }
  }

  /** `log` is `before` or has one event more. */
  predicate LogNext(before: Log, log: Log) {
    log == before || (log != [] && log == before + [Last(log)])
  }

  lemma HandleLogs(s: State, w: nat, p: Phase, o: Owner, leaseBase: Instant, expires: Instant)
    requires p.Fetched? && TaskFor(s, p)
    ensures LogNext(s.log, HandleStep(s, w, p, o, leaseBase, expires).log)
    ensures var log := HandleStep(s, w, p, o, leaseBase, expires).log; log != s.log ==> Last(log).EvClaimed?
  {
  }

  lemma LogGrows(cfg: Config, s: State, s': State, step: Step)
    requires Enabled(cfg, s, step) && s' == Apply(cfg, s, step)
    ensures LogNext(s.log, s'.log)
  {
    if step.Handle? {
      HandleLogs(s, step.worker, s.workers[step.worker], step.owner, step.leaseBase, step.expires);
    } else {
      OtherLogs(cfg, s, s', step);
    }
  }

  lemma OtherLogs(cfg: Config, s: State, s': State, step: Step)
    requires Enabled(cfg, s, step) && s' == Apply(cfg, s, step) && !step.Handle?
    ensures LogNext(s.log, s'.log)
  {
  }

  lemma AckEvents(cfg: Config, s: State, s': State, step: Step)
    requires Enabled(cfg, s, step) && s' == Apply(cfg, s, step) && s'.log != s.log && s'.log != []
    ensures Last(s'.log).EvAcked? ==>
      step.Ack? && var m := s.workers[step.worker].msg; Last(s'.log) == EvAcked(m, s.messages[m].task)
    ensures Last(s'.log).EvRetryAcked? ==> step.RetryAck? && Last(s'.log) == EvRetryAcked(s.retryLoop.retry)
  {
    if step.Handle? {
      HandleLogs(s, step.worker, s.workers[step.worker], step.owner, step.leaseBase, step.expires);
    } else {
      OtherAckEvents(cfg, s, s', step);
    }
  }

  lemma OtherAckEvents(cfg: Config, s: State, s': State, step: Step)
    requires Enabled(cfg, s, step) && s' == Apply(cfg, s, step) && s'.log != s.log && s'.log != [] && !step.Handle?
    ensures Last(s'.log).EvAcked? ==>
      step.Ack? && var m := s.workers[step.worker].msg; Last(s'.log) == EvAcked(m, s.messages[m].task)
    ensures Last(s'.log).EvRetryAcked? ==> step.RetryAck? && Last(s'.log) == EvRetryAcked(s.retryLoop.retry)
  {
  }

  lemma StepKeepsAcks(cfg: Config, s: State, s': State, step: Step)
    requires Inv(cfg, s) && Enabled(cfg, s, step) && s' == Apply(cfg, s, step)
    ensures AcksExplained(s'.log)
  {
    LogGrows(cfg, s, s', step);
    if s'.log != s.log {
      AckEvents(cfg, s, s', step);
      var e := Last(s'.log);
      if e.EvAcked? {
        var j := AckHasCause(cfg, s, step);
      } else if e.EvRetryAcked? {
        var cause :=
          if s.retryLoop.Delivered? then EvRetryDelivered(s.retryLoop.retry) else EvRetryDeadLetter(s.retryLoop.retry);
        var j :| 0 <= j < |s.log| && s.log[j] == cause;
        assert Explains(s.log[j], e);
      }
      AcksStayExplained(s.log, e);
    }
  }

  lemma DeadLetterOrigin(cfg: Config, s: State, s': State, step: Step, w: nat)
    requires Enabled(cfg, s, step) && s' == Apply(cfg, s, step) && w in s'.workers && s'.workers[w].DeadLettered?
    ensures (w in s.workers && s.workers[w] == s'.workers[w]) || s'.log == s.log + [EvDeadLetter(s'.workers[w].msg)]
  {
  }

  lemma AckFlagOrigin(cfg: Config, s: State, s': State, step: Step, m: nat)
    requires Enabled(cfg, s, step) && s' == Apply(cfg, s, step) && m in s'.messages && s'.messages[m].acked
    ensures (m in s.messages && s.messages[m].acked && s.messages[m].task == s'.messages[m].task) ||
      s'.log == s.log + [EvAcked(m, s'.messages[m].task)]
  {
  }

  lemma RetryFlagOrigin(cfg: Config, s: State, s': State, step: Step, r: nat)
    requires Enabled(cfg, s, step) && s' == Apply(cfg, s, step) && r in s'.retries && s'.retries[r].acked
    ensures (r in s.retries && s.retries[r].acked) || s'.log == s.log + [EvRetryAcked(r)]
  {
  }

  lemma FlagsLogged(cfg: Config, s: State, s': State, step: Step, i: nat)
    requires LogOk(s) && Enabled(cfg, s, step) && s' == Apply(cfg, s, step)
    requires forall e: Event :: e in s.log ==> e in s'.log
    ensures i in s'.workers && s'.workers[i].DeadLettered? ==> EvDeadLetter(s'.workers[i].msg) in s'.log
    ensures i in s'.messages && s'.messages[i].acked ==> EvAcked(i, s'.messages[i].task) in s'.log
    ensures i in s'.retries && s'.retries[i].acked ==> EvRetryAcked(i) in s'.log
  {
    if i in s'.workers && s'.workers[i].DeadLettered? {
      DeadLetterOrigin(cfg, s, s', step, i);
    }
    if i in s'.messages && s'.messages[i].acked {
      AckFlagOrigin(cfg, s, s', step, i);
    }
    if i in s'.retries && s'.retries[i].acked {
      RetryFlagOrigin(cfg, s, s', step, i);
    }
  }

  lemma RetryCauseOrigin(cfg: Config, s: State, s': State, step: Step)
    requires Enabled(cfg, s, step) && s' == Apply(cfg, s, step) && s'.retryLoop != s.retryLoop
    ensures s'.retryLoop.Delivered? ==> s'.log == s.log + [EvRetryDelivered(s'.retryLoop.retry)]
    ensures s'.retryLoop.Dropped? ==> s'.log == s.log + [EvRetryDeadLetter(s'.retryLoop.retry)]
  {
  }

  lemma RetryCausesLogged(cfg: Config, s: State, s': State, step: Step)
    requires LogOk(s) && Enabled(cfg, s, step) && s' == Apply(cfg, s, step)
    requires forall e: Event :: e in s.log ==> e in s'.log
    ensures s'.retryLoop.Delivered? ==> EvRetryDelivered(s'.retryLoop.retry) in s'.log
    ensures s'.retryLoop.Dropped? ==> EvRetryDeadLetter(s'.retryLoop.retry) in s'.log
  {
    if s'.retryLoop != s.retryLoop {
      RetryCauseOrigin(cfg, s, s', step);
    }
  }

  lemma StepKeeps(cfg: Config, s: State, s': State)
    requires Inv(cfg, s) && Next(cfg, s, s')
    ensures Inv(cfg, s')
  {
    var step :| Enabled(cfg, s, step) && s' == Apply(cfg, s, step);
    StepKeepsCore(cfg, s, s', step);
    StepKeepsAcks(cfg, s, s', step);
    LogGrows(cfg, s, s', step);
    RetryCausesLogged(cfg, s, s', step);
    forall i: nat
      ensures i in s'.workers && s'.workers[i].DeadLettered? ==> EvDeadLetter(s'.workers[i].msg) in s'.log
      ensures i in s'.messages && s'.messages[i].acked ==> EvAcked(i, s'.messages[i].task) in s'.log
      ensures i in s'.retries && s'.retries[i].acked ==> EvRetryAcked(i) in s'.log
    {
      FlagsLogged(cfg, s, s', step, i);
    }
  }

  /** Every state of every run satisfies the invariant. */
  lemma {:induction false} RunKeeps(cfg: Config, run: seq<State>, i: nat)
    requires IsRun(cfg, run) && i < |run|
    ensures Inv(cfg, run[i])
  {
    if i == 0 {
      InitHolds(cfg, run[0]);
    } else {
      RunKeeps(cfg, run, i - 1);
      StepKeeps(cfg, run[i - 1], run[i]);
    }
  }

  // ---- Theorems over runs ----

  lemma {:induction false} HistoryGrows(log: Log, e: Event, t: TaskId)
    ensures HistoryOf(log, t).commits <= HistoryOf(log + [e], t).commits
    ensures HistoryOf(log, t).claims <= HistoryOf(log + [e], t).claims
  {
    HistAfter(log, e);
    assert HistoryOf(log + [e], t) == Hist(log + [e])(t) == Extend(Hist(log)(t), e, t);
  }

  lemma CommitsStep(cfg: Config, s: State, s': State, t: TaskId)
    requires Next(cfg, s, s')
    ensures HistoryOf(s.log, t).commits <= HistoryOf(s'.log, t).commits
  {
    var step :| Enabled(cfg, s, step) && s' == Apply(cfg, s, step);
    LogGrows(cfg, s, s', step);
    if s'.log != s.log {
      HistoryGrows(s.log, Last(s'.log), t);
    }
  }

  lemma {:induction false} CommitsGrow(cfg: Config, run: seq<State>, i: nat, j: nat, t: TaskId)
    requires IsRun(cfg, run) && i <= j < |run|
    ensures HistoryOf(run[i].log, t).commits <= HistoryOf(run[j].log, t).commits
    decreases j
  {
    if i < j {
      CommitsGrow(cfg, run, i, j - 1, t);
      assert Next(cfg, run[j - 1], run[j - 1 + 1]);
      CommitsStep(cfg, run[j - 1], run[j], t);
    }
  }

  /** However workers, crashes, redeliveries and takeovers interleave, a task's result is committed at most once, by
      its latest claimant, and the row shows that commit. */
  lemma AtMostOneCommit(cfg: Config, run: seq<State>, i: nat, t: TaskId)
    requires IsRun(cfg, run) && i < |run|
    ensures var h := HistoryOf(run[i].log, t);
      && |h.commits| <= 1
      && (h.commits != [] ==> h.claims != [] && h.commits[0].owner == Last(h.claims))
      && (h.commits != [] <==> Settled(run[i], t))
      && (h.commits != [] ==> run[i].table[t].execution == h.commits[0].status)
  {
    RunKeeps(cfg, run, i);
    assert RowOk(run[i], Hist(run[i].log)(t), t);
  }

  /** Once a task is finished its outcome stands in every later state. */
  lemma OutcomeIsFinal(cfg: Config, run: seq<State>, i: nat, j: nat, t: TaskId)
    requires IsRun(cfg, run) && i <= j < |run| && Settled(run[i], t)
    ensures Settled(run[j], t) && run[j].table[t].execution == run[i].table[t].execution
  {
    AtMostOneCommit(cfg, run, i, t);
    AtMostOneCommit(cfg, run, j, t);
    CommitsGrow(cfg, run, i, j, t);
  }

  /** Every acknowledgement on either queue, at any time, has its reason before it in the log. */
  lemma AckSafety(cfg: Config, run: seq<State>, i: nat, k: nat)
    requires IsRun(cfg, run) && i < |run| && k < |run[i].log| && IsAck(run[i].log[k])
    ensures Explained(run[i].log, k)
  {
    RunKeeps(cfg, run, i);
  }

  /** A work message is off the queue only once its task is finished or a dead letter was published for it. */
  lemma NoMessageLost(cfg: Config, run: seq<State>, i: nat, m: nat)
    requires IsRun(cfg, run) && i < |run| && m in run[i].messages && run[i].messages[m].acked
    ensures EvDeadLetter(m) in run[i].log ||
      (run[i].messages[m].task.Some? && Settled(run[i], run[i].messages[m].task.value))
  {
    var s := run[i];
    RunKeeps(cfg, run, i);
    var k :| 0 <= k < |s.log| && s.log[k] == EvAcked(m, s.messages[m].task);
    assert Explained(s.log, k);
    var j :| 0 <= j < k && Explains(s.log[j], s.log[k]);
    if s.log[j] != EvDeadLetter(m) {
      var t := s.log[j].task;
      LoggedCommitCounts(s.log, j, t);
      AtMostOneCommit(cfg, run, i, t);
    }
  }

  lemma {:induction false} LoggedCommitCounts(log: Log, j: nat, t: TaskId)
    requires j < |log| && log[j].EvCommitted? && log[j].task == t
    ensures HistoryOf(log, t).commits != []
  {
    if j < |log| - 1 {
      LoggedCommitCounts(log[..|log| - 1], j, t);
    }
  }

  /** `callback_failed` says exactly that the task succeeded and its callback did not; otherwise the status is the
      outcome. */
  lemma StatusTellsOutcome(cfg: Config, run: seq<State>, i: nat, t: TaskId)
    requires IsRun(cfg, run) && i < |run| && t in run[i].table
    ensures var row := run[i].table[t];
      && (row.status == T.CallbackFailed <==> row.execution == T.Success && row.callbackStatus == T.CbFailed)
      && (row.status != T.CallbackFailed ==> row.status == row.execution)
  {
    RunKeeps(cfg, run, i);
    assert RowOk(run[i], Hist(run[i].log)(t), t);
  }

  /** A queued callback retry carries its task's recorded outcome. */
  lemma RetryTellsOutcome(cfg: Config, run: seq<State>, i: nat, r: nat)
    requires IsRun(cfg, run) && i < |run| && r in run[i].retries
    ensures var m := run[i].retries[r];
      && Settled(run[i], m.task) && m.payload.taskId == m.task
      && (m.payload.success <==> run[i].table[m.task].execution == T.Success)
  {
    RunKeeps(cfg, run, i);
    assert OutcomeOk(run[i], run[i].retries[r].task, run[i].retries[r].payload);
  }

  /** A granted claim is on a delivery that was not claimed on before in this life of the consumer. */
  lemma ClaimIsOnNewDelivery(cfg: Config, s: State, s': State, step: Step, e: Event)
    requires Inv(cfg, s) && Enabled(cfg, s, step) && s' == Apply(cfg, s, step)
    requires s'.log == s.log + [e] && e.EvClaimed?
    ensures e.delivery !in HistoryOf(s.log, e.task).deliveries
  {
    assert Last(s'.log) == e;
    if step.Handle? {
      var p := s.workers[step.worker];
      assert PhaseOk(s, Hist(s.log), p);
      HandleClaims(s, step.worker, p, step.owner, step.leaseBase, step.expires, e);
    } else {
      OtherLogsNoClaim(cfg, s, s', step);
      assert false;
    }
  }

  lemma HandleClaims(s: State, w: nat, p: Phase, o: Owner, leaseBase: Instant, expires: Instant, e: Event)
    requires p.Fetched? && TaskFor(s, p) && HandleStep(s, w, p, o, leaseBase, expires).log == s.log + [e]
    ensures e == EvClaimed(s.messages[p.msg].task.value, o, p.delivery)
  {
    assert (s.log + [e])[|s.log|] == e;
  }

  lemma OtherLogsNoClaim(cfg: Config, s: State, s': State, step: Step)
    requires Enabled(cfg, s, step) && s' == Apply(cfg, s, step) && !step.Handle? && s'.log != s.log && s'.log != []
    ensures !Last(s'.log).EvClaimed?
  {
  }

  lemma LifeAfter(log: Log, e: Event, t: TaskId)
    ensures LifeClaims(log + [e], t)
         == if e.EvRestarted? then 0 else LifeClaims(log, t) + if e.EvClaimed? && e.task == t then 1 else 0
    ensures HistoryOf(log + [e], t) == Extend(HistoryOf(log, t), e, t)
  {
    assert (log + [e])[..|log|] == log;
  }

  ghost predicate LifeOk(log: Log, t: TaskId) {
    LifeClaims(log, t) == |HistoryOf(log, t).deliveries|
  }

  lemma LifeGrows(log: Log, e: Event, t: TaskId)
    requires LifeOk(log, t) && (e.EvClaimed? ==> e.delivery !in HistoryOf(log, e.task).deliveries)
    ensures LifeOk(log + [e], t)
  {
    LifeAfter(log, e, t);
  }

  lemma StepKeepsLife(cfg: Config, s: State, s': State, t: TaskId)
    requires Inv(cfg, s) && Next(cfg, s, s') && LifeOk(s.log, t)
    ensures LifeOk(s'.log, t)
  {
    var step :| Enabled(cfg, s, step) && s' == Apply(cfg, s, step);
    LogGrows(cfg, s, s', step);
    if s'.log != s.log {
      var e := Last(s'.log);
      if e.EvClaimed? {
        ClaimIsOnNewDelivery(cfg, s, s', step, e);
      }
      LifeGrows(s.log, e, t);
    }
  }

  /** The claims of one life are on as many distinct deliveries. */
  lemma {:induction false} LifeIsDeliveries(cfg: Config, run: seq<State>, i: nat, t: TaskId)
    requires IsRun(cfg, run) && i < |run|
    ensures LifeOk(run[i].log, t)
  {
    if i > 0 {
      LifeIsDeliveries(cfg, run, i - 1, t);
      RunKeeps(cfg, run, i - 1);
      StepKeepsLife(cfg, run[i - 1], run[i - 1 + 1], t);
    }
  }

  /** In every life of the consumer a task is claimed at most `maxDeliver` times. Every state of a run is inside some
      life, so this bounds each of them. */
  lemma LifeIsBounded(cfg: Config, run: seq<State>, i: nat, t: TaskId)
    requires IsRun(cfg, run) && i < |run|
    ensures LifeClaims(run[i].log, t) <= cfg.maxDeliver
  {
    var hs := Hist(run[i].log);
    RunKeeps(cfg, run, i);
    LifeIsDeliveries(cfg, run, i, t);
    forall d | d in hs(t).deliveries ensures 1 <= d <= cfg.maxDeliver { assert DeliveryOk(cfg, run[i], d, t); }
    RangeBoundsSize(hs(t).deliveries, cfg.maxDeliver);
  }

  /** One message per task, one attempt per claim, at most `maxDeliver` attempts in each life of the consumer, and so
      at most that many times the number of lives in all. */
  lemma AttemptsBounded(cfg: Config, run: seq<State>, i: nat, t: TaskId)
    requires IsRun(cfg, run) && i < |run|
    ensures var h := HistoryOf(run[i].log, t);
      && h.publishes <= 1
      && (t in run[i].table ==> run[i].table[t].attempt == |h.claims|)
      && LifeClaims(run[i].log, t) <= cfg.maxDeliver
      && |h.claims| <= cfg.maxDeliver * (Restarts(run[i].log) + 1)
  {
    var s := run[i];
    var hs := Hist(s.log);
    RunKeeps(cfg, run, i);
    assert RowOk(s, hs(t), t);
    ClaimsBounded(cfg, s, hs, Restarts(s.log), t);
    LifeIsBounded(cfg, run, i, t);
  }

  /** A worker whose lease has passed to another cannot write a result: its commit changes nothing and raises. */
  lemma StaleOwnerIsFenced(cfg: Config, run: seq<State>, i: nat, w: nat, result: T.TaskResult)
    requires IsRun(cfg, run) && i < |run| && Enabled(cfg, run[i], Finish(w, result))
    ensures var s, p := run[i], run[i].workers[w];
      var claims := HistoryOf(s.log, p.task).claims;
      var s' := Apply(cfg, s, Finish(w, result));
      if claims != [] && Last(claims) == p.owner && p.task in s.table && s.table[p.task].execution == T.Running
      then s'.log == s.log + [EvCommitted(p.task, p.owner, Outcome(result.success))]
      else s' == s.(workers := s.workers[w := Raised(p.msg, p.delivery)])
  {
    var s, p := run[i], run[i].workers[w];
    RunKeeps(cfg, run, i);
    assert PhaseOk(s, Hist(s.log), p) && RowOk(s, Hist(s.log)(p.task), p.task);
  }
}
