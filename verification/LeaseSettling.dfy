/**
 * Which queue messages can still be acknowledged or dead-lettered in this life of the consumer. The exact condition
 * is on the state: some delivery or some holder of the message must still be good for it.
 */
module LeaseSettling {
  import opened Json
  import opened IsoTime
  import opened LeaseProtocol
  import opened LeaseFate
  import S = LeaseSafety
  import T = TaskTable

  /** Acknowledged, or a dead letter was published for it. */
  predicate Resolved(s: State, m: nat) {
    m in s.messages && (s.messages[m].acked || HasDeadLetter(s.log, m))
  }

  ghost predicate CanSettle(cfg: Config, s: State, m: nat) {
    exists run :: Continues(cfg, run) && run[0] == s && SameLife(run) && Resolved(Last(run), m)
  }

  /** A holder that can only let go of its message: one that failed before the last delivery, lost its lease before
      it, or holds a body that does not decode. */
  predicate Spent(cfg: Config, s: State, p: Phase) {
    && !p.Idle? && !p.DeadLettered? && p.delivery < cfg.maxDeliver
    && (|| p.Raised?
        || (p.Executing? && !T.CanCommit(s.table, p.task, Some(p.owner)))
        || (p.Fetched? && p.msg in s.messages && s.messages[p.msg].task.None?))
  }

  /** No delivery is left, and every worker that holds the message is spent. A stranded message has no holder at all. */
  ghost predicate Doomed(cfg: Config, s: State, m: nat) {
    && m in s.messages && !Resolved(s, m) && s.messages[m].delivered >= cfg.maxDeliver
    && forall w :: Held(s, w, m) ==> Spent(cfg, s, s.workers[w])
  }

  // ---- A lease once lost stays lost ----

  lemma {:induction false} ClaimsAreOwners(log: Log, t: TaskId, o: Owner)
    requires o in HistoryOf(log, t).claims
    ensures o in OwnersIn(log)
  {
    var init, e := log[..|log| - 1], log[|log| - 1];
    if e.EvClaimed? && e.task == t && e.owner == o {
      assert e in log;
    } else {
      ClaimsAreOwners(init, t, o);
      var f :| f in init && f.EvClaimed? && f.owner == o;
      assert f in log;
    }
  }

  predicate Lost(table: T.Table, t: TaskId, o: Owner) {
    !T.CanCommit(table, t, Some(o))
  }

  lemma ClaimKeepsLost(table: T.Table, id: TaskId, owner: Owner, expires: string, now: string, t: TaskId, o: Owner)
    requires Lost(table, t, o) && owner != o
    ensures Lost(T.Claimed(table, id, owner, expires, now), t, o)
  {
  }

  lemma RenewalKeepsLost(table: T.Table, id: TaskId, owner: Owner, expires: string, now: string, t: TaskId, o: Owner)
    requires Lost(table, t, o)
    ensures Lost(T.Renewed(table, id, owner, expires, now), t, o)
  {
  }

  lemma CommitKeepsLost(
    table: T.Table, id: TaskId, status: T.Status, r: T.TaskResult, now: string, owner: Option<Owner>,
    t: TaskId, o: Owner)
    requires Lost(table, t, o)
    ensures Lost(T.Committed(table, id, status, r, now, owner), t, o)
  {
  }

  lemma CallbackKeepsLost(
    table: T.Table, id: TaskId, outcome: T.CallbackStatus, r: T.TaskResult, now: string, preserve: Option<T.Status>,
    t: TaskId, o: Owner)
    requires Lost(table, t, o)
    ensures Lost(T.CallbackUpdated(table, id, outcome, r, now, preserve), t, o)
  {
  }

  lemma WorkerStepKeepsLost(cfg: Config, s: State, s': State, step: Step, t: TaskId, o: Owner)
    requires Enabled(cfg, s, step) && s' == Apply(cfg, s, step) && (step.Handle? || step.Heartbeat? || step.Finish?)
    requires Lost(s.table, t, o) && o in OwnersIn(s.log)
    ensures Lost(s'.table, t, o)
  {
    var p := s.workers[step.worker];
    if step.Handle? {
      HandleTable(s, step.worker, p, step.owner, step.leaseBase, step.expires);
      ClaimKeepsLost(s.table, s.messages[p.msg].task.value, step.owner, Iso(step.expires), Stamp(s), t, o);
    } else if step.Heartbeat? {
      RenewalKeepsLost(s.table, p.task, p.owner, Iso(step.expires), Stamp(s), t, o);
    } else {
      var r := step.result;
      CommitKeepsLost(s.table, p.task, Outcome(r.success), r, Stamp(s), Some(p.owner), t, o);
    }
  }

  lemma CallbackStepKeepsLost(cfg: Config, s: State, s': State, step: Step, t: TaskId, o: Owner)
    requires Enabled(cfg, s, step) && s' == Apply(cfg, s, step) && (step.CallbackDone? || step.RetryDeliver?)
    requires Lost(s.table, t, o)
    ensures Lost(s'.table, t, o)
  {
    if step.CallbackDone? {
      var p := s.workers[step.worker];
      CallbackKeepsLost(
        s.table, p.task, step.outcome, Noted(p.result, step.outcome, step.error), Stamp(s),
        Some(Outcome(p.result.success)), t, o);
    } else {
      var m := s.retries[s.retryLoop.retry];
      CallbackKeepsLost(s.table, m.task, T.CbSent, m.payload, Stamp(s), Some(Outcome(m.payload.success)), t, o);
    }
  }

  lemma StepKeepsLost(cfg: Config, s: State, s': State, step: Step, t: TaskId, o: Owner)
    requires Enabled(cfg, s, step) && s' == Apply(cfg, s, step) && Lost(s.table, t, o) && o in OwnersIn(s.log)
    ensures Lost(s'.table, t, o)
  {
    if step.Handle? || step.Heartbeat? || step.Finish? {
      WorkerStepKeepsLost(cfg, s, s', step, t, o);
    } else if step.CallbackDone? || step.RetryDeliver? {
      CallbackStepKeepsLost(cfg, s, s', step, t, o);
    } else if !step.Submit? {
      OtherStepsLeaveTable(cfg, s, s', step);
    }
  }

  // ---- A doomed message stays doomed ----

  lemma TaskStep(cfg: Config, s: State, s': State, step: Step, m: nat)
    requires Enabled(cfg, s, step) && s' == Apply(cfg, s, step) && m in s.messages && !step.Restart?
    ensures m in s'.messages && s'.messages[m].task == s.messages[m].task
  {
    if step.Handle? {
      HandleMessages(s, step.worker, s.workers[step.worker], step.owner, step.leaseBase, step.expires);
    } else if !(step.Publish? || step.Inject? || step.Fetch? || step.Ack?) {
      OtherStepsLeaveMessages(cfg, s, s', step);
    }
  }

  /** Whatever a spent worker does next, it lets go or is spent still. */
  lemma OwnSpentStep(cfg: Config, s: State, s': State, step: Step, w: nat)
    requires Enabled(cfg, s, step) && s' == Apply(cfg, s, step) && Touches(step, w) && w in s.workers
    requires Spent(cfg, s, s.workers[w])
    ensures w in s'.workers
    ensures (s'.workers[w].Idle? || s' == s || s'.workers[w] == Raised(s.workers[w].msg, s.workers[w].delivery))
  {
  }

  lemma SpentStep(cfg: Config, s: State, s': State, step: Step, w: nat)
    requires S.Inv(cfg, s) && Enabled(cfg, s, step) && s' == Apply(cfg, s, step) && !step.Restart?
    requires w in s.workers && Spent(cfg, s, s.workers[w]) && w in s'.workers && !s'.workers[w].Idle?
    ensures Spent(cfg, s', s'.workers[w])
  {
    var p := s.workers[w];
    if Touches(step, w) {
      OwnSpentStep(cfg, s, s', step, w);
    } else {
      StillThere(cfg, s, s', step, w);
      assert S.PhaseOk(s, S.Hist(s.log), p);
      if p.Executing? {
        ClaimsAreOwners(s.log, p.task, p.owner);
        StepKeepsLost(cfg, s, s', step, p.task, p.owner);
      } else if p.Fetched? {
        TaskStep(cfg, s, s', step, p.msg);
      }
    }
  }

  lemma StillThere(cfg: Config, s: State, s': State, step: Step, w: nat)
    requires Enabled(cfg, s, step) && s' == Apply(cfg, s, step) && !step.Restart? && !Touches(step, w) && w in s.workers
    ensures w in s'.workers && s'.workers[w] == s.workers[w]
  {
    if !step.Handle? {
      OtherWorkersStay(cfg, s, s', step, w);
    }
  }

  lemma DoomedHolders(cfg: Config, s: State, s': State, step: Step, m: nat, w: nat)
    requires S.Inv(cfg, s) && Enabled(cfg, s, step) && s' == Apply(cfg, s, step) && !step.Restart?
    requires Doomed(cfg, s, m) && Held(s', w, m)
    ensures Spent(cfg, s', s'.workers[w])
  {
    HolderStep(cfg, s, s', step, w, m);
    SpentStep(cfg, s, s', step, w);
  }

  lemma DoomedIsUnresolved(cfg: Config, s: State, s': State, step: Step, m: nat)
    requires Enabled(cfg, s, step) && s' == Apply(cfg, s, step) && !step.Restart? && Doomed(cfg, s, m)
    ensures m in s'.messages && !Resolved(s', m) && s'.messages[m].delivered >= cfg.maxDeliver
  {
    MessageStep(cfg, s, s', step, m);
    if step.Ack? && s.workers[step.worker].msg == m {
      assert Held(s, step.worker, m);
      assert false;
    }
    S.LogGrows(cfg, s, s', step);
    if HasDeadLetter(s'.log, m) {
      assert s'.log == s.log + [EvDeadLetter(m)];
      DeadLetterNeedsHolder(cfg, s, s', step, m);
      assert false;
    }
  }

  lemma DoomedStep(cfg: Config, s: State, s': State, step: Step, m: nat)
    requires S.Inv(cfg, s) && Enabled(cfg, s, step) && s' == Apply(cfg, s, step) && !step.Restart? && Doomed(cfg, s, m)
    ensures Doomed(cfg, s', m)
  {
    DoomedIsUnresolved(cfg, s, s', step, m);
    forall w | Held(s', w, m) ensures Spent(cfg, s', s'.workers[w]) {
      DoomedHolders(cfg, s, s', step, m, w);
    }
  }

  /** A doomed message is neither acknowledged nor dead-lettered until the consumer is created anew. */
  lemma {:induction false} DoomedForLife(cfg: Config, run: seq<State>, m: nat)
    requires Continues(cfg, run) && S.Inv(cfg, run[0]) && Doomed(cfg, run[0], m)
    ensures S.Inv(cfg, Last(run)) && Restarts(run[0].log) <= Restarts(Last(run).log)
    ensures SameLife(run) ==> Doomed(cfg, Last(run), m)
    decreases |run|
  {
    if |run| > 1 {
      var n := |run| - 1;
      var s, s', init := run[n - 1], run[n], run[..n];
      assert Continues(cfg, init);
      DoomedForLife(cfg, init, m);
      assert Next(cfg, run[n - 1], run[n - 1 + 1]);
      DoomedNext(cfg, s, s', m);
    }
  }

  lemma DoomedNext(cfg: Config, s: State, s': State, m: nat)
    requires S.Inv(cfg, s) && Next(cfg, s, s')
    ensures S.Inv(cfg, s') && Restarts(s.log) <= Restarts(s'.log)
    ensures Doomed(cfg, s, m) && Restarts(s.log) == Restarts(s'.log) ==> Doomed(cfg, s', m)
  {
    S.StepKeeps(cfg, s, s');
    var step :| Enabled(cfg, s, step) && s' == Apply(cfg, s, step);
    RestartsGrow(cfg, s, s', step);
    if Doomed(cfg, s, m) && !step.Restart? {
      DoomedStep(cfg, s, s', step, m);
    }
  }

  // ---- Any other message can be settled ----

  lemma AlreadyResolved(cfg: Config, s: State, m: nat)
    requires Resolved(s, m)
    ensures CanSettle(cfg, s, m)
  {
    assert Continues(cfg, [s]) && SameLife([s]) && Last([s]) == s;
  }

  lemma LifeGoesOn(cfg: Config, s: State, s': State, step: Step)
    requires Enabled(cfg, s, step) && s' == Apply(cfg, s, step) && !step.Restart?
    ensures Restarts(s'.log) == Restarts(s.log)
  {
    S.LogGrows(cfg, s, s', step);
    if s'.log != s.log {
      S.HistAfter(s.log, Last(s'.log));
      NoRestartEvent(cfg, s, s', step);
    }
  }

  lemma NoRestartEvent(cfg: Config, s: State, s': State, step: Step)
    requires Enabled(cfg, s, step) && s' == Apply(cfg, s, step) && !step.Restart? && s'.log != s.log && s'.log != []
    ensures !Last(s'.log).EvRestarted?
  {
    if step.Handle? {
      S.HandleLogs(s, step.worker, s.workers[step.worker], step.owner, step.leaseBase, step.expires);
    }
  }

  lemma RunBack(cfg: Config, s: State, run: seq<State>) returns (longer: seq<State>)
    requires Continues(cfg, run) && Next(cfg, s, run[0]) && Restarts(s.log) == Restarts(run[0].log) && SameLife(run)
    ensures Continues(cfg, longer) && longer[0] == s && SameLife(longer) && Last(longer) == Last(run)
  {
    longer := [s] + run;
    assert forall i :: 0 < i < |longer| ==> longer[i] == run[i - 1];
  }

  /** What can be settled after a step can be settled before it. */
  lemma StepBack(cfg: Config, s: State, step: Step, s': State, m: nat)
    requires Enabled(cfg, s, step) && s' == Apply(cfg, s, step) && !step.Restart? && CanSettle(cfg, s', m)
    ensures CanSettle(cfg, s, m)
  {
    LifeGoesOn(cfg, s, s', step);
    var run :| Continues(cfg, run) && run[0] == s' && SameLife(run) && Resolved(Last(run), m);
    var longer := RunBack(cfg, s, run);
  }

  lemma ByAck(cfg: Config, s: State, w: nat, m: nat)
    requires Held(s, w, m) && s.workers[w].Acking? && m in s.messages
    ensures CanSettle(cfg, s, m)
  {
    var s' := Apply(cfg, s, Ack(w));
    AlreadyResolved(cfg, s', m);
    StepBack(cfg, s, Ack(w), s', m);
  }

  lemma ByGiveUp(cfg: Config, s: State, w: nat, m: nat)
    requires Held(s, w, m) && s.workers[w].Raised? && s.workers[w].delivery >= cfg.maxDeliver && m in s.messages
    ensures CanSettle(cfg, s, m)
  {
    var s' := Apply(cfg, s, GiveUp(w));
    assert s'.log[|s.log|] == EvDeadLetter(m);
    AlreadyResolved(cfg, s', m);
    StepBack(cfg, s, GiveUp(w), s', m);
  }

  /** A holder on the last delivery can fail, and failing there publishes the dead letter. */
  lemma ByLastDelivery(cfg: Config, s: State, w: nat, m: nat)
    requires Held(s, w, m) && m in s.messages && !s.workers[w].DeadLettered? && s.workers[w].delivery >= cfg.maxDeliver
    ensures CanSettle(cfg, s, m)
  {
    if s.workers[w].Raised? {
      ByGiveUp(cfg, s, w, m);
    } else {
      var s' := Apply(cfg, s, Raise(w));
      ByGiveUp(cfg, s', w, m);
      StepBack(cfg, s, Raise(w), s', m);
    }
  }

  lemma ByCallback(cfg: Config, s: State, w: nat, m: nat)
    requires Held(s, w, m) && s.workers[w].Committed? && m in s.messages
    ensures CanSettle(cfg, s, m)
  {
    var outcome := if s.messages[m].callback.None? then T.CbNone else T.CbSent;
    var s' := Apply(cfg, s, CallbackDone(w, outcome, ""));
    ByAck(cfg, s', w, m);
    StepBack(cfg, s, CallbackDone(w, outcome, ""), s', m);
  }

  lemma {:induction false} FreshNumber(used: set<nat>) returns (r: nat)
    ensures forall x :: x in used ==> x < r
  {
    if used == {} {
      r := 0;
    } else {
      var x :| x in used;
      var q := FreshNumber(used - {x});
      r := if x < q then q else x + 1;
      forall y | y in used ensures y < r {
        assert y != x ==> y in used - {x};
      }
    }
  }

  lemma ByRetry(cfg: Config, s: State, w: nat, m: nat)
    requires Held(s, w, m) && s.workers[w].Retrying? && m in s.messages
    ensures CanSettle(cfg, s, m)
  {
    var r := FreshNumber(s.retries.Keys);
    var step := PublishRetry(w, r, s.workers[w].result);
    assert r !in s.retries;
    var s' := Apply(cfg, s, step);
    ByAck(cfg, s', w, m);
    StepBack(cfg, s, step, s', m);
  }

  lemma ByFinish(cfg: Config, s: State, w: nat, m: nat)
    requires Held(s, w, m) && s.workers[w].Executing? && m in s.messages
    requires T.CanCommit(s.table, s.workers[w].task, Some(s.workers[w].owner))
    ensures CanSettle(cfg, s, m)
  {
    var step := Finish(w, T.TaskResult(s.workers[w].task, true, "", None));
    var s' := Apply(cfg, s, step);
    ByCallback(cfg, s', w, m);
    StepBack(cfg, s, step, s', m);
  }

  // ---- A fetched message whose task is known ----

  /** Some past instant and the one a lease window after it: what a claim needs from the calendar. */
  ghost predicate ClockFits(cfg: Config, now: Instant) {
    exists base: Instant, expires: Instant ::
      Micros(base) <= Micros(now) && Micros(expires) == Micros(base) + cfg.window
  }

  const DAY: nat := 86_400_000_000

  lemma FirstDay(d: Instant)
    requires d.year == 1 && d.month == 1 && d.day == 1
    ensures Micros(d) == DAY + ((d.hour * 60 + d.minute) * 60 + d.second) * 1_000_000 + d.micro
  {
    assert Ordinal(d) == 1;
  }

  /** A time of day, from the microseconds since midnight. */
  lemma TimeOfDay(n: nat) returns (d: Instant)
    requires n < DAY
    ensures Micros(d) == DAY + n
  {
    var seconds, micro := n / 1_000_000, n % 1_000_000;
    var minutes, second := seconds / 60, seconds % 60;
    var hour, minute := minutes / 60, minutes % 60;
    assert hour < 24 && minutes == hour * 60 + minute && seconds == minutes * 60 + second;
    d := DateTime(1, 1, 1, hour, minute, second, micro);
    FirstDay(d);
  }

  /** Any lease shorter than a day fits the calendar at any time. */
  lemma ShortLeasesFit(cfg: Config, now: Instant)
    requires cfg.window < DAY
    ensures ClockFits(cfg, now)
  {
    var base := TimeOfDay(0);
    var expires := TimeOfDay(cfg.window);
    assert Ordinal(now) >= 1;
    assert Micros(base) <= Micros(now);
  }

  lemma {:induction false} LongerThanAll(used: set<string>) returns (n: nat)
    ensures n > 0 && forall x :: x in used ==> |x| < n
  {
    if used == {} {
      n := 1;
    } else {
      var x :| x in used;
      var q := LongerThanAll(used - {x});
      n := if |x| < q then q else |x| + 1;
    }
  }

  lemma FreshOwner(used: set<Owner>) returns (o: Owner)
    ensures o != "" && o !in used
  {
    var n := LongerThanAll(used);
    o := seq(n, i => 'o');
  }

  lemma ClaimedCanCommit(s: State, w: nat, p: Phase, o: Owner, base: Instant, expires: Instant, t: TaskId)
    requires p.Fetched? && TaskFor(s, p) && s.messages[p.msg].task == Some(t) && HandlingOf(s, p, o) == Claim
    ensures var s' := HandleStep(s, w, p, o, base, expires);
      && s'.workers == s.workers[w := Executing(p.msg, p.delivery, t, o, base)]
      && T.CanCommit(s'.table, t, Some(o)) && s'.messages == s.messages
  {
  }

  lemma ByHandle(cfg: Config, s: State, w: nat, m: nat, o: Owner, base: Instant, expires: Instant)
    requires Held(s, w, m) && HandleEnabled(cfg, s, s.workers[w], o, base, expires) && m in s.messages
    requires HandlingOf(s, s.workers[w], o) != Skip
    ensures CanSettle(cfg, s, m)
  {
    var p, step := s.workers[w], Handle(w, o, base, expires);
    var s' := Apply(cfg, s, step);
    if HandlingOf(s, p, o) == Acknowledge {
      ByAck(cfg, s', w, m);
    } else {
      ClaimedCanCommit(s, w, p, o, base, expires, s.messages[p.msg].task.value);
      ByFinish(cfg, s', w, m);
    }
    StepBack(cfg, s, step, s', m);
  }

  /** A recorded expiry is the text of an instant. */
  ghost predicate ExpiryIsText(row: T.Row) {
    row.leaseExpiresAt.Some? ==> exists e: Instant :: row.leaseExpiresAt.value == Iso(e)
  }

  ghost predicate ExpiriesAreTexts(table: T.Table) {
    forall t :: t in table ==> ExpiryIsText(table[t])
  }

  lemma ClaimKeepsTexts(table: T.Table, id: TaskId, owner: Owner, expires: Instant, now: string)
    requires ExpiriesAreTexts(table)
    ensures ExpiriesAreTexts(T.Claimed(table, id, owner, Iso(expires), now))
  {
  }

  lemma RenewalKeepsTexts(table: T.Table, id: TaskId, owner: Owner, expires: Instant, now: string)
    requires ExpiriesAreTexts(table)
    ensures ExpiriesAreTexts(T.Renewed(table, id, owner, Iso(expires), now))
  {
  }

  lemma CommitKeepsTexts(
    table: T.Table, id: TaskId, status: T.Status, r: T.TaskResult, now: string, owner: Option<Owner>)
    requires ExpiriesAreTexts(table)
    ensures ExpiriesAreTexts(T.Committed(table, id, status, r, now, owner))
  {
  }

  lemma CallbackKeepsTexts(
    table: T.Table, id: TaskId, outcome: T.CallbackStatus, r: T.TaskResult, now: string, preserve: Option<T.Status>)
    requires ExpiriesAreTexts(table)
    ensures ExpiriesAreTexts(T.CallbackUpdated(table, id, outcome, r, now, preserve))
  {
  }

  lemma WorkerStepKeepsTexts(cfg: Config, s: State, s': State, step: Step)
    requires Enabled(cfg, s, step) && s' == Apply(cfg, s, step) && (step.Handle? || step.Heartbeat? || step.Finish?)
    requires ExpiriesAreTexts(s.table)
    ensures ExpiriesAreTexts(s'.table)
  {
    var p := s.workers[step.worker];
    if step.Handle? {
      HandleTable(s, step.worker, p, step.owner, step.leaseBase, step.expires);
      ClaimKeepsTexts(s.table, s.messages[p.msg].task.value, step.owner, step.expires, Stamp(s));
    } else if step.Heartbeat? {
      RenewalKeepsTexts(s.table, p.task, p.owner, step.expires, Stamp(s));
    } else {
      CommitKeepsTexts(s.table, p.task, Outcome(step.result.success), step.result, Stamp(s), Some(p.owner));
    }
  }

  lemma CallbackStepKeepsTexts(cfg: Config, s: State, s': State, step: Step)
    requires Enabled(cfg, s, step) && s' == Apply(cfg, s, step) && (step.CallbackDone? || step.RetryDeliver?)
    requires ExpiriesAreTexts(s.table)
    ensures ExpiriesAreTexts(s'.table)
  {
    if step.CallbackDone? {
      var p := s.workers[step.worker];
      CallbackKeepsTexts(
        s.table, p.task, step.outcome, Noted(p.result, step.outcome, step.error), Stamp(s),
        Some(Outcome(p.result.success)));
    } else {
      var m := s.retries[s.retryLoop.retry];
      CallbackKeepsTexts(s.table, m.task, T.CbSent, m.payload, Stamp(s), Some(Outcome(m.payload.success)));
    }
  }

  lemma StepKeepsTexts(cfg: Config, s: State, s': State)
    requires Next(cfg, s, s') && ExpiriesAreTexts(s.table)
    ensures ExpiriesAreTexts(s'.table)
  {
    var step :| Enabled(cfg, s, step) && s' == Apply(cfg, s, step);
    if step.Handle? || step.Heartbeat? || step.Finish? {
      WorkerStepKeepsTexts(cfg, s, s', step);
    } else if step.CallbackDone? || step.RetryDeliver? {
      CallbackStepKeepsTexts(cfg, s, s', step);
    } else if !step.Submit? {
      OtherStepsLeaveTable(cfg, s, s', step);
    }
  }

  lemma {:induction false} RunKeepsTexts(cfg: Config, run: seq<State>, i: nat)
    requires IsRun(cfg, run) && i < |run|
    ensures ExpiriesAreTexts(run[i].table)
  {
    if i > 0 {
      RunKeepsTexts(cfg, run, i - 1);
      assert Next(cfg, run[i - 1], run[i]);
      StepKeepsTexts(cfg, run[i - 1], run[i]);
    }
  }

  /** A task that is leased to another can be claimed at the lease's expiry. */
  lemma ClaimAtExpiry(s: State, s': State, p: Phase, o: Owner, t: TaskId, e: Instant)
    requires p.Fetched? && TaskFor(s, p) && s.messages[p.msg].task == Some(t) && t in s.table
    requires HandlingOf(s, p, o) == Skip
    requires s.table[t].leaseExpiresAt.Some? ==> s.table[t].leaseExpiresAt == Some(Iso(e))
    requires s' == s.(now := e)
    ensures HandlingOf(s', p, o) == Claim && Micros(s.now) < Micros(e)
  {
    IsoOrderIsTimeOrder(s.now, e);
    LessIsStrict(Iso(e), Iso(e));
  }

  lemma ByWaiting(cfg: Config, s: State, w: nat, m: nat, t: TaskId, o: Owner, base: Instant, expires: Instant)
    requires Held(s, w, m) && HandleEnabled(cfg, s, s.workers[w], o, base, expires) && m in s.messages
    requires s.messages[m].task == Some(t) && t in s.table && ExpiryIsText(s.table[t])
    requires HandlingOf(s, s.workers[w], o) == Skip
    ensures CanSettle(cfg, s, m)
  {
    assert s.table[t].leaseExpiresAt.Some?;
    var e: Instant :| s.table[t].leaseExpiresAt.value == Iso(e);
    var s' := s.(now := e);
    ClaimAtExpiry(s, s', s.workers[w], o, t, e);
    ByHandle(cfg, s', w, m, o, base, expires);
    StepBack(cfg, s, Tick(e), s', m);
  }

  lemma ByClaim(cfg: Config, s: State, w: nat, m: nat, t: TaskId)
    requires Held(s, w, m) && s.workers[w].Fetched? && m in s.messages && ClockFits(cfg, s.now)
    requires s.messages[m].task == Some(t) && t in s.table && ExpiryIsText(s.table[t])
    ensures CanSettle(cfg, s, m)
  {
    var o := FreshOwner(OwnersIn(s.log));
    var base: Instant, expires: Instant :|
      Micros(base) <= Micros(s.now) && Micros(expires) == Micros(base) + cfg.window;
    if HandlingOf(s, s.workers[w], o) == Skip {
      ByWaiting(cfg, s, w, m, t, o, base, expires);
    } else {
      ByHandle(cfg, s, w, m, o, base, expires);
    }
  }

  // ---- A message with a delivery left ----

  lemma {:induction false} ByFetch(cfg: Config, s: State, w: nat, m: nat)
    requires w in s.workers && s.workers[w].Idle? && m in s.messages && !s.messages[m].acked
    requires s.messages[m].delivered < cfg.maxDeliver
    ensures CanSettle(cfg, s, m)
    decreases cfg.maxDeliver - s.messages[m].delivered
  {
    var s' := FetchStep(s, w, m);
    assert s' == Apply(cfg, s, Fetch(w, m));
    if s'.messages[m].delivered >= cfg.maxDeliver {
      ByLastDelivery(cfg, s', w, m);
    } else {
      var s2 := WithPhase(s', w, Idle);
      assert s2 == Apply(cfg, s', Crash(w));
      ByFetch(cfg, s2, w, m);
      StepBack(cfg, s', Crash(w), s2, m);
    }
    StepBack(cfg, s, Fetch(w, m), s', m);
  }

  lemma ByDelivery(cfg: Config, s: State, w: nat, m: nat)
    requires w in s.workers && m in s.messages && !s.messages[m].acked && s.messages[m].delivered < cfg.maxDeliver
    ensures CanSettle(cfg, s, m)
  {
    var s' := WithPhase(s, w, Idle);
    assert s' == Apply(cfg, s, Crash(w));
    ByFetch(cfg, s', w, m);
    StepBack(cfg, s, Crash(w), s', m);
  }

  // ---- The exact condition ----

  lemma HolderSettles(cfg: Config, s: State, w: nat, m: nat)
    requires S.Inv(cfg, s) && ExpiriesAreTexts(s.table) && ClockFits(cfg, s.now)
    requires m in s.messages && !Resolved(s, m) && Held(s, w, m) && !Spent(cfg, s, s.workers[w])
    ensures CanSettle(cfg, s, m)
  {
    var p := s.workers[w];
    assert S.PhaseOk(s, S.Hist(s.log), p);
    if !p.DeadLettered? && p.delivery >= cfg.maxDeliver {
      ByLastDelivery(cfg, s, w, m);
    } else {
      match p
      case Acking(_, _) => ByAck(cfg, s, w, m);
      case Committed(_, _, _, _) => ByCallback(cfg, s, w, m);
      case Retrying(_, _, _, _) => ByRetry(cfg, s, w, m);
      case Executing(_, _, _, _, _) => ByFinish(cfg, s, w, m);
      case Fetched(_, _) =>
        var t := s.messages[m].task.value;
        assert S.MessageOk(cfg, s, s.messages[m]);
        ByClaim(cfg, s, w, m, t);
      case DeadLettered(_) => assert false;
      case Raised(_, _) => assert false;
    }
  }

  /** In every reachable state with a worker, a message that is neither acknowledged nor dead-lettered yet can still
      become so in this life of the consumer if and only if it is not doomed. */
  lemma SettlesExactlyWhen(cfg: Config, run: seq<State>, i: nat, w: nat, m: nat)
    requires IsRun(cfg, run) && i < |run| && w in run[i].workers && ClockFits(cfg, run[i].now)
    requires m in run[i].messages && !Resolved(run[i], m)
    ensures CanSettle(cfg, run[i], m) <==> !Doomed(cfg, run[i], m)
  {
    var s := run[i];
    S.RunKeeps(cfg, run, i);
    if Doomed(cfg, s, m) {
      forall more | Continues(cfg, more) && more[0] == s && SameLife(more) ensures !Resolved(Last(more), m) {
        DoomedForLife(cfg, more, m);
      }
    } else if s.messages[m].delivered < cfg.maxDeliver {
      ByDelivery(cfg, s, w, m);
    } else {
      RunKeepsTexts(cfg, run, i);
      var v :| Held(s, v, m) && !Spent(cfg, s, s.workers[v]);
      HolderSettles(cfg, s, v, m);
    }
  }

  /** A stranded message that was never dead-lettered is doomed, for want of any holder. */
  lemma StrandedIsDoomed(cfg: Config, s: State, m: nat)
    requires Stranded(cfg, s, m) && !HasDeadLetter(s.log, m)
    ensures Doomed(cfg, s, m)
  {
    forall w ensures !Held(s, w, m) {}
  }
}
