/**
 * The nested time budgets of a remote transfer. Instants and durations are nanoseconds; each stage is given whole
 * seconds, rounded up, and is taken to honour what it is given. No time passes between computing a budget and using it.
 */
module TransferBudget {

  const SECOND := 1_000_000_000

  function RemainingBudget(deadline: int, now: int): nat {
    if deadline - now <= 0 then 0 else deadline - now
  }

  /** What is left, rounded up to whole seconds. */
  function RemainingSeconds(deadline: int, now: int): (s: int)
    ensures 0 <= s && (s == 0 <==> deadline <= now)
    ensures now < deadline ==> (s - 1) * SECOND < deadline - now <= s * SECOND
  {
    var remaining := RemainingBudget(deadline, now);
    if remaining <= 0 then 0
    else
      var seconds := (remaining + SECOND - 1) / SECOND;
      if seconds < 1 then 1 else seconds
  }

  /** A fifth of the budget, between one second and five, and never more than the budget. */
  function ProbeTimeout(timeout: int): (p: nat)
    ensures p == 0 <==> timeout <= 0
    ensures 0 < timeout ==> p <= timeout && p <= 5 * SECOND && (p < SECOND ==> p == timeout)
    ensures 5 * SECOND <= timeout <= 25 * SECOND ==> 5 * p <= timeout < 5 * p + 5
  {
    if timeout <= 0 then 0
    else
      var probe := timeout / 5;
      var capped := if probe > 5 * SECOND then 5 * SECOND else probe;
      var raised := if capped < SECOND then SECOND else capped;
      if raised > timeout then timeout else raised
  }

  /** How one attempt went: how long it took, and whether its failure asks for legacy algorithms. */
  datatype Attempt = Attempt(elapsed: nat, success: bool, legacyHint: bool)

  /** The behaviour of a stage as a function of the seconds, or for the probe the duration, it is given. */
  type Stage = int -> Attempt

  ghost predicate HonoursSeconds(stage: Stage) {
    forall s: int :: s > 0 ==> stage(s).elapsed <= s * SECOND
  }

  ghost predicate HonoursDuration(stage: Stage) {
    forall d: int :: d > 0 ==> stage(d).elapsed <= d
  }

  /** When a transfer ended and the timeouts, in seconds, of the commands it started. */
  datatype Outcome = Outcome(end: int, started: seq<int>)

  /** Two attempts against a deadline of its own; the second one only after a hint, with a command the rewrite changed,
      and with time left. */
  function ScpWithFallback(now: int, timeout: int, modern: Stage, legacy: Stage, rewriteChanges: bool): Outcome {
    var deadline := now + timeout * SECOND;
    var seconds := RemainingSeconds(deadline, now);
    if seconds <= 0 then Outcome(now, [])
    else
      var first := modern(seconds);
      var after := now + first.elapsed;
      if first.success || !first.legacyHint || !rewriteChanges then Outcome(after, [seconds])
      else
        var left := RemainingSeconds(deadline, after);
        if left <= 0 then Outcome(after, [seconds])
        else Outcome(after + legacy(left).elapsed, [seconds, left])
  }

  function FetchAndCopy(
    deadline: int, now: int, fetch: Stage, modern: Stage, legacy: Stage, rewriteChanges: bool): Outcome {
    var seconds := RemainingSeconds(deadline, now);
    if seconds <= 0 then Outcome(now, [])
    else
      var fetched := now + fetch(seconds).elapsed;
      if !fetch(seconds).success then Outcome(fetched, [seconds])
      else
        var scp := ScpWithFallback(fetched, RemainingSeconds(deadline, fetched), modern, legacy, rewriteChanges);
        Outcome(scp.end, [seconds] + scp.started)
  }

  function ProbeEnd(now: int, deadline: int, probe: Stage): int {
    now + probe(ProbeTimeout(RemainingBudget(deadline, now))).elapsed
  }

  /** Probe if asked, fetch from the object store, then copy, all against one deadline. */
  function DownloadToRemote(
    now: int, timeout: int, fastFail: bool, probe: Stage, fetch: Stage, modern: Stage, legacy: Stage,
    rewriteChanges: bool): Outcome {
    if timeout <= 0 then Outcome(now, [])
    else
      var deadline := now + timeout * SECOND;
      if !fastFail then FetchAndCopy(deadline, now, fetch, modern, legacy, rewriteChanges)
      else
        var probed := ProbeEnd(now, deadline, probe);
        if !probe(ProbeTimeout(RemainingBudget(deadline, now))).success then Outcome(probed, [])
        else FetchAndCopy(deadline, probed, fetch, modern, legacy, rewriteChanges)
  }

  lemma ScpEndsInTime(now: int, timeout: int, modern: Stage, legacy: Stage, rewriteChanges: bool)
    requires HonoursSeconds(modern) && HonoursSeconds(legacy)
    ensures var r := ScpWithFallback(now, timeout, modern, legacy, rewriteChanges);
      && now <= r.end
      && (timeout <= 0 ==> r == Outcome(now, []))
      && (timeout > 0 ==> 1 <= |r.started| <= 2 && r.started[0] == timeout)
      && (|r.started| == 1 ==> r.end <= now + timeout * SECOND)
      && (|r.started| == 2 ==> r.end < now + (timeout + 1) * SECOND)
      && forall i :: 0 <= i < |r.started| ==> r.started[i] > 0
  {
    var deadline := now + timeout * SECOND;
    var seconds := RemainingSeconds(deadline, now);
    if timeout > 0 {
      assert seconds == timeout;
      var after := now + modern(seconds).elapsed;
      var left := RemainingSeconds(deadline, after);
      if left > 0 {
        assert legacy(left).elapsed <= left * SECOND;
      }
    }
  }

  /** Ended less than two seconds after the deadline, less than one unless a third command ran, and every command that
      was started was given time. */
  predicate InTime(r: Outcome, start: int, deadline: int) {
    && start <= r.end < deadline + 2 * SECOND
    && |r.started| <= 3
    && (|r.started| <= 2 ==> r.end < deadline + SECOND)
    && forall i :: 0 <= i < |r.started| ==> r.started[i] > 0
  }

  lemma ProbeEndsInTime(now: int, deadline: int, probe: Stage)
    requires HonoursDuration(probe) && now < deadline
    ensures now <= ProbeEnd(now, deadline, probe) <= deadline
  {
  }

  lemma FetchAndCopyEndsInTime(
    deadline: int, now: int, fetch: Stage, modern: Stage, legacy: Stage, rewriteChanges: bool)
    requires HonoursSeconds(fetch) && HonoursSeconds(modern) && HonoursSeconds(legacy) && now <= deadline
    ensures InTime(FetchAndCopy(deadline, now, fetch, modern, legacy, rewriteChanges), now, deadline)
  {
    var seconds := RemainingSeconds(deadline, now);
    if seconds > 0 {
      var fetched := now + fetch(seconds).elapsed;
      assert fetched < deadline + SECOND;
      ScpEndsInTime(fetched, RemainingSeconds(deadline, fetched), modern, legacy, rewriteChanges);
    }
  }

  /** Despite rounding up at both levels, the whole transfer, legacy retry included, ends less than two seconds after
      the deadline, less than one without the retry, and no command is started without time. */
  lemma TransferEndsInTime(
    now: int, timeout: int, fastFail: bool, probe: Stage, fetch: Stage, modern: Stage, legacy: Stage,
    rewriteChanges: bool)
    requires HonoursDuration(probe) && HonoursSeconds(fetch) && HonoursSeconds(modern) && HonoursSeconds(legacy)
    requires timeout > 0
    ensures var r := DownloadToRemote(now, timeout, fastFail, probe, fetch, modern, legacy, rewriteChanges);
      InTime(r, now, now + timeout * SECOND)
  {
    var deadline := now + timeout * SECOND;
    assert now < deadline;
    if fastFail {
      ProbeEndsInTime(now, deadline, probe);
      FetchAndCopyEndsInTime(deadline, ProbeEnd(now, deadline, probe), fetch, modern, legacy, rewriteChanges);
    } else {
      FetchAndCopyEndsInTime(deadline, now, fetch, modern, legacy, rewriteChanges);
    }
  }

  /** The two seconds are needed: for every timeout there are stages that honour theirs and end two nanoseconds short.
      */
  lemma BoundIsTight(now: int, timeout: int) returns (fetch: Stage, modern: Stage, legacy: Stage)
    requires timeout > 0
    ensures HonoursSeconds(fetch) && HonoursSeconds(modern) && HonoursSeconds(legacy)
    ensures DownloadToRemote(now, timeout, false, fetch, fetch, modern, legacy, true).end ==
      now + timeout * SECOND + 2 * SECOND - 2
  {
    fetch := (s: int) => Attempt(if s > 0 then s * SECOND - 1 else 0, true, false);
    modern := (s: int) => Attempt(if s > 0 then s * SECOND - 1 else 0, false, true);
    legacy := (s: int) => Attempt(if s > 0 then s * SECOND else 0, true, false);
    var deadline := now + timeout * SECOND;
    assert RemainingSeconds(deadline, now) == timeout;
    var fetched := now + (timeout * SECOND - 1);
    assert RemainingSeconds(deadline, fetched) == 1;
    assert RemainingSeconds(fetched + SECOND, fetched + (SECOND - 1)) == 1;
  }

  // ---- Which stages run ----

  /** The copy: a second command exactly if the first failed with the hint, the rewrite changed the command and time was
      left; it gets what is left, rounded up. */
  lemma CopyStages(now: int, timeout: int, modern: Stage, legacy: Stage, rewriteChanges: bool)
    ensures var r := ScpWithFallback(now, timeout, modern, legacy, rewriteChanges);
      var first := modern(timeout);
      var left := timeout * SECOND - first.elapsed;
      var again := !first.success && first.legacyHint && rewriteChanges && left > 0;
      && (timeout <= 0 ==> r.started == [] && r.end == now)
      && (timeout > 0 && !again ==> r.started == [timeout] && r.end == now + first.elapsed)
      && (timeout > 0 && again ==>
            && |r.started| == 2 && r.started[0] == timeout
            && (r.started[1] - 1) * SECOND < left <= r.started[1] * SECOND
            && r.end == now + first.elapsed + legacy(r.started[1]).elapsed)
  {
    var deadline := now + timeout * SECOND;
    if timeout > 0 {
      assert RemainingSeconds(deadline, now) == timeout;
    }
  }

  /** `left` nanoseconds in whole seconds, rounded up. */
  predicate RoundsUp(seconds: int, left: int) {
    (seconds - 1) * SECOND < left <= seconds * SECOND
  }

  /** Fetching and copying: nothing without time; only the fetch if it fails or takes all the time; else the copy, which
      gets what is left, rounded up. */
  lemma FetchStages(deadline: int, now: int, fetch: Stage, modern: Stage, legacy: Stage, rewriteChanges: bool)
    ensures var r := FetchAndCopy(deadline, now, fetch, modern, legacy, rewriteChanges);
      && (deadline <= now ==> r.started == [] && r.end == now)
      && (now < deadline ==>
            && |r.started| >= 1 && RoundsUp(r.started[0], deadline - now)
            && var first := fetch(r.started[0]);
               var fetched := now + first.elapsed;
               && (!first.success || deadline <= fetched ==> r.started == [r.started[0]] && r.end == fetched)
               && (first.success && fetched < deadline ==>
                     && |r.started| >= 2 && RoundsUp(r.started[1], deadline - fetched)
                     && var copy := ScpWithFallback(fetched, r.started[1], modern, legacy, rewriteChanges);
                        r.end == copy.end && r.started[1..] == copy.started))
  {
    if now < deadline {
      var seconds := RemainingSeconds(deadline, now);
      var fetched := now + fetch(seconds).elapsed;
      var left := RemainingSeconds(deadline, fetched);
      CopyStages(fetched, left, modern, legacy, rewriteChanges);
    }
  }

  /** The transfer: nothing for a timeout that is not positive; nothing but the probe if that was asked for and fails;
      else fetching and copying from then on, against the one deadline. */
  lemma TransferStages(
    now: int, timeout: int, fastFail: bool, probe: Stage, fetch: Stage, modern: Stage, legacy: Stage,
    rewriteChanges: bool)
    ensures var r := DownloadToRemote(now, timeout, fastFail, probe, fetch, modern, legacy, rewriteChanges);
      var deadline, probed := now + timeout * SECOND, probe(ProbeTimeout(timeout * SECOND));
      && (timeout <= 0 ==> r.started == [] && r.end == now)
      && (timeout > 0 && fastFail && !probed.success ==> r.started == [] && r.end == now + probed.elapsed)
      && (timeout > 0 && fastFail && probed.success ==>
            r == FetchAndCopy(deadline, now + probed.elapsed, fetch, modern, legacy, rewriteChanges))
      && (timeout > 0 && !fastFail ==> r == FetchAndCopy(deadline, now, fetch, modern, legacy, rewriteChanges))
  {
    if timeout > 0 {
      assert RemainingBudget(now + timeout * SECOND, now) == timeout * SECOND;
    }
  }
}
