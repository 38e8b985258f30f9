/**
 * The cache of which credential last worked for a host and which ones are cooling down after a failure. Redis is a map
 * from key text to a value with an expiry; time is in seconds.
 */
module CredentialCache {
  import opened RedisGlob

  // ---- Keys ----

  function SuccessKey(task: string, host: string): string {
    "collect:task:" + (task + (":host:" + (host + ":success")))
  }

  const FAILURE := ":failure"
  const MARKER := ":credential"

  /** The fixed part of the failure keys of a task and host. */
  function FailurePrefix(task: string, host: string): string {
    "collect:task:" + (task + (":host:" + (host + (MARKER + ":"))))
  }

  function FailureKey(task: string, host: string, credential: string): string {
    FailurePrefix(task, host) + (credential + FAILURE)
  }

  /** The pattern that the scan after a success deletes by. */
  function FailurePattern(task: string, host: string): string {
    FailurePrefix(task, host) + ("*" + FAILURE)
  }

  predicate Scanned(task: string, host: string, key: string) {
    Glob(FailurePattern(task, host), key)
  }

  /** The fixed part, then anything, then `:failure`. */
  predicate Matches(key: string, prefix: string) {
    && |prefix| + |FAILURE| <= |key|
    && key[..|prefix|] == prefix
    && key[|key| - |FAILURE|..] == FAILURE
  }

  predicate PlainTask(task: string) {
    ':' !in task && GlobFree(task)
  }

  /** Colons as in bare IPv6 addresses are fine; the text that separates host and credential is not. */
  predicate NoMarker(host: string) {
    forall i {:trigger host[i..]} :: 0 <= i <= |host| ==> !StartsWith(host[i..], MARKER)
  }

  predicate PlainHost(host: string) {
    NoMarker(host) && GlobFree(host)
  }

  lemma ColonDiffers(a: string, x: string, b: string, y: string)
    requires ':' !in b && |a| < |b|
    ensures !StartsWith(a + (":" + x), b + (":" + y))
  {
    var s, p := a + (":" + x), b + (":" + y);
    assert p[|a|] == b[|a|];
    assert |p| <= |s| ==> s[..|p|][|a|] == ':';
  }

  /** The part up to the first colon is the same in a text and in what it starts with. */
  lemma ColonEnds(a: string, x: string, b: string, y: string)
    requires ':' !in a && ':' !in b && StartsWith(a + (":" + x), b + (":" + y))
    ensures a == b && StartsWith(x, y)
  {
    var s, p := a + (":" + x), b + (":" + y);
    assert forall i :: 0 <= i < |p| ==> s[i] == s[..|p|][i] == p[i];
    assert s[|b|] == ':';
    if |a| < |b| {
      ColonDiffers(a, x, b, y);
      assert false;
    }
    assert a == s[..|a|] == p[..|b|] == b;
    assert s[|a| + 1..] == x && p[|a| + 1..] == y;
    assert x[..|y|] == s[|a| + 1..|p|] == p[|a| + 1..] == y;
  }

  lemma MarkerHasOneColon(i: nat)
    requires 1 <= i <= 10
    ensures |MARKER| == 11 && MARKER[0] == ':' && MARKER[i] != ':'
  {
  }

  lemma LongerDiffers(h: string, x: string, g: string)
    requires NoMarker(h) && |g| < |h|
    ensures !StartsWith(h + (MARKER + x), g + MARKER)
  {
    var s, p := h + (MARKER + x), g + MARKER;
    var n := |h| - |g|;
    assert |MARKER| == 11 && |p| <= |s|;
    if n >= 11 {
      assert !StartsWith(h[|g|..], MARKER);
      assert h[|g|..][..11] == s[..|p|][|g|..];
      assert p[|g|..] == MARKER;
    } else {
      MarkerHasOneColon(n);
      assert s[..|p|][|h|] == MARKER[0] && p[|h|] == MARKER[n];
    }
  }

  lemma ShorterDiffers(h: string, x: string, g: string)
    requires NoMarker(g) && |h| < |g|
    ensures !StartsWith(h + (MARKER + x), g + MARKER)
  {
    var s, p := h + (MARKER + x), g + MARKER;
    var n := |g| - |h|;
    assert |MARKER| == 11;
    if |p| <= |s| {
      if n >= 11 {
        assert !StartsWith(g[|h|..], MARKER);
        assert g[|h|..][..11] == p[|h|..|h| + 11];
        assert s[..|p|][|h|..|h| + 11] == MARKER;
      } else {
        MarkerHasOneColon(n);
        assert s[..|p|][|g|] == MARKER[n] && p[|g|] == MARKER[0];
      }
    }
  }

  lemma HostEnds(h: string, x: string, g: string)
    requires NoMarker(h) && NoMarker(g) && StartsWith(h + (MARKER + x), g + MARKER)
    ensures h == g
  {
    var s, p := h + (MARKER + x), g + MARKER;
    if |g| < |h| {
      LongerDiffers(h, x, g);
      assert false;
    } else if |h| < |g| {
      ShorterDiffers(h, x, g);
      assert false;
    }
    assert h == s[..|p|][..|h|] == p[..|g|] == g;
  }

  lemma PrefixCut(a: string, s: string, p: string)
    requires StartsWith(a + s, a + p)
    ensures StartsWith(s, p)
  {
    assert s[..|p|] == (a + s)[..|a + p|][|a|..] == (a + p)[|a|..] == p;
  }

  lemma PrefixOf(s: string, p: string, q: string)
    requires StartsWith(s, p + q)
    ensures StartsWith(s, p)
  {
    assert s[..|p|] == s[..|p + q|][..|p|] == p;
  }

  /** A failure key begins with the fixed part of a task and host only if it is theirs. */
  lemma PrefixTells(task: string, host: string, credential: string, task': string, host': string)
    requires ':' !in task && ':' !in task' && NoMarker(host) && NoMarker(host')
    requires StartsWith(FailureKey(task, host, credential), FailurePrefix(task', host'))
    ensures task == task' && host == host'
  {
    var tail := ":" + (credential + FAILURE);
    var rest, rest' := "host:" + (host + (MARKER + tail)), "host:" + (host' + (MARKER + ":"));
    assert FailureKey(task, host, credential) == "collect:task:" + (task + (":" + rest));
    assert FailurePrefix(task', host') == "collect:task:" + (task' + (":" + rest'));
    PrefixCut("collect:task:", task + (":" + rest), task' + (":" + rest'));
    ColonEnds(task, rest, task', rest');
    PrefixCut("host:", host + (MARKER + tail), host' + (MARKER + ":"));
    assert host' + (MARKER + ":") == (host' + MARKER) + ":";
    PrefixOf(host + (MARKER + tail), host' + MARKER, ":");
    HostEnds(host, tail, host');
  }

  lemma PrefixIsGlobFree(task: string, host: string)
    requires GlobFree(task) && GlobFree(host)
    ensures GlobFree(FailurePrefix(task, host)) && GlobFree(FAILURE)
  {
    var rest := host + (MARKER + ":");
    assert GlobFree("collect:task:") && GlobFree(":host:") && GlobFree(MARKER + ":");
    assert GlobFree(rest);
    assert GlobFree(":host:" + rest);
    assert GlobFree(task + (":host:" + rest));
  }

  /** Without glob characters in task and host, the scan goes by prefix and suffix. */
  lemma ScanIsMatches(task: string, host: string, key: string)
    requires GlobFree(task) && GlobFree(host)
    ensures Scanned(task, host, key) <==> Matches(key, FailurePrefix(task, host))
  {
    PrefixIsGlobFree(task, host);
    StarPattern(FailurePrefix(task, host), FAILURE, key);
  }

  /** The scan after a success matches exactly the failure keys of that task and host. */
  lemma PatternIsExact(task: string, host: string, credential: string, task': string, host': string)
    requires ':' !in task && NoMarker(host) && PlainTask(task') && PlainHost(host')
    ensures Scanned(task', host', FailureKey(task, host, credential)) <==> task == task' && host == host'
  {
    var key, p := FailureKey(task, host, credential), FailurePrefix(task', host');
    ScanIsMatches(task', host', key);
    if task == task' && host == host' {
      assert key[..|p|] == p && key[|key| - |FAILURE|..] == FAILURE;
    } else if StartsWith(key, p) {
      PrefixTells(task, host, credential, task', host');
      assert false;
    }
  }

  lemma FailureKeyTells(task: string, host: string, c: string, task': string, host': string, c': string)
    requires ':' !in task && ':' !in task' && NoMarker(host) && NoMarker(host')
    requires FailureKey(task, host, c) == FailureKey(task', host', c')
    ensures task == task' && host == host' && c == c'
  {
    var key, p := FailureKey(task', host', c'), FailurePrefix(task', host');
    assert key[..|p|] == p;
    PrefixTells(task, host, c, task', host');
    assert key[|p|..|key| - |FAILURE|] == c == c';
  }

  lemma SuccessKeyTells(task: string, host: string, task': string, host': string)
    requires ':' !in task && ':' !in task' && SuccessKey(task, host) == SuccessKey(task', host')
    ensures task == task' && host == host'
  {
    var rest, rest' := "host:" + (host + ":success"), "host:" + (host' + ":success");
    var key := SuccessKey(task, host);
    assert key == "collect:task:" + (task + (":" + rest)) == "collect:task:" + (task' + (":" + rest'));
    assert key[..|key|] == key;
    PrefixCut("collect:task:", task + (":" + rest), task' + (":" + rest'));
    ColonEnds(task, rest, task', rest');
    assert |rest| == |rest'| && rest[..|rest|] == rest;
    assert rest[5..|rest| - 8] == host && rest'[5..|rest| - 8] == host';
  }

  /** A success key ends differently from a failure key. */
  lemma SuccessIsNoFailure(task: string, host: string)
    ensures var key := SuccessKey(task, host); |key| >= 8 && key[|key| - 8..] != FAILURE
  {
    var key := SuccessKey(task, host);
    assert key[|key| - 8..] == ":success" && ":success"[1] == 's' && FAILURE[1] == 'f';
  }

  // ---- Values and time ----

  datatype Cell =
    | Worked(credential: string, expires: nat)
    | CooledDown(error: string, level: int, failures: int, nextRetryAt: string, expires: nat)

  type Redis = map<string, Cell>

  const SUCCESS_TTL: nat := 7 * 24 * 3600

  function CooldownSeconds(level: int): nat {
    (match level case 1 => 1 case 2 => 4 case _ => 24) * 3600
  }

  predicate Live(redis: Redis, key: string, now: nat) {
    key in redis && now < redis[key].expires
  }

  /** The credential that last worked, or "" for none. */
  function SuccessCredential(redis: Redis, task: string, host: string, now: nat): string {
    var key := SuccessKey(task, host);
    if Live(redis, key, now) && redis[key].Worked? then redis[key].credential else ""
  }

  predicate Cooled(redis: Redis, task: string, host: string, credential: string, now: nat) {
    Live(redis, FailureKey(task, host, credential), now)
  }

  // ---- Changes ----

  datatype Op =
    | MarkSuccess(task: string, host: string, credential: string)
    | MarkFailure(task: string, host: string, credential: string, error: string, level: int, failures: int,
                  nextRetryAt: string)
    | ClearSuccess(task: string, host: string)

  function Without(redis: Redis, pattern: string): Redis {
    map key | key in redis && !Glob(pattern, key) :: redis[key]
  }

  function Applied(redis: Redis, op: Op, now: nat): Redis {
    match op
    case MarkSuccess(task, host, credential) =>
      Without(redis[SuccessKey(task, host) := Worked(credential, now + SUCCESS_TTL)], FailurePattern(task, host))
    case MarkFailure(task, host, credential, error, level, failures, nextRetryAt) =>
      redis[FailureKey(task, host, credential) :=
        CooledDown(error, level, failures, nextRetryAt, now + CooldownSeconds(level))]
    case ClearSuccess(task, host) => redis - {SuccessKey(task, host)}
  }

  class CredentialStateCache {
    var redis: Redis

    constructor ()
      ensures redis == map[]
    {
      redis := map[];
    }

    method Success(task: string, host: string, credential: string, now: nat)
      modifies this
      ensures redis == Applied(old(redis), MarkSuccess(task, host, credential), now)
      ensures forall key :: key in redis ==> !Scanned(task, host, key)
      ensures forall key :: key in old(redis) && key != SuccessKey(task, host) && !Scanned(task, host, key) ==>
        key in redis && redis[key] == old(redis)[key]
      ensures !Scanned(task, host, SuccessKey(task, host)) ==>
        && SuccessKey(task, host) in redis
        && redis[SuccessKey(task, host)] == Worked(credential, now + 604_800)
    {
      redis := redis[SuccessKey(task, host) := Worked(credential, now + SUCCESS_TTL)];
      ghost var before := redis;
      var pattern := FailurePattern(task, host);
      var keys := set key | key in redis && Glob(pattern, key);
      while keys != {}
        invariant forall key :: key in keys ==> key in redis && Glob(pattern, key)
        invariant forall key :: key in before && (key in keys || !Glob(pattern, key)) ==>
          key in redis && redis[key] == before[key]
        invariant forall key :: key in redis ==> key in before && (key in keys || !Glob(pattern, key))
        decreases |keys|
      {
        var key :| key in keys;
        redis := redis - {key};
        keys := keys - {key};
      }
      assert redis == Without(before, pattern);
    }

    method Failure(task: string, host: string, credential: string, error: string, level: int, failures: int,
                   nextRetryAt: string, now: nat)
      modifies this
      ensures redis ==
        Applied(old(redis), MarkFailure(task, host, credential, error, level, failures, nextRetryAt), now)
      ensures FailureKey(task, host, credential) in redis
      ensures var cell := redis[FailureKey(task, host, credential)];
        && cell.CooledDown? && cell.error == error && cell.level == level && cell.failures == failures
        && cell.nextRetryAt == nextRetryAt
        && cell.expires == now + 3600 * (if level == 1 then 1 else if level == 2 then 4 else 24)
      ensures forall key :: key != FailureKey(task, host, credential) ==>
        (key in redis <==> key in old(redis)) && (key in redis ==> redis[key] == old(redis)[key])
    {
      var cell := CooledDown(error, level, failures, nextRetryAt, now + CooldownSeconds(level));
      redis := redis[FailureKey(task, host, credential) := cell];
    }

    method Clear(task: string, host: string)
      modifies this
      ensures redis == Applied(old(redis), ClearSuccess(task, host), 0)
    {
      redis := redis - {SuccessKey(task, host)};
    }
  }

  /** One hour, four hours, and a day for the third failure and after; any other level counts as a day too. */
  lemma CooldownHours(level: int)
    ensures CooldownSeconds(level) == 3600 * (if level == 1 then 1 else if level == 2 then 4 else 24)
  {
  }

  /** Clearing forgets what worked, and nothing else. */
  lemma ClearForgets(redis: Redis, task: string, host: string, now: nat, later: nat, key: string)
    ensures SuccessCredential(Applied(redis, ClearSuccess(task, host), now), task, host, later) == ""
    ensures key != SuccessKey(task, host) ==>
      var after := Applied(redis, ClearSuccess(task, host), now);
      (key in after <==> key in redis) && (key in redis ==> after[key] == redis[key])
  {
  }

  // ---- Over runs of operations ----

  datatype Timed = Timed(op: Op, now: nat)

  function After(redis: Redis, ops: seq<Timed>): Redis {
    if ops == [] then redis
    else Applied(After(redis, ops[..|ops| - 1]), ops[|ops| - 1].op, ops[|ops| - 1].now)
  }

  /** Keys tell task and host apart; where a scan goes by them, they have no glob characters. */
  predicate Plain(op: Op) {
    ':' !in op.task && NoMarker(op.host) && (op.MarkSuccess? ==> GlobFree(op.task) && GlobFree(op.host))
  }

  /** Marks the host's collection as successful, or this credential as failed. */
  predicate TouchesFailure(op: Op, task: string, host: string, credential: string) {
    && op.task == task && op.host == host
    && (op.MarkSuccess? || (op.MarkFailure? && op.credential == credential))
  }

  lemma FailureSurvives(redis: Redis, op: Op, now: nat, task: string, host: string, credential: string)
    requires Plain(op) && ':' !in task && NoMarker(host) && !TouchesFailure(op, task, host, credential)
    requires FailureKey(task, host, credential) in redis
    ensures var key := FailureKey(task, host, credential);
            key in Applied(redis, op, now) && Applied(redis, op, now)[key] == redis[key]
  {
    var key := FailureKey(task, host, credential);
    assert key[|key| - 8..] == FAILURE;
    SuccessIsNoFailure(op.task, op.host);
    match op
    case MarkSuccess(_, _, _) => PatternIsExact(task, host, credential, op.task, op.host);
    case MarkFailure(_, _, c, _, _, _, _) =>
      if FailureKey(op.task, op.host, c) == key {
        FailureKeyTells(task, host, credential, op.task, op.host, c);
      }
    case ClearSuccess(_, _) =>
  }

  /** A failed credential stays cooled until its cooldown ends, whatever else happens, short of a success on that host
      or another failure of that credential. */
  lemma {:induction false} CooldownLasts(
    redis: Redis, failed: Op, at: nat, ops: seq<Timed>, now: nat)
    requires failed.MarkFailure? && Plain(failed)
    requires forall i :: 0 <= i < |ops| ==>
      Plain(ops[i].op) && !TouchesFailure(ops[i].op, failed.task, failed.host, failed.credential)
    ensures var key := FailureKey(failed.task, failed.host, failed.credential);
            var later := After(Applied(redis, failed, at), ops);
            key in later && later[key].expires == at + CooldownSeconds(failed.level)
    ensures Cooled(After(Applied(redis, failed, at), ops), failed.task, failed.host, failed.credential, now)
       <==> now < at + CooldownSeconds(failed.level)
    decreases |ops|
  {
    if ops != [] {
      var init := ops[..|ops| - 1];
      CooldownLasts(redis, failed, at, init, now);
      FailureSurvives(After(Applied(redis, failed, at), init), ops[|ops| - 1].op, ops[|ops| - 1].now,
        failed.task, failed.host, failed.credential);
    }
  }

  /** Replaces or clears what worked for the host. */
  predicate TouchesSuccess(op: Op, task: string, host: string) {
    op.task == task && op.host == host && !op.MarkFailure?
  }

  lemma SuccessSurvives(redis: Redis, op: Op, now: nat, task: string, host: string)
    requires Plain(op) && ':' !in task && !TouchesSuccess(op, task, host)
    requires SuccessKey(task, host) in redis
    ensures var key := SuccessKey(task, host);
            key in Applied(redis, op, now) && Applied(redis, op, now)[key] == redis[key]
  {
    var key := SuccessKey(task, host);
    SuccessIsNoFailure(task, host);
    if op.MarkSuccess? {
      ScanIsMatches(op.task, op.host, key);
    }
    if SuccessKey(op.task, op.host) == key {
      SuccessKeyTells(op.task, op.host, task, host);
    }
    if op.MarkFailure? {
      var other := FailureKey(op.task, op.host, op.credential);
      assert other[|other| - 8..] == FAILURE;
    }
  }

  /** After a success no credential of that host is cooled, and none becomes so before it fails again. */
  lemma {:induction false} CooldownEnds(redis: Redis, ok: Op, at: nat, ops: seq<Timed>, credential: string)
    requires ok.MarkSuccess? && Plain(ok)
    requires forall i :: 0 <= i < |ops| ==>
      Plain(ops[i].op) && (TouchesFailure(ops[i].op, ok.task, ok.host, credential) ==> ops[i].op.MarkSuccess?)
    ensures FailureKey(ok.task, ok.host, credential) !in After(Applied(redis, ok, at), ops)
    decreases |ops|
  {
    var key := FailureKey(ok.task, ok.host, credential);
    if ops == [] {
      PatternIsExact(ok.task, ok.host, credential, ok.task, ok.host);
    } else {
      var op := ops[|ops| - 1].op;
      CooldownEnds(redis, ok, at, ops[..|ops| - 1], credential);
      assert key[|key| - 8..] == FAILURE;
      SuccessIsNoFailure(op.task, op.host);
      if op.MarkFailure? && FailureKey(op.task, op.host, op.credential) == key {
        FailureKeyTells(op.task, op.host, op.credential, ok.task, ok.host, credential);
      }
    }
  }

  /** What worked is remembered for seven days, unless something else works or it is cleared. */
  lemma {:induction false} SuccessLasts(redis: Redis, ok: Op, at: nat, ops: seq<Timed>, now: nat)
    requires ok.MarkSuccess? && Plain(ok)
    requires forall i :: 0 <= i < |ops| ==> Plain(ops[i].op) && !TouchesSuccess(ops[i].op, ok.task, ok.host)
    ensures var key := SuccessKey(ok.task, ok.host);
            var later := After(Applied(redis, ok, at), ops);
            key in later && later[key] == Worked(ok.credential, at + SUCCESS_TTL)
    ensures SuccessCredential(After(Applied(redis, ok, at), ops), ok.task, ok.host, now)
         == if now < at + SUCCESS_TTL then ok.credential else ""
    decreases |ops|
  {
    if ops == [] {
      SuccessIsNoFailure(ok.task, ok.host);
      ScanIsMatches(ok.task, ok.host, SuccessKey(ok.task, ok.host));
    } else {
      var init := ops[..|ops| - 1];
      SuccessLasts(redis, ok, at, init, now);
      SuccessSurvives(After(Applied(redis, ok, at), init), ops[|ops| - 1].op, ops[|ops| - 1].now, ok.task, ok.host);
    }
  }
}
