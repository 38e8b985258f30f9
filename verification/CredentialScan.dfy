/**
 * Which hosts the scan after a success is right for. A host with glob characters makes a pattern that misses its own
 * records, or deletes those of other hosts.
 */
module CredentialScan {
  import opened RedisGlob
  import opened CredentialCache

  // ---- Exactness ----

  /** The scan finds the failure keys of this task and host and no others. */
  ghost predicate Exact(task: string, host: string) {
    forall task', host', credential :: ':' !in task' && NoMarker(host') ==>
      (Scanned(task, host, FailureKey(task', host', credential)) <==> task' == task && host' == host)
  }

  function HostPrefix(task: string): string {
    "collect:task:" + (task + ":host:")
  }

  const TAIL := MARKER + (":*" + FAILURE)

  function KeyTail(credential: string): string {
    MARKER + (":" + (credential + FAILURE))
  }

  lemma TailIsPlain()
    ensures PlainTail(TAIL) && TAIL[0] == ':' && TAIL[1..] == "credential:*" + FAILURE
  {
  }

  /** The part before the host is literal, so what counts is the host's pattern against the host's text. */
  lemma ScanOfTask(task: string, host: string, host': string, credential: string)
    requires GlobFree(task)
    ensures Scanned(task, host, FailureKey(task, host', credential))
       <==> Match(Compile(host + TAIL), host' + KeyTail(credential))
  {
    var a, p, x := HostPrefix(task), host + TAIL, host' + KeyTail(credential);
    assert FailurePattern(task, host) == a + p && FailureKey(task, host', credential) == a + x;
    assert GlobFree("collect:task:") && GlobFree(":host:");
    assert GlobFree(task + ":host:");
    LiteralCompiles(a, p);
    LiteralMatches(a, Compile(p), a + x);
    assert (a + x)[..|a|] == a && (a + x)[|a|..] == x;
  }

  lemma TailMatches(x: string)
    ensures Match(Compile(TAIL), x) ==> StartsWith(x, MARKER)
    ensures Match(Compile(TAIL[1..]), x) ==> StartsWith(x, MARKER[1..])
  {
    TailIsPlain();
    var rest := ":*" + FAILURE;
    assert TAIL == MARKER + rest && TAIL[1..] == MARKER[1..] + rest;
    LiteralCompiles(MARKER, rest);
    LiteralMatches(MARKER, Compile(rest), x);
    LiteralCompiles(MARKER[1..], rest);
    LiteralMatches(MARKER[1..], Compile(rest), x);
  }

  lemma TailAccepts(credential: string)
    ensures Match(Compile(TAIL), KeyTail(credential))
  {
    var a := MARKER + ":";
    assert TAIL == a + ("*" + FAILURE) && KeyTail(credential) == a + (credential + FAILURE);
    assert GlobFree(a) && GlobFree(FAILURE);
    StarPattern(a, FAILURE, KeyTail(credential));
  }

  // ---- A pattern that is too short for its own host ----

  /** With fewer tokens than characters before the tail, the tail would have to begin inside the host. */
  lemma TailInsideHost(host: string, n: nat, x: string)
    requires NoMarker(host) && n < |host|
    ensures !StartsWith((host + (MARKER + x))[n..], MARKER)
  {
    var g := host[..n];
    var s := host + (MARKER + x);
    LongerDiffers(host, x, g);
    assert s[..n + |MARKER|] == g + s[n..][..|MARKER|];
    assert |g + MARKER| == n + |MARKER|;
  }

  lemma MissesWhole(host: string, ts: seq<Token>, credential: string)
    requires NoMarker(host) && Singles(ts) && |ts| < |host|
    ensures !Match(ts + Compile(TAIL), host + KeyTail(credential))
  {
    var s := host + KeyTail(credential);
    SinglesMatch(ts, Compile(TAIL), s);
    TailMatches(s[|ts|..]);
    TailInsideHost(host, |ts|, ":" + (credential + FAILURE));
  }

  lemma MarkerSplits(s: string, n: nat)
    requires 0 < n <= |s| && s[n - 1] == ':' && StartsWith(s[n..], MARKER[1..])
    ensures StartsWith(s[n - 1..], MARKER)
  {
    assert s[n - 1..][..|MARKER|] == [s[n - 1]] + s[n..][..|MARKER| - 1] == [':'] + MARKER[1..] == MARKER;
  }

  lemma MissesEscaped(host: string, ts: seq<Token>, credential: string)
    requires NoMarker(host) && Singles(ts) && 0 < |ts| <= |host| && ts[|ts| - 1] == Exactly(':')
    ensures !Match(ts + Compile(TAIL[1..]), host + KeyTail(credential))
  {
    var s, n := host + KeyTail(credential), |ts|;
    SinglesMatch(ts, Compile(TAIL[1..]), s);
    TailMatches(s[n..]);
    TailInsideHost(host, n - 1, ":" + (credential + FAILURE));
    if Match(ts + Compile(TAIL[1..]), s) {
      assert Accepts(ts[n - 1], s[n - 1]);
      MarkerSplits(s, n);
      assert false;
    }
  }

  lemma MissesSwallowed(host: string, ts: seq<Token>, credential: string)
    requires Singles(ts) && |ts| <= |host|
    ensures !Match(ts + [], host + KeyTail(credential))
  {
    SinglesMatch(ts, [], host + KeyTail(credential));
  }

  lemma OnePerCharIsUnescaped(host: string, ts: seq<Token>)
    requires |ts| == |host| && OnePerChar(host, ts)
    ensures '[' !in host && '\\' !in host
  {
    assert forall i :: 0 <= i < |host| ==> OneChar(host[i], ts[i]);
  }

  /** A class or an escape, with no `*`: the scan misses the host's own failure records. So it does for a bracketed IPv6
      address. */
  lemma UnstarredMissesItself(task: string, host: string, credential: string)
    requires GlobFree(task) && NoMarker(host) && '*' !in host && ('[' in host || '\\' in host)
    ensures !Scanned(task, host, FailureKey(task, host, credential))
  {
    TailIsPlain();
    var shape, ts, more := ShapeOf(host, TAIL);
    ScanOfTask(task, host, host, credential);
    match shape
    case Whole =>
      if |ts| == |host| {
        OnePerCharIsUnescaped(host, ts);
        assert false;
      }
      MissesWhole(host, ts, credential);
    case Escaped => MissesEscaped(host, ts, credential);
    case Swallowed => MissesSwallowed(host, ts, credential);
    case Starred => assert false;
  }

  // ---- A pattern that reaches other hosts ----

  lemma MarkerHasNo(i: nat)
    requires i < |MARKER|
    ensures MARKER[i] != 'x'
  {
  }

  /** Putting an `x` in, or in place of another character, makes no marker. */
  lemma InsertedIsUnmarked(host: string, n: nat, other: string)
    requires NoMarker(host) && n < |host|
    requires other == host[..n] + "x" + host[n..] || other == host[..n] + "x" + host[n + 1..]
    ensures NoMarker(other)
  {
    var shift, m := |other| - |host|, |MARKER|;
    assert other[n] == 'x';
    assert forall j :: 0 <= j < n ==> other[j] == host[j];
    assert forall j :: n < j < |other| ==> other[j] == host[j - shift];
    forall i {:trigger other[i..]} | 0 <= i <= |other| ensures !StartsWith(other[i..], MARKER) {
      if i + m <= n {
        SameSlice(host, i, other, i, m);
        assert !StartsWith(host[i..], MARKER);
      } else if n < i <= |other| - m {
        SameSlice(host, i - shift, other, i, m);
        assert !StartsWith(host[i - shift..], MARKER);
      } else if i <= n && i + m <= |other| {
        MarkerHasNo(n - i);
        assert other[i..][..m][n - i] == 'x';
      }
    }
  }

  lemma SameSlice(s: string, i: nat, t: string, j: nat, m: nat)
    requires i + m <= |s| && j + m <= |t| && forall k :: j <= k < j + m ==> t[k] == s[k - j + i]
    ensures s[i..][..m] == t[j..][..m]
  {
    forall k | 0 <= k < m ensures s[i..][..m][k] == t[j..][..m][k] {
      assert t[j + k] == s[j + k - j + i];
    }
  }

  lemma StarReachesLonger(host: string, ts: seq<Token>, more: seq<Token>, x: string, other: string)
    requires Singles(ts) && |ts| < |host| && more != [] && more[0].AnyRun? && Match(ts + more, host + x)
    requires other == host[..|ts|] + "x" + host[|ts|..]
    ensures Match(ts + more, other + x)
  {
    var n, s, s' := |ts|, host + x, other + x;
    SinglesMatch(ts, more, s);
    SinglesMatch(ts, more, s');
    assert forall i :: 0 <= i < n ==> s'[i] == s[i];
    assert s'[n..] == "x" + s[n..] && s'[n..][1..] == s[n..];
  }

  lemma QuestionReachesOther(host: string, ts: seq<Token>, k: nat, credential: string, other: string)
    requires |ts| == |host| && OnePerChar(host, ts) && k < |host| && host[k] == '?'
    requires other == host[..k] + "x" + host[k + 1..]
    ensures Match(ts + Compile(TAIL), other + KeyTail(credential))
  {
    var s := other + KeyTail(credential);
    forall i | 0 <= i < |ts| ensures !ts[i].AnyRun? && Accepts(ts[i], s[i]) {
      assert OneChar(host[i], ts[i]);
      assert i != k ==> s[i] == host[i];
      assert i == k ==> ts[i] == AnyOne;
    }
    SinglesMatch(ts, Compile(TAIL), s);
    assert s[|ts|..] == KeyTail(credential);
    TailAccepts(credential);
  }

  lemma ReachesOther(task: string, host: string, other: string)
    requires PlainTask(task) && NoMarker(other) && other != host && Match(Compile(host + TAIL), other + KeyTail(""))
    ensures !Exact(task, host)
  {
    ScanOfTask(task, host, other, "");
    assert Scanned(task, host, FailureKey(task, other, ""));
  }

  lemma MissesOwn(task: string, host: string)
    requires PlainTask(task) && NoMarker(host) && !Match(Compile(host + TAIL), host + KeyTail(""))
    ensures !Exact(task, host)
  {
    ScanOfTask(task, host, host, "");
    assert !Scanned(task, host, FailureKey(task, host, ""));
  }

  lemma QuestionIsInexact(task: string, host: string, ts: seq<Token>)
    requires PlainTask(task) && NoMarker(host) && !GlobFree(host)
    requires |ts| == |host| && OnePerChar(host, ts) && Compile(host + TAIL) == ts + Compile(TAIL)
    ensures !Exact(task, host)
  {
    forall i | 0 <= i < |host| ensures OneChar(host[i], ts[i]) {}
    var k :| 0 <= k < |host| && host[k] == '?';
    var other := host[..k] + "x" + host[k + 1..];
    InsertedIsUnmarked(host, k, other);
    assert other[k] == 'x';
    QuestionReachesOther(host, ts, k, "", other);
    ReachesOther(task, host, other);
  }

  lemma StarIsInexact(task: string, host: string, ts: seq<Token>, more: seq<Token>)
    requires PlainTask(task) && NoMarker(host) && Compile(host + TAIL) == ts + more
    requires Singles(ts) && |ts| < |host| && more != [] && more[0].AnyRun?
    ensures !Exact(task, host)
  {
    if Match(Compile(host + TAIL), host + KeyTail("")) {
      var other := host[..|ts|] + "x" + host[|ts|..];
      InsertedIsUnmarked(host, |ts|, other);
      StarReachesLonger(host, ts, more, KeyTail(""), other);
      assert |other| == |host| + 1;
      ReachesOther(task, host, other);
    } else {
      MissesOwn(task, host);
    }
  }

  lemma GlobHostIsInexact(task: string, host: string)
    requires PlainTask(task) && NoMarker(host) && !GlobFree(host)
    ensures !Exact(task, host)
  {
    TailIsPlain();
    var shape, ts, more := ShapeOf(host, TAIL);
    match shape
    case Whole =>
      if |ts| == |host| {
        QuestionIsInexact(task, host, ts);
      } else {
        MissesWhole(host, ts, "");
        MissesOwn(task, host);
      }
    case Escaped =>
      MissesEscaped(host, ts, "");
      MissesOwn(task, host);
    case Swallowed =>
      MissesSwallowed(host, ts, "");
      MissesOwn(task, host);
    case Starred => StarIsInexact(task, host, ts, more);
  }

  /** The scan is exact for a host if and only if the host has no glob characters. */
  lemma ScanIsExactExactlyWhen(task: string, host: string)
    requires PlainTask(task) && NoMarker(host)
    ensures Exact(task, host) <==> GlobFree(host)
  {
    if GlobFree(host) {
      forall task', host', credential | ':' !in task' && NoMarker(host')
        ensures Scanned(task, host, FailureKey(task', host', credential)) <==> task' == task && host' == host
      {
        PatternIsExact(task', host', credential, task, host);
      }
    } else {
      GlobHostIsInexact(task, host);
    }
  }

  // ---- What follows for credentials ----

  /** After a failure and a success on such a host the credential is still cooled. */
  lemma StillCooledAfterSuccess(redis: Redis, failed: Op, ok: Op, at: nat, later: nat)
    requires failed.MarkFailure? && ok.MarkSuccess? && failed.task == ok.task && failed.host == ok.host
    requires GlobFree(ok.task) && NoMarker(ok.host) && '*' !in ok.host && ('[' in ok.host || '\\' in ok.host)
    requires later < at + CooldownSeconds(failed.level)
    ensures Cooled(Applied(Applied(redis, failed, at), ok, later), failed.task, failed.host, failed.credential, later)
  {
    var key := FailureKey(failed.task, failed.host, failed.credential);
    UnstarredMissesItself(ok.task, ok.host, failed.credential);
    SuccessIsNoFailure(ok.task, ok.host);
    assert key[|key| - 8..] == FAILURE;
  }

  lemma {:induction false} StarMatchesAll(x: string, credential: string)
    ensures Match(Compile("*" + TAIL), x + KeyTail(credential))
    decreases |x|
  {
    var p, tail := "*" + TAIL, KeyTail(credential);
    assert p[1..] == TAIL && Compile(p)[1..] == Compile(TAIL);
    if x == "" {
      TailAccepts(credential);
      assert x + tail == tail;
    } else {
      StarMatchesAll(x[1..], credential);
      assert (x + tail)[1..] == x[1..] + tail;
    }
  }

  /** And a success on the host `*` deletes the failure records of every host of the task. */
  lemma StarClearsEveryHost(redis: Redis, ok: Op, now: nat, host: string, credential: string)
    requires ok.MarkSuccess? && GlobFree(ok.task) && ok.host == "*"
    ensures !Cooled(Applied(redis, ok, now), ok.task, host, credential, now)
  {
    ScanOfTask(ok.task, "*", host, credential);
    StarMatchesAll(host, credential);
  }
}
