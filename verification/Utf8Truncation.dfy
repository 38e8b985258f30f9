/** Cutting text to a byte limit without splitting a character, and the notice put on truncated output. */
module Utf8Truncation {
  import opened OutputCapture

  // ---- Well-formed UTF-8, section 4 of RFC 3629 ----

  predicate Tail(b: Byte) {
    0x80 <= b <= 0xBF
  }

  /** The second byte allowed after a lead byte of a three- or four-byte sequence. */
  predicate SecondOk(lead: Byte, b: Byte) {
    && Tail(b)
    && (lead == 0xE0 ==> 0xA0 <= b)
    && (lead == 0xED ==> b <= 0x9F)
    && (lead == 0xF0 ==> 0x90 <= b)
    && (lead == 0xF4 ==> b <= 0x8F)
  }

  /** Length of the character at the start of `s`, or zero if there is none. */
  function CharLength(s: seq<Byte>): (n: nat)
    ensures n <= 4 && n <= |s|
  {
    if |s| >= 1 && s[0] <= 0x7F then 1
    else if |s| >= 2 && 0xC2 <= s[0] <= 0xDF && Tail(s[1]) then 2
    else if |s| >= 3 && 0xE0 <= s[0] <= 0xEF && SecondOk(s[0], s[1]) && Tail(s[2]) then 3
    else if |s| >= 4 && 0xF0 <= s[0] <= 0xF4 && SecondOk(s[0], s[1]) && Tail(s[2]) && Tail(s[3]) then 4
    else 0
  }

  predicate WellFormed(s: seq<Byte>) {
    s == [] || (CharLength(s) > 0 && WellFormed(s[CharLength(s)..]))
  }

  lemma CharLengthOfPrefix(s: seq<Byte>, n: nat)
    requires CharLength(s) <= n <= |s| && CharLength(s) > 0
    ensures CharLength(s[..n]) == CharLength(s)
  {
  }

  lemma {:induction false} WellFormedConcat(a: seq<Byte>, b: seq<Byte>)
    requires WellFormed(a) && WellFormed(b)
    ensures WellFormed(a + b)
  {
    if a == [] {
      assert a + b == b;
    } else {
      var n := CharLength(a);
      assert (a + b)[..|a|] == a;
      assert CharLength(a + b) == n;
      assert (a + b)[n..] == a[n..] + b;
      WellFormedConcat(a[n..], b);
    }
  }

  /** Well-formed text has a character boundary among any four neighbouring positions. */
  lemma {:induction false} BoundaryNear(s: seq<Byte>, limit: nat) returns (e: nat)
    requires WellFormed(s) && limit <= |s|
    ensures e <= limit <= e + 3 && WellFormed(s[..e])
    decreases |s|
  {
    var n := if s == [] then 0 else CharLength(s);
    if limit < n || s == [] {
      e := 0;
    } else {
      var e' := BoundaryNear(s[n..], limit - n);
      e := n + e';
      CharLengthOfPrefix(s, e);
      assert s[..e][n..] == s[n..][..e'];
    }
  }

  // ---- Truncation ----

  /** `e` is the longest well-formed prefix of `s` within `limit`. */
  predicate LongestPrefix(s: seq<Byte>, limit: nat, e: nat) {
    && e <= limit && e <= |s| && WellFormed(s[..e])
    && forall k :: e < k <= limit && k <= |s| ==> !WellFormed(s[..k])
  }

  method TruncateToByteLimit(value: seq<Byte>, limit: int) returns (r: seq<Byte>)
    ensures limit <= 0 ==> r == []
    ensures 0 < limit && |value| <= limit ==> r == value
    ensures 0 < limit < |value| ==> |r| <= |value| && r == value[..|r|] && LongestPrefix(value, limit, |r|)
    ensures r == Truncated(value, limit)
  {
    TruncatedIsLongest(value, limit);
    if limit <= 0 {
      return [];
    }
    if |value| <= limit {
      return value;
    }
    var end := limit;
    while end > 0 && !WellFormed(value[..end])
      invariant 0 <= end <= limit
      invariant forall k :: end < k <= limit ==> !WellFormed(value[..k])
    {
      end := end - 1;
    }
    assert WellFormed(value[..0]);
    LongestIsUnique(value, limit, end, |Truncated(value, limit)|);
    if end <= 0 {
      return [];
    }
    return value[..end];
  }

  function LongestFrom(value: seq<Byte>, end: nat): (e: nat)
    requires end <= |value|
    ensures e <= end && WellFormed(value[..e]) && forall k :: e < k <= end ==> !WellFormed(value[..k])
  {
    if end == 0 || WellFormed(value[..end]) then end else LongestFrom(value, end - 1)
  }

  function Truncated(value: seq<Byte>, limit: int): seq<Byte> {
    if limit <= 0 then [] else if |value| <= limit then value else value[..LongestFrom(value, limit)]
  }

  lemma TruncatedIsLongest(value: seq<Byte>, limit: int)
    ensures 0 < limit < |value| ==>
      |Truncated(value, limit)| <= |value| && Truncated(value, limit) == value[..|Truncated(value, limit)|]
      && LongestPrefix(value, limit, |Truncated(value, limit)|)
  {
  }

  lemma LongestIsUnique(s: seq<Byte>, limit: nat, a: nat, b: nat)
    requires LongestPrefix(s, limit, a) && LongestPrefix(s, limit, b)
    ensures a == b
  {
  }

  /** Never longer than the limit; well-formed whenever something was cut; and well-formed text loses at most three
      bytes below the limit. */
  lemma TruncationLosesLittle(value: seq<Byte>, limit: int)
    ensures 0 <= limit ==> |Truncated(value, limit)| <= limit
    ensures limit < |value| ==> WellFormed(Truncated(value, limit))
    ensures WellFormed(value) ==> WellFormed(Truncated(value, limit))
    ensures WellFormed(value) && 0 < limit <= |value| ==> limit - 3 <= |Truncated(value, limit)|
  {
    if WellFormed(value) && 0 < limit <= |value| {
      var e := BoundaryNear(value, limit);
      assert 0 < limit < |value| ==> e <= |Truncated(value, limit)|;
    }
  }

  // ---- The notice ----

  function Ascii(text: string): (r: seq<Byte>)
    ensures |r| == |text| && forall i :: 0 <= i < |r| ==> r[i] <= 0x7F
  {
    seq(|text|, i requires 0 <= i < |text| => if text[i] as int <= 0x7F then text[i] as int else 0x3F)
  }

  const NOTICE: seq<Byte> := Ascii("\n...[output truncated]")

  function AppendNotice(output: seq<Byte>, notice: seq<Byte>, limit: int): seq<Byte> {
    if limit <= 0 then notice
    else if |notice| >= limit then Truncated(notice, limit)
    else Truncated(output, limit - |notice|) + notice
  }

  function FormatCapturedOutput(stdout: seq<Byte>, stderr: seq<Byte>, snapshot: Snapshot): seq<Byte> {
    var output := stdout + stderr;
    if !snapshot.truncated then output else AppendNotice(output, NOTICE, snapshot.limit)
  }

  lemma {:induction false} AsciiIsWellFormed(s: seq<Byte>)
    requires forall i :: 0 <= i < |s| ==> s[i] <= 0x7F
    ensures WellFormed(s)
  {
    if s != [] {
      AsciiIsWellFormed(s[1..]);
    }
  }

  lemma NoticeIsLast(output: seq<Byte>, notice: seq<Byte>, limit: nat)
    requires 0 < limit
    ensures var r := AppendNotice(output, notice, limit);
      && |r| <= limit
      && (|notice| < limit ==> |notice| <= |r| && r[|r| - |notice|..] == notice && r[..|r| - |notice|] <= output)
      && (limit <= |notice| ==> r <= notice)
      && (|notice| < limit && |output| + |notice| <= limit ==> r == output + notice)
  {
    TruncatedIsPrefix(notice, limit);
    TruncatedIsPrefix(output, limit - |notice|);
  }

  lemma TruncatedIsPrefix(value: seq<Byte>, limit: int)
    ensures Truncated(value, limit) <= value && (0 <= limit ==> |Truncated(value, limit)| <= limit)
  {
    TruncationLosesLittle(value, limit);
  }

  lemma NoticedIsWellFormed(output: seq<Byte>, notice: seq<Byte>, limit: nat)
    requires 0 < limit && WellFormed(notice) && WellFormed(output)
    ensures WellFormed(AppendNotice(output, notice, limit))
    ensures |notice| < limit < |output| + |notice| ==> limit - 3 <= |AppendNotice(output, notice, limit)|
  {
    if |notice| < limit {
      TruncationLosesLittle(output, limit - |notice|);
      WellFormedConcat(Truncated(output, limit - |notice|), notice);
    } else {
      TruncationLosesLittle(notice, limit);
    }
  }

  /** Within the limit; ends in the notice when it fits; well-formed for a well-formed notice and output, of which all
      but at most three bytes of the room is kept. */
  lemma NoticeFits(output: seq<Byte>, notice: seq<Byte>, limit: nat)
    requires 0 < limit && WellFormed(notice)
    ensures var r := AppendNotice(output, notice, limit);
      && |r| <= limit
      && (|notice| < limit ==> |notice| <= |r| && r[|r| - |notice|..] == notice && r[..|r| - |notice|] <= output)
      && (limit <= |notice| ==> r <= notice)
      && (|notice| < limit && |output| + |notice| <= limit ==> r == output + notice)
      && (WellFormed(output) ==> WellFormed(r))
      && (WellFormed(output) && |notice| < limit < |output| + |notice| ==> limit - 3 <= |r|)
  {
    NoticeIsLast(output, notice, limit);
    if WellFormed(output) {
      NoticedIsWellFormed(output, notice, limit);
    }
  }

  /** Truncated output stays within the limit, and is well-formed whenever both streams are. */
  lemma FormattedOutputFits(stdout: seq<Byte>, stderr: seq<Byte>, snapshot: Snapshot)
    requires snapshot.truncated && 0 < snapshot.limit
    ensures var limit, r := snapshot.limit, FormatCapturedOutput(stdout, stderr, snapshot);
      && |r| <= limit
      && (|NOTICE| < limit ==>
          |NOTICE| <= |r| && r[|r| - |NOTICE|..] == NOTICE && r[..|r| - |NOTICE|] <= stdout + stderr)
      && (WellFormed(stdout) && WellFormed(stderr) ==> WellFormed(r))
      && (limit <= |NOTICE| ==> r <= NOTICE)
      && (|NOTICE| < limit && |stdout| + |stderr| + |NOTICE| <= limit ==> r == stdout + stderr + NOTICE)
      && (WellFormed(stdout) && WellFormed(stderr) && |NOTICE| < limit < |stdout| + |stderr| + |NOTICE| ==>
          limit - 3 <= |r|)
  {
    AsciiIsWellFormed(NOTICE);
    NoticeFits(stdout + stderr, NOTICE, snapshot.limit);
    if WellFormed(stdout) && WellFormed(stderr) {
      WellFormedConcat(stdout, stderr);
    }
  }

  /** From writes to the reported text: a capture of any writes formats to at most its limit once it has dropped a
      byte. */
  method CaptureAndFormat(requested: int, chunks: seq<Chunk>) returns (r: seq<Byte>)
    ensures var limit := if requested <= 0 then 1_048_576 else requested;
      var log, notice := Interleaved(chunks), Ascii("\n...[output truncated]");
      var kept := Project(FirstBytes(log, limit), Stdout) + Project(FirstBytes(log, limit), Stderr);
      if |log| <= limit then r == Project(log, Stdout) + Project(log, Stderr)
      else
        && |r| <= limit
        && (|notice| < limit ==> |notice| <= |r| && r[|r| - |notice|..] == notice && r[..|r| - |notice|] <= kept)
        && (limit <= |notice| ==> r <= notice)
        && (WellFormed(Project(FirstBytes(log, limit), Stdout)) && WellFormed(Project(FirstBytes(log, limit), Stderr))
            ==> WellFormed(r) && (|notice| < limit ==> limit - 3 <= |r|))
  {
    var s := CaptureAll(requested, chunks);
    CaptureConserves(s.limit, Interleaved(chunks));
    if s.truncated {
      FormattedOutputFits(s.stdout, s.stderr, s);
    }
    r := FormatCapturedOutput(s.stdout, s.stderr, s);
  }
}
