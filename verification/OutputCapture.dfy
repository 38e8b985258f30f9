/**
 * Bounded capture of two interleaved output streams that share one byte budget. The whole-input reading is simple:
 * keep the first `limit` bytes of the interleaved log and give each stream its own bytes of that prefix.
 */
module OutputCapture {

  type Byte = x: int | 0 <= x < 256

  datatype Stream = Stdout | Stderr

  datatype Tagged = Tagged(stream: Stream, byte: Byte)

  datatype Chunk = Chunk(stream: Stream, bytes: seq<Byte>)

  const DEFAULT_LIMIT := 1024 * 1024

  // ---- Whole-input specification ----

  function Tag(c: Chunk): seq<Tagged> {
    seq(|c.bytes|, i requires 0 <= i < |c.bytes| => Tagged(c.stream, c.bytes[i]))
  }

  /** The interleaved log of a sequence of writes. */
  function Interleaved(chunks: seq<Chunk>): seq<Tagged> {
    if chunks == [] then [] else Interleaved(chunks[..|chunks| - 1]) + Tag(chunks[|chunks| - 1])
  }

  function Project(log: seq<Tagged>, s: Stream): seq<Byte> {
    if log == [] then []
    else Project(log[..|log| - 1], s) + (if log[|log| - 1].stream == s then [log[|log| - 1].byte] else [])
  }

  function FirstBytes(log: seq<Tagged>, n: nat): seq<Tagged> {
    if |log| <= n then log else log[..n]
  }

  function Dropped(log: seq<Tagged>, n: nat): seq<Tagged> {
    if |log| <= n then [] else log[n..]
  }

  datatype Snapshot = Snapshot(
    stdout: seq<Byte>, stderr: seq<Byte>, limit: nat, used: nat, total: nat,
    stdoutDropped: nat, stderrDropped: nat, truncated: bool)

  /** What a capture must hold after the bytes of `log`. */
  function Captured(limit: nat, log: seq<Tagged>): Snapshot {
    var kept, lost := FirstBytes(log, limit), Dropped(log, limit);
    Snapshot(Project(kept, Stdout), Project(kept, Stderr), limit, |kept|, |log|,
             |Project(lost, Stdout)|, |Project(lost, Stderr)|, lost != [])
  }

  // ---- Facts about projections ----

  lemma {:induction false} ProjectConcat(a: seq<Tagged>, b: seq<Tagged>, s: Stream)
    ensures Project(a + b, s) == Project(a, s) + Project(b, s)
  {
    if b == [] {
      assert a + b == a;
    } else {
      var init := b[..|b| - 1];
      assert (a + b)[..|a + b| - 1] == a + init;
      ProjectConcat(a, init, s);
    }
  }

  lemma {:induction false} ProjectTag(c: Chunk, s: Stream)
    ensures Project(Tag(c), s) == if c.stream == s then c.bytes else []
    decreases |c.bytes|
  {
    if c.bytes != [] {
      var init := Chunk(c.stream, c.bytes[..|c.bytes| - 1]);
      assert Tag(c)[..|c.bytes| - 1] == Tag(init);
      ProjectTag(init, s);
      assert c.bytes == init.bytes + [c.bytes[|c.bytes| - 1]];
    }
  }

  lemma {:induction false} ProjectSizes(log: seq<Tagged>)
    ensures |Project(log, Stdout)| + |Project(log, Stderr)| == |log|
  {
    if log != [] {
      ProjectSizes(log[..|log| - 1]);
    }
  }

  function Min(a: int, b: int): int {
    if a < b then a else b
  }

  /** How many bytes of a write still fit. */
  function Kept(limit: nat, log: seq<Tagged>, p: seq<Byte>): (k: nat)
    ensures k <= |p|
  {
    if |log| >= limit then 0 else Min(|p|, limit - |log|)
  }

  lemma CutSplits(limit: nat, log: seq<Tagged>, t: seq<Tagged>, k: nat)
    requires k <= |t| && k == if |log| >= limit then 0 else Min(|t|, limit - |log|)
    ensures FirstBytes(log + t, limit) == FirstBytes(log, limit) + t[..k]
    ensures Dropped(log + t, limit) == Dropped(log, limit) + t[k..]
  {
    if |log| >= limit {
      assert (log + t)[..limit] == log[..limit] && (log + t)[limit..] == log[limit..] + t;
    } else if |log + t| > limit {
      assert (log + t)[..limit] == log + t[..k] && (log + t)[limit..] == t[k..];
    }
  }

  lemma WriteSplits(limit: nat, log: seq<Tagged>, c: Chunk)
    ensures var k := Kept(limit, log, c.bytes);
      && FirstBytes(log + Tag(c), limit) == FirstBytes(log, limit) + Tag(Chunk(c.stream, c.bytes[..k]))
      && Dropped(log + Tag(c), limit) == Dropped(log, limit) + Tag(Chunk(c.stream, c.bytes[k..]))
  {
    var k := Kept(limit, log, c.bytes);
    CutSplits(limit, log, Tag(c), k);
    assert Tag(c)[..k] == Tag(Chunk(c.stream, c.bytes[..k]));
    assert Tag(c)[k..] == Tag(Chunk(c.stream, c.bytes[k..]));
  }

  /** One write: each stream keeps what fits of its own bytes and counts the rest. */
  lemma WriteProjects(limit: nat, log: seq<Tagged>, c: Chunk, s: Stream)
    ensures var k := Kept(limit, log, c.bytes);
      && Project(FirstBytes(log + Tag(c), limit), s) ==
          Project(FirstBytes(log, limit), s) + (if c.stream == s then c.bytes[..k] else [])
      && Project(Dropped(log + Tag(c), limit), s) ==
          Project(Dropped(log, limit), s) + (if c.stream == s then c.bytes[k..] else [])
  {
    var k := Kept(limit, log, c.bytes);
    var head, rest := Chunk(c.stream, c.bytes[..k]), Chunk(c.stream, c.bytes[k..]);
    WriteSplits(limit, log, c);
    ProjectConcat(FirstBytes(log, limit), Tag(head), s);
    ProjectConcat(Dropped(log, limit), Tag(rest), s);
    ProjectTag(head, s);
    ProjectTag(rest, s);
  }

  /** How many bytes of a write the remaining budget admits. */
  function Room(s: Snapshot, c: Chunk): (k: nat)
    ensures k <= |c.bytes|
  {
    var room := if s.limit < s.used then 0 else s.limit - s.used;
    if |c.bytes| > room then room else |c.bytes|
  }

  function WrittenWith(s: Snapshot, c: Chunk, k: nat): Snapshot
    requires k <= |c.bytes|
  {
    var lost := |c.bytes| - k;
    s.(stdout := if c.stream == Stdout then s.stdout + c.bytes[..k] else s.stdout,
       stderr := if c.stream == Stderr then s.stderr + c.bytes[..k] else s.stderr,
       used := s.used + k,
       total := s.total + |c.bytes|,
       stdoutDropped := if c.stream == Stdout then s.stdoutDropped + lost else s.stdoutDropped,
       stderrDropped := if c.stream == Stderr then s.stderrDropped + lost else s.stderrDropped,
       truncated := s.truncated || lost > 0)
  }

  /** The effect of one write on the counters and buffers. */
  function Written(s: Snapshot, c: Chunk): Snapshot {
    WrittenWith(s, c, Room(s, c))
  }

  lemma RoomIsKept(limit: nat, log: seq<Tagged>, c: Chunk)
    ensures Room(Captured(limit, log), c) == Kept(limit, log, c.bytes)
  {
  }

  lemma WriteCounts(limit: nat, log: seq<Tagged>, c: Chunk, before: Snapshot, after: Snapshot)
    requires before == Captured(limit, log) && after == Captured(limit, log + Tag(c))
    ensures var k := Kept(limit, log, c.bytes);
      && after.used == before.used + k && after.total == before.total + |c.bytes|
      && (after.truncated <==> before.truncated || |c.bytes| > k)
  {
    WriteSplits(limit, log, c);
  }

  lemma WriteBuffers(limit: nat, log: seq<Tagged>, c: Chunk, before: Snapshot, after: Snapshot)
    requires before == Captured(limit, log) && after == Captured(limit, log + Tag(c))
    ensures var k := Kept(limit, log, c.bytes);
      && after.stdout == before.stdout + (if c.stream == Stdout then c.bytes[..k] else [])
      && after.stderr == before.stderr + (if c.stream == Stderr then c.bytes[..k] else [])
      && after.stdoutDropped == before.stdoutDropped + (if c.stream == Stdout then |c.bytes| - k else 0)
      && after.stderrDropped == before.stderrDropped + (if c.stream == Stderr then |c.bytes| - k else 0)
  {
    WriteProjects(limit, log, c, Stdout);
    WriteProjects(limit, log, c, Stderr);
  }

  lemma CaptureIsWritten(before: Snapshot, c: Chunk, k: nat, after: Snapshot)
    requires k <= |c.bytes| && after.limit == before.limit
    requires after.used == before.used + k && after.total == before.total + |c.bytes|
    requires after.truncated <==> before.truncated || |c.bytes| > k
    requires after.stdout == before.stdout + (if c.stream == Stdout then c.bytes[..k] else [])
    requires after.stderr == before.stderr + (if c.stream == Stderr then c.bytes[..k] else [])
    requires after.stdoutDropped == before.stdoutDropped + (if c.stream == Stdout then |c.bytes| - k else 0)
    requires after.stderrDropped == before.stderrDropped + (if c.stream == Stderr then |c.bytes| - k else 0)
    ensures WrittenWith(before, c, k) == after
  {
    assert before.stdout + [] == before.stdout && before.stderr + [] == before.stderr;
  }

  lemma WriteExtendsLog(limit: nat, log: seq<Tagged>, c: Chunk)
    ensures Written(Captured(limit, log), c) == Captured(limit, log + Tag(c))
  {
    var before, after := Captured(limit, log), Captured(limit, log + Tag(c));
    RoomIsKept(limit, log, c);
    WriteCounts(limit, log, c, before, after);
    WriteBuffers(limit, log, c, before, after);
    CaptureIsWritten(before, c, Kept(limit, log, c.bytes), after);
  }

  // ---- The incremental capture ----

  class SharedOutputCapture {
    const limit: nat
    var used: nat
    var stdout: seq<Byte>
    var stderr: seq<Byte>
    var totalWritten: nat
    var stdoutDropped: nat
    var stderrDropped: nat
    var truncated: bool
    ghost var log: seq<Tagged>

    function State(): Snapshot
      reads this
    {
      Snapshot(stdout, stderr, limit, used, totalWritten, stdoutDropped, stderrDropped, truncated)
    }

    ghost predicate Valid()
      reads this
    {
      State() == Captured(limit, log)
    }

    constructor (requested: int)
      ensures Valid() && log == []
      ensures limit == if requested <= 0 then 1_048_576 else requested
      ensures 0 < limit
    {
      limit := if requested <= 0 then DEFAULT_LIMIT else requested;
      used, totalWritten, stdoutDropped, stderrDropped := 0, 0, 0, 0;
      stdout, stderr, truncated := [], [], false;
      log := [];
    }

    /** The body of a write, counters and buffers only. */
    method Store(stream: Stream, p: seq<Byte>) returns (n: nat)
      modifies this`used, this`stdout, this`stderr, this`totalWritten, this`stdoutDropped, this`stderrDropped,
        this`truncated
      ensures n == |p| && State() == Written(old(State()), Chunk(stream, p))
    {
      totalWritten := totalWritten + |p|;
      var remaining := limit - used;
      if remaining < 0 {
        remaining := 0;
      }
      var kept := |p|;
      if kept > remaining {
        kept := remaining;
      }
      if kept > 0 {
        match stream {
          case Stdout => stdout := stdout + p[..kept];
          case Stderr => stderr := stderr + p[..kept];
        }
        used := used + kept;
      }
      var dropped := |p| - kept;
      if dropped > 0 {
        truncated := true;
        match stream {
          case Stdout => stdoutDropped := stdoutDropped + dropped;
          case Stderr => stderrDropped := stderrDropped + dropped;
        }
      }
      n := |p|;
    }

    /** Every byte is reported as written; the log grows by all of them, and the capture stays the one of its log. */
    method Write(stream: Stream, p: seq<Byte>) returns (n: nat)
      requires Valid()
      modifies this
      ensures Valid() && n == |p|
      ensures log == old(log) + Tag(Chunk(stream, p))
    {
      WriteExtendsLog(limit, log, Chunk(stream, p));
      n := Store(stream, p);
      log := log + Tag(Chunk(stream, p));
    }
  }

  /** Any sequence of writes into a fresh capture. */
  method CaptureAll(requested: int, chunks: seq<Chunk>) returns (s: Snapshot)
    ensures s == Captured(if requested <= 0 then 1_048_576 else requested, Interleaved(chunks))
  {
    var c := new SharedOutputCapture(requested);
    for i := 0 to |chunks|
      invariant c.Valid() && c.log == Interleaved(chunks[..i])
      invariant c.limit == if requested <= 0 then DEFAULT_LIMIT else requested
    {
      assert chunks[..i + 1][..i] == chunks[..i];
      var n := c.Write(chunks[i].stream, chunks[i].bytes);
    }
    assert chunks[..|chunks|] == chunks;
    s := c.State();
  }

  /** The budget holds, every byte is accounted for on its stream, and the flag tells whether any was dropped. */
  lemma CaptureConserves(limit: nat, log: seq<Tagged>)
    ensures var s := Captured(limit, log);
      && s.used <= limit
      && |s.stdout| + |s.stderr| == s.used
      && s.used + s.stdoutDropped + s.stderrDropped == s.total == |log|
      && s.stdout + Project(Dropped(log, limit), Stdout) == Project(log, Stdout)
      && s.stderr + Project(Dropped(log, limit), Stderr) == Project(log, Stderr)
      && (s.truncated <==> s.stdoutDropped + s.stderrDropped > 0)
      && (s.truncated <==> |log| > limit)
      && (s.truncated ==> s.used == limit)
  {
    var kept, lost := FirstBytes(log, limit), Dropped(log, limit);
    assert log == kept + lost;
    ProjectSizes(kept);
    ProjectSizes(lost);
    ProjectConcat(kept, lost, Stdout);
    ProjectConcat(kept, lost, Stderr);
  }

  lemma {:induction false} InterleavedConcat(a: seq<Chunk>, b: seq<Chunk>)
    ensures Interleaved(a + b) == Interleaved(a) + Interleaved(b)
    decreases |b|
  {
    if b == [] {
      assert a + b == a;
    } else {
      var init := b[..|b| - 1];
      assert (a + b)[..|a + b| - 1] == a + init;
      InterleavedConcat(a, init);
    }
  }

  lemma SplitWrite(s: Stream, x: seq<Byte>, y: seq<Byte>)
    ensures Interleaved([Chunk(s, x + y)]) == Interleaved([Chunk(s, x), Chunk(s, y)])
  {
    var two := [Chunk(s, x), Chunk(s, y)];
    assert two[..1] == [Chunk(s, x)] && two[..1][..0] == [] && [Chunk(s, x + y)][..0] == [];
    assert Tag(Chunk(s, x + y)) == Tag(Chunk(s, x)) + Tag(Chunk(s, y));
  }

  /** Splitting any write in two leaves the log, and so the capture, as it was. */
  lemma ChunkingIsIrrelevant(
    limit: nat, before: seq<Chunk>, s: Stream, x: seq<Byte>, y: seq<Byte>, after: seq<Chunk>)
    ensures var whole, split := before + [Chunk(s, x + y)] + after, before + [Chunk(s, x), Chunk(s, y)] + after;
      && Interleaved(whole) == Interleaved(split)
      && Captured(limit, Interleaved(whole)) == Captured(limit, Interleaved(split))
  {
    var one, two := [Chunk(s, x + y)], [Chunk(s, x), Chunk(s, y)];
    SplitWrite(s, x, y);
    InterleavedConcat(before, one);
    InterleavedConcat(before, two);
    InterleavedConcat(before + one, after);
    InterleavedConcat(before + two, after);
  }
}
