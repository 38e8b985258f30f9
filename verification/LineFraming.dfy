/**
 * Splitting an output stream into lines while it arrives in arbitrary chunks. The Python streamer and the Go log
 * writer are both measured against one split of the whole stream.
 */
module LineFraming {
  import opened OutputCapture

  const NL: Byte := 10
  const CR: Byte := 13

  // ---- The split of a whole stream ----

  /** Lines ended by a newline, without it, and what follows the last newline. */
  datatype Framing = Framing(lines: seq<seq<Byte>>, rest: seq<Byte>)

  function Frame(s: seq<Byte>): Framing {
    if s == [] then Framing([], [])
    else
      var f, b := Frame(s[..|s| - 1]), s[|s| - 1];
      if b == NL then Framing(f.lines + [f.rest], []) else Framing(f.lines, f.rest + [b])
  }

  /** All lines of a finished stream: an unfinished last line counts if it is not empty. */
  function LinesOf(s: seq<Byte>): seq<seq<Byte>> {
    var f := Frame(s);
    f.lines + (if f.rest == [] then [] else [f.rest])
  }

  function Joined(lines: seq<seq<Byte>>): seq<Byte> {
    if lines == [] then [] else Joined(lines[..|lines| - 1]) + lines[|lines| - 1] + [NL]
  }

  lemma {:induction false} FrameRejoins(s: seq<Byte>)
    ensures Joined(Frame(s).lines) + Frame(s).rest == s
  {
    if s != [] {
      var init, b := s[..|s| - 1], s[|s| - 1];
      FrameRejoins(init);
      var f := Frame(init);
      assert s == init + [b];
      if b == NL {
        assert (f.lines + [f.rest])[..|f.lines|] == f.lines;
        assert Joined(f.lines + [f.rest]) == Joined(f.lines) + f.rest + [NL];
      } else {
        assert Joined(f.lines) + (f.rest + [b]) == (Joined(f.lines) + f.rest) + [b];
      }
    }
  }

  lemma {:induction false} FrameHasNoNewline(s: seq<Byte>)
    ensures NL !in Frame(s).rest
    ensures forall i :: 0 <= i < |Frame(s).lines| ==> NL !in Frame(s).lines[i]
  {
    if s != [] {
      FrameHasNoNewline(s[..|s| - 1]);
    }
  }

  /** The split loses nothing and no line contains a newline. */
  lemma FrameRoundTrip(s: seq<Byte>)
    ensures Joined(Frame(s).lines) + Frame(s).rest == s
    ensures NL !in Frame(s).rest
    ensures forall i :: 0 <= i < |Frame(s).lines| ==> NL !in Frame(s).lines[i]
  {
    FrameRejoins(s);
    FrameHasNoNewline(s);
  }

  /** The lines of a whole stream are what lies between its newlines; a last line without one counts, an empty one does
      not. */
  lemma LinesRoundTrip(s: seq<Byte>)
    ensures forall i :: 0 <= i < |LinesOf(s)| ==> NL !in LinesOf(s)[i]
    ensures Joined(LinesOf(s)) == if s == [] || s[|s| - 1] == NL then s else s + [NL]
  {
    FrameRoundTrip(s);
    var f := Frame(s);
    if f.rest != [] {
      assert (f.lines + [f.rest])[..|f.lines|] == f.lines;
      assert s[|s| - 1] == f.rest[|f.rest| - 1];
    } else {
      assert LinesOf(s) == f.lines && Joined(f.lines) == s;
    }
  }

  lemma {:induction false} PlainFrame(s: seq<Byte>)
    requires NL !in s
    ensures Frame(s) == Framing([], s)
  {
    if s != [] {
      PlainFrame(s[..|s| - 1]);
      assert s == s[..|s| - 1] + [s[|s| - 1]];
    }
  }

  /** Only the unfinished line matters for what comes next. */
  lemma {:induction false} FrameContinues(a: seq<Byte>, b: seq<Byte>)
    ensures Frame(a + b) == Framing(Frame(a).lines + Frame(Frame(a).rest + b).lines, Frame(Frame(a).rest + b).rest)
  {
    var r := Frame(a).rest;
    if b == [] {
      FrameRoundTrip(a);
      PlainFrame(r);
      assert a + b == a && r + b == r;
    } else {
      var init := b[..|b| - 1];
      FrameContinues(a, init);
      assert (a + b)[..|a + b| - 1] == a + init;
      assert (r + b)[..|r + b| - 1] == r + init;
    }
  }

  lemma OneLine(line: seq<Byte>)
    requires NL !in line
    ensures Frame(line + [NL]) == Framing([line], [])
  {
    PlainFrame(line);
    assert (line + [NL])[..|line|] == line;
  }

  lemma FirstLine(s: seq<Byte>, i: nat)
    requires i < |s| && s[i] == NL && NL !in s[..i]
    ensures Frame(s) == Framing([s[..i]] + Frame(s[i + 1..]).lines, Frame(s[i + 1..]).rest)
  {
    var line, more := s[..i], s[i + 1..];
    assert s == (line + [NL]) + more;
    OneLine(line);
    FrameContinues(line + [NL], more);
    assert [] + more == more;
  }

  /** What a line reader has when it has taken `done` off the front of `whole` and still holds `held`. */
  predicate Reading(whole: seq<Byte>, done: seq<seq<Byte>>, held: seq<Byte>) {
    Frame(whole) == Framing(done + Frame(held).lines, Frame(held).rest)
  }

  lemma ReadLine(whole: seq<Byte>, done: seq<seq<Byte>>, held: seq<Byte>, i: nat)
    requires Reading(whole, done, held) && i < |held| && held[i] == NL && NL !in held[..i]
    ensures Reading(whole, done + [held[..i]], held[i + 1..])
  {
    FirstLine(held, i);
    var more := Frame(held[i + 1..]).lines;
    assert done + ([held[..i]] + more) == (done + [held[..i]]) + more;
  }

  lemma ReadAll(whole: seq<Byte>, done: seq<seq<Byte>>, held: seq<Byte>)
    requires Reading(whole, done, held) && NL !in held
    ensures Frame(whole) == Framing(done, held)
  {
    PlainFrame(held);
  }

  function Concat(chunks: seq<seq<Byte>>): seq<Byte> {
    if chunks == [] then [] else Concat(chunks[..|chunks| - 1]) + chunks[|chunks| - 1]
  }

  // ---- The Python streamer ----

  type Decoder = seq<Byte> -> string

  function StripLineEnd(s: string): string {
    if s != "" && (s[|s| - 1] == '\r' || s[|s| - 1] == '\n') then StripLineEnd(s[..|s| - 1]) else s
  }

  function DecodeLine(decode: Decoder, raw: seq<Byte>): string {
    StripLineEnd(decode(raw))
  }

  function DecodeLines(decode: Decoder, raw: seq<seq<Byte>>): seq<string> {
    seq(|raw|, i requires 0 <= i < |raw| => DecodeLine(decode, raw[i]))
  }

  lemma DecodeConcat(decode: Decoder, a: seq<seq<Byte>>, b: seq<seq<Byte>>)
    ensures DecodeLines(decode, a + b) == DecodeLines(decode, a) + DecodeLines(decode, b)
  {
  }

  /** Index of the first newline, or minus one. */
  method Find(s: seq<Byte>) returns (i: int)
    ensures -1 <= i < |s|
    ensures i == -1 ==> NL !in s
    ensures i >= 0 ==> s[i] == NL && NL !in s[..i]
  {
    for k := 0 to |s|
      invariant NL !in s[..k]
    {
      if s[k] == NL {
        return k;
      }
    }
    return -1;
  }

  class LineEventStreamer {
    const decode: Decoder
    var buffer: seq<Byte>
    ghost var fed: seq<Byte>

    ghost predicate Valid()
      reads this
    {
      buffer == Frame(fed).rest
    }

    constructor (decode: Decoder)
      ensures Valid() && fed == [] && this.decode == decode
    {
      this.decode := decode;
      buffer := [];
      fed := [];
    }

    /** Returns the lines that this chunk completes in the stream so far. */
    method Feed(chunk: seq<Byte>) returns (lines: seq<string>)
      requires Valid()
      modifies this
      ensures Valid() && fed == old(fed) + chunk
      ensures DecodeLines(decode, Frame(fed).lines) == DecodeLines(decode, Frame(old(fed)).lines) + lines
    {
      fed := fed + chunk;
      FrameContinues(old(fed), chunk);
      lines := [];
      if chunk == [] {
        assert fed == old(fed);
        return;
      }
      buffer := buffer + chunk;
      ghost var whole := buffer;
      ghost var raw: seq<seq<Byte>> := [];
      var idx := Find(buffer);
      while idx != -1
        invariant -1 <= idx < |buffer|
        invariant idx == -1 ==> NL !in buffer
        invariant idx >= 0 ==> buffer[idx] == NL && NL !in buffer[..idx]
        invariant Reading(whole, raw, buffer)
        invariant lines == DecodeLines(decode, raw) && fed == old(fed) + chunk
        decreases |buffer|
      {
        ReadLine(whole, raw, buffer, idx);
        lines := lines + [DecodeLine(decode, buffer[..idx])];
        raw := raw + [buffer[..idx]];
        buffer := buffer[idx + 1..];
        idx := Find(buffer);
      }
      ReadAll(whole, raw, buffer);
      DecodeConcat(decode, Frame(old(fed)).lines, raw);
    }

    /** Gives out the unfinished line, if any, and forgets the stream. */
    method Flush() returns (line: seq<string>)
      requires Valid()
      modifies this
      ensures Valid() && fed == [] && buffer == []
      ensures line == if Frame(old(fed)).rest == [] then [] else [DecodeLine(decode, Frame(old(fed)).rest)]
    {
      if buffer == [] {
        fed := [];
        return [];
      }
      line := [DecodeLine(decode, buffer)];
      buffer := [];
      fed := [];
    }
  }

  /** Feeding any chunks and flushing yields exactly the lines of the whole stream, however it was cut. */
  method StreamLines(chunks: seq<seq<Byte>>, decode: Decoder) returns (lines: seq<string>)
    ensures lines == DecodeLines(decode, LinesOf(Concat(chunks)))
  {
    var streamer := new LineEventStreamer(decode);
    lines := [];
    for i := 0 to |chunks|
      invariant streamer.Valid() && streamer.decode == decode && fresh(streamer) && streamer.fed == Concat(chunks[..i])
      invariant lines == DecodeLines(decode, Frame(streamer.fed).lines)
    {
      assert chunks[..i + 1][..i] == chunks[..i];
      var more := streamer.Feed(chunks[i]);
      lines := lines + more;
    }
    assert chunks[..|chunks|] == chunks;
    ghost var f := Frame(streamer.fed);
    var last := streamer.Flush();
    lines := lines + last;
    DecodeConcat(decode, f.lines, if f.rest == [] then [] else [f.rest]);
  }

  /** A non-empty chunk as a subprocess read returns it. */
  type Read = c: seq<Byte> | 0 < |c| <= 8192 witness [0]

  datatype OutputMeta = OutputMeta(truncated: bool, total: nat, retained: nat, max: int)

  function Bound(max: int): nat {
    if max < 0 then 0 else max
  }

  function Prefix(s: seq<Byte>, n: nat): seq<Byte> {
    if |s| <= n then s else s[..n]
  }

  lemma PrefixGrows(s: seq<Byte>, c: seq<Byte>, n: nat)
    ensures Prefix(s + c, n) == if |s| >= n then Prefix(s, n) else s + Prefix(c, n - |s|)
  {
  }

  /** One read chunk: what fits of it is kept, and whether something was lost is noted. */
  method Retain(kept: seq<Byte>, chunk: seq<Byte>, max: int, ghost all: seq<Byte>) returns (more: seq<Byte>, lost: bool)
    requires kept == Prefix(all, Bound(max))
    ensures more == Prefix(all + chunk, Bound(max))
    ensures |all| > Bound(max) || lost <==> |all + chunk| > Bound(max)
  {
    PrefixGrows(all, chunk, Bound(max));
    more := kept;
    var remaining := max - |kept|;
    if remaining > 0 {
      more := more + if |chunk| <= remaining then chunk else chunk[..remaining];
    }
    lost := |chunk| > Bound(remaining);
  }

  /** However a process's output is chunked, the collector keeps its first `max` bytes, counts all of them, flags a loss
      exactly when there is one, and streams exactly the lines of the whole output. */
  method CollectOutput(output: seq<Read>, max: int, streaming: bool, decode: Decoder)
    returns (stdout: seq<Byte>, meta: OutputMeta, published: seq<string>)
    ensures var all := Concat(output);
      && stdout == Prefix(all, Bound(max))
      && meta == OutputMeta(|all| > Bound(max), |all|, |stdout|, max)
      && published == if streaming then DecodeLines(decode, LinesOf(all)) else []
  {
    stdout, published := [], [];
    var total, truncated := 0, false;
    var streamer := new LineEventStreamer(decode);
    for i := 0 to |output|
      invariant streamer.Valid() && streamer.decode == decode && fresh(streamer)
      invariant streaming ==> streamer.fed == Concat(output[..i])
      invariant published == if streaming then DecodeLines(decode, Frame(streamer.fed).lines) else []
      invariant stdout == Prefix(Concat(output[..i]), Bound(max))
      invariant total == |Concat(output[..i])| && (truncated <==> total > Bound(max))
    {
      var chunk := output[i];
      assert output[..i + 1][..i] == output[..i];
      total := total + |chunk|;
      var lost: bool;
      stdout, lost := Retain(stdout, chunk, max, Concat(output[..i]));
      truncated := truncated || lost;
      if streaming {
        var lines := streamer.Feed(chunk);
        published := published + lines;
      }
    }
    assert output[..|output|] == output;
    if streaming {
      ghost var f := Frame(streamer.fed);
      var last := streamer.Flush();
      published := published + last;
      assert DecodeLines(decode, f.lines + [f.rest]) == DecodeLines(decode, f.lines) + [DecodeLine(decode, f.rest)];
    }
    meta := OutputMeta(truncated, total, |stdout|, max);
  }

  /** Decoding drops all carriage returns and newlines at the end of a line, and nothing else. */
  lemma {:induction false} StripLineEndIsExact(s: string) returns (n: nat)
    ensures n <= |s| && StripLineEnd(s) == s[..n] && forall i :: n <= i < |s| ==> s[i] == '\r' || s[i] == '\n'
    ensures n > 0 ==> s[n - 1] != '\r' && s[n - 1] != '\n'
    decreases |s|
  {
    if s != "" && (s[|s| - 1] == '\r' || s[|s| - 1] == '\n') {
      n := StripLineEndIsExact(s[..|s| - 1]);
    } else {
      n := |s|;
    }
  }

  // ---- The Go log writer ----

  function TrimRight(s: seq<Byte>): seq<Byte> {
    if s != [] && (s[|s| - 1] == CR || s[|s| - 1] == NL) then TrimRight(s[..|s| - 1]) else s
  }

  /** Trimming drops all carriage returns and newlines at the end of a line, and nothing else. */
  lemma {:induction false} TrimRightIsExact(s: seq<Byte>) returns (n: nat)
    ensures n <= |s| && TrimRight(s) == s[..n] && forall i :: n <= i < |s| ==> s[i] == 13 || s[i] == 10
    ensures n > 0 ==> s[n - 1] != 13 && s[n - 1] != 10
    decreases |s|
  {
    if s != [] && (s[|s| - 1] == CR || s[|s| - 1] == NL) {
      n := TrimRightIsExact(s[..|s| - 1]);
    } else {
      n := |s|;
    }
  }

  /** Trimmed lines, without those that are empty then. */
  function Publishable(lines: seq<seq<Byte>>): seq<seq<Byte>> {
    if lines == [] then []
    else
      var t := TrimRight(lines[|lines| - 1]);
      Publishable(lines[..|lines| - 1]) + (if t == [] then [] else [t])
  }

  lemma {:induction false} PublishableConcat(a: seq<seq<Byte>>, b: seq<seq<Byte>>)
    ensures Publishable(a + b) == Publishable(a) + Publishable(b)
  {
    if b == [] {
      assert a + b == a;
    } else {
      assert (a + b)[..|a + b| - 1] == a + b[..|b| - 1];
      PublishableConcat(a, b[..|b| - 1]);
    }
  }

  /** A line read with its newline is trimmed like the line itself. */
  /** A line is published without its trailing CR and LF bytes, after the lines before it; one of nothing else is not
      published. */
  lemma PublishableStates(lines: seq<seq<Byte>>, line: seq<Byte>)
    ensures Publishable([]) == []
    ensures var silent := forall i :: 0 <= i < |line| ==> line[i] == 10 || line[i] == 13;
      Publishable(lines + [line]) == Publishable(lines) + if silent then [] else [TrimRight(line)]
  {
    assert (lines + [line])[..|lines|] == lines;
    var n := TrimRightIsExact(line);
  }

  lemma PublishableGrows(done: seq<seq<Byte>>, line: seq<Byte>)
    ensures Publishable(done + [line])
         == Publishable(done) + (if TrimRight(line + [NL]) == [] then [] else [TrimRight(line + [NL])])
  {
    assert (line + [NL])[..|line|] == line;
    assert (done + [line])[..|done|] == done;
  }

  class StreamLogWriter {
    const enabled: bool
    var buffer: seq<Byte>
    var published: seq<seq<Byte>>
    ghost var written: seq<Byte>

    ghost predicate Valid()
      reads this
    {
      && buffer == Frame(written).rest
      && published == if enabled then Publishable(Frame(written).lines) else []
    }

    /** `enabled` stands for a publisher and a topic being set. */
    constructor (enabled: bool)
      ensures Valid() && written == [] && this.enabled == enabled
    {
      this.enabled := enabled;
      buffer, published, written := [], [], [];
    }

    method Publish(line: seq<Byte>)
      modifies this`published
      ensures published == old(published) + (if enabled && line != [] then [line] else [])
    {
      if !enabled || line == [] {
        return;
      }
      published := published + [line];
    }

    /** Reads buffered lines up to and including their newline and publishes them trimmed; the unfinished line stays. */
    method Drain()
      modifies this`buffer, this`published
      ensures buffer == Frame(old(buffer)).rest
      ensures published == old(published) + (if enabled then Publishable(Frame(old(buffer)).lines) else [])
    {
      ghost var done: seq<seq<Byte>> := [];
      var idx := Find(buffer);
      while idx != -1
        invariant -1 <= idx < |buffer|
        invariant idx == -1 ==> NL !in buffer
        invariant idx >= 0 ==> buffer[idx] == NL && NL !in buffer[..idx]
        invariant Reading(old(buffer), done, buffer)
        invariant published == old(published) + (if enabled then Publishable(done) else [])
        decreases |buffer|
      {
        ReadLine(old(buffer), done, buffer, idx);
        PublishableGrows(done, buffer[..idx]);
        var line := buffer[..idx + 1];
        assert line == buffer[..idx] + [NL];
        done := done + [buffer[..idx]];
        buffer := buffer[idx + 1..];
        Publish(TrimRight(line));
        idx := Find(buffer);
      }
      ReadAll(old(buffer), done, buffer);
    }

    method Write(p: seq<Byte>) returns (n: nat)
      requires Valid()
      modifies this
      ensures Valid() && n == |p| && written == old(written) + p
    {
      n := |p|;
      if |p| == 0 {
        assert written == written + p;
        return;
      }
      buffer := buffer + p;
      FrameContinues(written, p);
      PublishableConcat(Frame(written).lines, Frame(buffer).lines);
      Drain();
      written := written + p;
    }

    method Flush()
      requires Valid()
      modifies this
      ensures buffer == [] && published == if enabled then Publishable(LinesOf(old(written))) else []
      ensures written == old(written)
    {
      if |buffer| == 0 {
        assert LinesOf(written) == Frame(written).lines;
        return;
      }
      ghost var f := Frame(written);
      assert LinesOf(written)[..|f.lines|] == f.lines;
      Publish(TrimRight(buffer));
      buffer := [];
    }
  }

  /** Writes in any chunks, then a flush: exactly the non-empty trimmed lines of the whole stream, in order. */
  method PublishAll(chunks: seq<seq<Byte>>) returns (published: seq<seq<Byte>>)
    ensures published == Publishable(LinesOf(Concat(chunks)))
  {
    var w := new StreamLogWriter(true);
    for i := 0 to |chunks|
      invariant w.Valid() && w.enabled && fresh(w) && w.written == Concat(chunks[..i])
    {
      assert chunks[..i + 1][..i] == chunks[..i];
      var n := w.Write(chunks[i]);
    }
    assert chunks[..|chunks|] == chunks;
    w.Flush();
    published := w.published;
  }
}
