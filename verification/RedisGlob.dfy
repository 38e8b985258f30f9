/** The glob patterns of Redis key scans: `*`, `?`, character classes and backslash escapes. */
module RedisGlob {
  datatype Range = Range(low: char, high: char)

  datatype Token =
    | Exactly(c: char)
    | AnyOne
    | AnyRun
    | OneOf(ranges: seq<Range>, negated: bool)

  /** The ranges of a character class and the pattern after it; a class that is not closed takes all the rest. */
  datatype Class = Class(ranges: seq<Range>, rest: string)

  function ClassBody(p: string): (r: Class)
    ensures |r.rest| <= |p|
  {
    if p == "" then Class([], "")
    else if p[0] == '\\' && |p| >= 2 then
      var more := ClassBody(p[2..]);
      Class([Range(p[1], p[1])] + more.ranges, more.rest)
    else if p[0] == ']' then Class([], p[1..])
    else if |p| >= 3 && p[1] == '-' then
      var more := ClassBody(p[3..]);
      Class([if p[0] <= p[2] then Range(p[0], p[2]) else Range(p[2], p[0])] + more.ranges, more.rest)
    else
      var more := ClassBody(p[1..]);
      Class([Range(p[0], p[0])] + more.ranges, more.rest)
  }

  function Compile(p: string): seq<Token>
    decreases |p|
  {
    if p == "" then []
    else if p[0] == '*' then [AnyRun] + Compile(p[1..])
    else if p[0] == '?' then [AnyOne] + Compile(p[1..])
    else if p[0] == '\\' && |p| >= 2 then [Exactly(p[1])] + Compile(p[2..])
    else if p[0] == '[' then
      var negated := |p| >= 2 && p[1] == '^';
      var class_ := ClassBody(p[if negated then 2 else 1..]);
      [OneOf(class_.ranges, negated)] + Compile(class_.rest)
    else [Exactly(p[0])] + Compile(p[1..])
  }

  predicate Accepts(t: Token, c: char) {
    match t
    case Exactly(d) => c == d
    case AnyOne => true
    case AnyRun => false
    case OneOf(ranges, negated) => (exists r :: r in ranges && r.low <= c <= r.high) != negated
  }

  predicate Match(ts: seq<Token>, s: string)
    decreases |ts| + |s|
  {
    if ts == [] then s == ""
    else if ts[0].AnyRun? then Match(ts[1..], s) || (s != "" && Match(ts, s[1..]))
    else s != "" && Accepts(ts[0], s[0]) && Match(ts[1..], s[1..])
  }

  predicate Glob(pattern: string, s: string) {
    Match(Compile(pattern), s)
  }

  predicate GlobFree(s: string) {
    forall i :: 0 <= i < |s| ==> s[i] != '*' && s[i] != '?' && s[i] != '[' && s[i] != '\\'
  }

  predicate StartsWith(s: string, p: string) {
    |p| <= |s| && s[..|p|] == p
  }

  function Literals(a: string): seq<Token> {
    seq(|a|, i requires 0 <= i < |a| => Exactly(a[i]))
  }

  /** Tokens that take one character each. */
  predicate Singles(ts: seq<Token>) {
    forall i :: 0 <= i < |ts| ==> !ts[i].AnyRun?
  }

  // ---- Patterns without special characters ----

  lemma {:induction false} LiteralCompiles(a: string, p: string)
    requires GlobFree(a)
    ensures Compile(a + p) == Literals(a) + Compile(p)
    decreases |a|
  {
    if a == "" {
      assert a + p == p && Literals(a) == [];
    } else {
      assert (a + p)[0] == a[0] && (a + p)[1..] == a[1..] + p;
      LiteralCompiles(a[1..], p);
      assert Literals(a) == [Exactly(a[0])] + Literals(a[1..]);
    }
  }

  predicate AcceptsAll(ts: seq<Token>, s: string) {
    |ts| <= |s| && forall i :: 0 <= i < |ts| ==> Accepts(ts[i], s[i])
  }

  lemma {:induction false} SinglesMatch(ts: seq<Token>, rest: seq<Token>, s: string)
    requires Singles(ts)
    ensures Match(ts + rest, s) <==> AcceptsAll(ts, s) && Match(rest, s[|ts|..])
    decreases |ts|
  {
    if ts == [] {
      assert ts + rest == rest && s[0..] == s;
    } else if s != "" {
      assert (ts + rest)[1..] == ts[1..] + rest;
      SinglesMatch(ts[1..], rest, s[1..]);
      AcceptsTail(ts, s);
      if |ts| <= |s| {
        assert s[1..][|ts| - 1..] == s[|ts|..];
      }
    }
  }

  lemma AcceptsTail(ts: seq<Token>, s: string)
    requires ts != [] && s != ""
    ensures AcceptsAll(ts, s) <==> Accepts(ts[0], s[0]) && AcceptsAll(ts[1..], s[1..])
  {
    if AcceptsAll(ts[1..], s[1..]) && Accepts(ts[0], s[0]) {
      forall i | 0 <= i < |ts| ensures Accepts(ts[i], s[i]) {
        assert i > 0 ==> Accepts(ts[1..][i - 1], s[1..][i - 1]);
      }
    }
  }

  lemma LiteralMatches(a: string, rest: seq<Token>, s: string)
    ensures Match(Literals(a) + rest, s) <==> StartsWith(s, a) && Match(rest, s[|a|..])
  {
    SinglesMatch(Literals(a), rest, s);
    if |a| <= |s| {
      if AcceptsAll(Literals(a), s) {
        forall i | 0 <= i < |a| ensures s[i] == a[i] {
          assert Accepts(Literals(a)[i], s[i]);
        }
      }
    }
  }

  /** A run before a literal end takes whatever stands before that end. */
  lemma {:induction false} RunThenLiteral(b: string, s: string)
    ensures Match([AnyRun] + Literals(b), s) <==> |b| <= |s| && s[|s| - |b|..] == b
    decreases |s|
  {
    var ts := [AnyRun] + Literals(b);
    assert ts[1..] == Literals(b) && Literals(b) + [] == Literals(b);
    LiteralMatches(b, [], s);
    if s != "" {
      RunThenLiteral(b, s[1..]);
      if |b| < |s| {
        assert s[1..][|s| - 1 - |b|..] == s[|s| - |b|..];
      }
    }
    if |b| == |s| {
      assert s[..|b|] == s && s[0..] == s;
    }
  }

  /** A literal pattern with one `*` in it matches by prefix and suffix. */
  lemma StarPattern(a: string, b: string, s: string)
    requires GlobFree(a) && GlobFree(b)
    ensures Glob(a + ("*" + b), s) <==> |a| + |b| <= |s| && s[..|a|] == a && s[|s| - |b|..] == b
  {
    LiteralCompiles(a, "*" + b);
    LiteralCompiles(b, "");
    assert b + "" == b && Literals(b) + [] == Literals(b);
    assert ("*" + b)[1..] == b;
    LiteralMatches(a, [AnyRun] + Literals(b), s);
    if |a| <= |s| {
      RunThenLiteral(b, s[|a|..]);
      if |a| + |b| <= |s| {
        assert s[|a|..][|s| - |a| - |b|..] == s[|s| - |b|..];
      }
    }
  }

  // ---- Patterns that begin with arbitrary text ----

  lemma {:induction false} UnclosedClass(b: string)
    requires ']' !in b
    ensures ClassBody(b).rest == ""
    decreases |b|
  {
    if b == "" {
    } else if b[0] == '\\' && |b| >= 2 {
      UnclosedClass(b[2..]);
    } else if |b| >= 3 && b[1] == '-' {
      UnclosedClass(b[3..]);
    } else {
      UnclosedClass(b[1..]);
    }
  }

  /** A text after which patterns go on plainly: nothing in it closes a class, negates one or makes a range. */
  predicate PlainTail(b: string) {
    |b| >= 2 && ']' !in b && b[0] != '^' && b[0] != '-'
  }

  /** A class opened before `r` is closed after `k` of its characters, or it swallows the whole tail. */
  lemma {:induction false} ClassEnds(r: string, b: string) returns (k: nat)
    requires PlainTail(b)
    ensures k > 0 && ClassBody(r + b).rest == if k <= |r| then r[k..] + b else ""
    decreases |r|
  {
    var p := r + b;
    if r == "" {
      assert p == b;
      UnclosedClass(b);
      k := 1;
    } else if r[0] == ']' {
      assert p[1..] == r[1..] + b;
      k := 1;
    } else {
      var n := if r[0] == '\\' then 2 else if p[1] == '-' then 3 else 1;
      if n <= |r| {
        assert p[n..] == r[n..] + b;
        k := ClassEnds(r[n..], b);
        assert k <= |r[n..]| ==> r[n..][k..] == r[n + k..];
        k := n + k;
      } else {
        assert n == |r| + 1 && p[n..] == b[1..];
        UnclosedClass(b[1..]);
        k := n;
      }
    }
  }

  /** How a pattern `h + b` begins, up to the first run in `h`: one token per character of `h` unless `h` escapes
      something or has a class, and then fewer. `Whole`: then comes the tail. `Escaped`: `h` ends by escaping the
      tail's first character. `Swallowed`: a class in `h` takes the whole tail. `Starred`: then comes a run that
      stands in `h`. */
  datatype Shape = Whole | Escaped | Swallowed | Starred

  ghost predicate HasShape(h: string, b: string, shape: Shape, ts: seq<Token>, more: seq<Token>)
    requires b != ""
  {
    && Singles(ts) && |ts| <= |h| && Compile(h + b) == ts + more
    && match shape
       case Whole => more == Compile(b) && (|ts| == |h| ==> OnePerChar(h, ts))
       case Escaped => more == Compile(b[1..]) && ts != [] && ts[|ts| - 1] == Exactly(b[0])
       case Swallowed => more == []
       case Starred => |ts| < |h| && '*' in h && more != [] && more[0].AnyRun?
  }

  predicate OnePerChar(h: string, ts: seq<Token>)
    requires |ts| == |h|
  {
    forall i :: 0 <= i < |h| ==> OneChar(h[i], ts[i])
  }

  predicate OneChar(c: char, t: Token) {
    c != '*' && c != '[' && c != '\\' && t == if c == '?' then AnyOne else Exactly(c)
  }

  lemma PrependChar(c: char, t: Token, h: string, ts: seq<Token>)
    requires |ts| == |h| && OnePerChar(h, ts) && OneChar(c, t)
    ensures OnePerChar([c] + h, [t] + ts)
  {
  }

  lemma SinglesGrow(t: Token, ts: seq<Token>, more: seq<Token>)
    requires Singles(ts) && !t.AnyRun?
    ensures Singles([t] + ts) && ([t] + ts) + more == [t] + (ts + more)
  {
  }

  /** One more token in front, for one or more characters `u`. */
  lemma Prepend(u: string, t: Token, h: string, b: string, shape: Shape, ts: seq<Token>, more: seq<Token>)
    requires b != "" && HasShape(h, b, shape, ts, more) && !t.AnyRun? && u != ""
    requires Compile(u + h + b) == [t] + Compile(h + b)
    requires |u| == 1 ==> OneChar(u[0], t)
    ensures HasShape(u + h, b, shape, [t] + ts, more)
  {
    SinglesGrow(t, ts, more);
    match shape
    case Whole =>
      if |u| == 1 && |ts| == |h| {
        assert u == [u[0]];
        PrependChar(u[0], t, h, ts);
      }
    case Escaped => assert ([t] + ts)[|ts|] == ts[|ts| - 1];
    case Swallowed =>
    case Starred => assert '*' in u + h;
  }

  lemma {:induction false} ShapeOf(h: string, b: string) returns (shape: Shape, ts: seq<Token>, more: seq<Token>)
    requires PlainTail(b)
    ensures HasShape(h, b, shape, ts, more)
    decreases |h|, 1
  {
    var p := h + b;
    if h == "" {
      shape, ts, more := Whole, [], Compile(b);
      assert p == b && [] + more == more;
    } else if h[0] == '*' {
      shape, ts, more := Starred, [], Compile(p);
      assert [] + more == more;
    } else if h == "\\" {
      shape, ts, more := Escaped, [Exactly(b[0])], Compile(b[1..]);
      assert p[1] == b[0] && p[2..] == b[1..];
    } else if h[0] == '[' {
      shape, ts, more := ClassShape(h, b);
    } else {
      shape, ts, more := PlainShape(h, b);
    }
  }

  function TokenWidth(h: string): nat
    requires h != ""
  {
    if h[0] == '\\' then 2 else 1
  }

  function FirstToken(h: string): Token
    requires h != "" && TokenWidth(h) <= |h|
  {
    if h[0] == '\\' then Exactly(h[1]) else if h[0] == '?' then AnyOne else Exactly(h[0])
  }

  lemma FirstTokenCompiles(h: string, b: string, n: nat)
    requires h != "" && h[0] != '*' && h[0] != '[' && n == TokenWidth(h) <= |h|
    ensures Compile(h + b) == [FirstToken(h)] + Compile(h[n..] + b)
  {
    var p := h + b;
    assert p[0] == h[0] && p[n..] == h[n..] + b && (n == 2 ==> p[1] == h[1]);
  }

  lemma {:induction false} PlainShape(h: string, b: string) returns (shape: Shape, ts: seq<Token>, more: seq<Token>)
    requires PlainTail(b) && h != "" && h[0] != '*' && h[0] != '[' && TokenWidth(h) <= |h|
    ensures HasShape(h, b, shape, ts, more)
    decreases |h|, 0
  {
    var n := TokenWidth(h);
    var t := FirstToken(h);
    shape, ts, more := ShapeOf(h[n..], b);
    FirstTokenCompiles(h, b, n);
    assert h == h[..n] + h[n..];
    Prepend(h[..n], t, h[n..], b, shape, ts, more);
    ts := [t] + ts;
  }

  /** A class takes two or more characters of `h` for one token, or swallows everything. */
  lemma ClassCompiles(h: string, b: string) returns (used: nat, t: Token)
    requires PlainTail(b) && h != "" && h[0] == '['
    ensures t.OneOf? && 2 <= used
    ensures Compile(h + b) == [t] + if used <= |h| then Compile(h[used..] + b) else []
  {
    var negated := (h + b)[1] == '^';
    assert negated ==> |h| >= 2;
    var n := if negated then 2 else 1;
    var r := h[n..];
    var k := ClassEnds(r, b);
    used := n + k;
    t := OneOf(ClassBody(r + b).ranges, negated);
    OpenClassCompiles(h + b, negated, r + b);
    assert used <= |h| ==> r[k..] == h[used..];
  }

  lemma OpenClassCompiles(p: string, negated: bool, body: string)
    requires |p| >= 2 && p[0] == '[' && (negated <==> p[1] == '^') && body == p[if negated then 2 else 1..]
    ensures Compile(p) == [OneOf(ClassBody(body).ranges, negated)] + Compile(ClassBody(body).rest)
  {
  }

  lemma {:induction false} ClassShape(h: string, b: string) returns (shape: Shape, ts: seq<Token>, more: seq<Token>)
    requires PlainTail(b) && h != "" && h[0] == '['
    ensures HasShape(h, b, shape, ts, more)
    decreases |h|, 0
  {
    var used, t := ClassCompiles(h, b);
    if used > |h| {
      shape, ts, more := Swallowed, [t], [];
    } else {
      shape, ts, more := ShapeOf(h[used..], b);
      assert h == h[..used] + h[used..];
      Prepend(h[..used], t, h[used..], b, shape, ts, more);
      ts := [t] + ts;
    }
  }
}
