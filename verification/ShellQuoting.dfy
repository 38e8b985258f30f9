/** POSIX shell quoting, read back by an independent reader of shell words. */
module ShellQuoting {
  import opened Json

  // ---- Reading a simple command, sections 2.2.1 to 2.2.3 of POSIX XCU ----

  predicate Blank(c: char) {
    c == ' ' || c == '\t'
  }

  /** Unquoted, these end the command, expand or match file names; the reader refuses them. */
  predicate Active(c: char) {
    || c == '\n' || c == '|' || c == '&' || c == ';' || c == '<' || c == '>' || c == '(' || c == ')'
    || c == '$' || c == '`' || c == '*' || c == '?' || c == '[' || c == ']' || c == '{' || c == '}' || c == '!'
  }

  datatype Mode =
    | Between
    | Word(w: string)
    | Single(w: string)
    | Double(w: string)
    | Escape(w: string)
    | DoubleEscape(w: string)

  /** The words of a command that the shell passes on unchanged, or `None` if it is unfinished or anything in it is
      active. */
  function Read(mode: Mode, s: string, argv: seq<string>): Option<seq<string>>
    decreases |s|
  {
    if s == "" then
      match mode
      case Between => Some(argv)
      case Word(w) => Some(argv + [w])
      case _ => None
    else
      var c, rest := s[0], s[1..];
      match mode
      case Between =>
        if Blank(c) then Read(Between, rest, argv)
        else if c == '\'' then Read(Single(""), rest, argv)
        else if c == '"' then Read(Double(""), rest, argv)
        else if c == '\\' then Read(Escape(""), rest, argv)
        else if Active(c) || c == '#' || c == '~' then None
        else Read(Word([c]), rest, argv)
      case Word(w) =>
        if Blank(c) then Read(Between, rest, argv + [w])
        else if c == '\'' then Read(Single(w), rest, argv)
        else if c == '"' then Read(Double(w), rest, argv)
        else if c == '\\' then Read(Escape(w), rest, argv)
        else if Active(c) then None
        else Read(Word(w + [c]), rest, argv)
      case Single(w) =>
        if c == '\'' then Read(Word(w), rest, argv) else Read(Single(w + [c]), rest, argv)
      case Double(w) =>
        if c == '"' then Read(Word(w), rest, argv)
        else if c == '\\' then Read(DoubleEscape(w), rest, argv)
        else if c == '$' || c == '`' then None
        else Read(Double(w + [c]), rest, argv)
      case Escape(w) =>
        if c == '\n' then Read(Word(w), rest, argv) else Read(Word(w + [c]), rest, argv)
      case DoubleEscape(w) =>
        if c == '\n' then Read(Double(w), rest, argv)
        else if c == '$' || c == '`' || c == '"' || c == '\\' then Read(Double(w + [c]), rest, argv)
        else Read(Double(w + ['\\', c]), rest, argv)
  }

  function Words(s: string): Option<seq<string>> {
    Read(Between, s, [])
  }

  // ---- Quoting ----

  const QUOTED_QUOTE := "'\"'\"'"

  function Replaced(v: string): string {
    if v == "" then "" else (if v[0] == '\'' then QUOTED_QUOTE else [v[0]]) + Replaced(v[1..])
  }

  function Quote(v: string): string {
    if v == "" then "''" else "'" + Replaced(v) + "'"
  }

  lemma QuoteShape(v: string)
    ensures Quote(v) == "'" + (Replaced(v) + "'")
  {
  }

  lemma ReadQuotedQuote(w: string, rest: string, argv: seq<string>)
    ensures Read(Single(w), QUOTED_QUOTE + rest, argv) == Read(Single(w + "'"), rest, argv)
  {
    var s := QUOTED_QUOTE + rest;
    assert s[0] == '\'' && s[1..][0] == '"' && s[1..][1..][0] == '\'';
    assert s[1..][1..][1..][0] == '"' && s[1..][1..][1..][1..][0] == '\'';
    assert s[1..][1..][1..][1..][1..] == rest;
    assert Read(Single(w), s, argv) == Read(Word(w), s[1..], argv) == Read(Double(w), s[1..][1..], argv);
    assert Read(Double(w), s[1..][1..], argv) == Read(Double(w + "'"), s[1..][1..][1..], argv);
    assert Read(Double(w + "'"), s[1..][1..][1..], argv) == Read(Word(w + "'"), s[1..][1..][1..][1..], argv);
  }

  lemma {:induction false} ReadReplaced(w: string, v: string, rest: string, argv: seq<string>)
    ensures Read(Single(w), Replaced(v) + ("'" + rest), argv) == Read(Word(w + v), rest, argv)
    decreases |v|
  {
    if v == "" {
      var s := Replaced(v) + ("'" + rest);
      assert s == "'" + rest && s[1..] == rest && w + v == w;
    } else if v[0] == '\'' {
      var more := Replaced(v[1..]) + ("'" + rest);
      assert Replaced(v) + ("'" + rest) == QUOTED_QUOTE + more;
      ReadQuotedQuote(w, more, argv);
      ReadReplaced(w + "'", v[1..], rest, argv);
      assert (w + "'") + v[1..] == w + v;
    } else {
      var s := Replaced(v) + ("'" + rest);
      assert s[0] == v[0] && s[1..] == Replaced(v[1..]) + ("'" + rest);
      ReadReplaced(w + [v[0]], v[1..], rest, argv);
      assert (w + [v[0]]) + v[1..] == w + v;
    }
  }

  lemma ReadQuote(v: string, rest: string, argv: seq<string>)
    ensures Read(Between, Quote(v) + rest, argv) == Read(Word(v), rest, argv)
    ensures forall w: string :: Read(Word(w), Quote(v) + rest, argv) == Read(Word(w + v), rest, argv)
  {
    QuoteShape(v);
    var s := Quote(v) + rest;
    assert s[0] == '\'' && s[1..] == Replaced(v) + ("'" + rest);
    ReadReplaced("", v, rest, argv);
    assert "" + v == v;
    forall w: string ensures Read(Word(w), s, argv) == Read(Word(w + v), rest, argv) {
      ReadReplaced(w, v, rest, argv);
    }
  }

  /** Every string quotes to exactly one word, itself. */
  lemma QuoteRoundTrip(v: string)
    ensures Words(Quote(v)) == Some([v])
  {
    ReadQuote(v, "", []);
    assert Quote(v) + "" == Quote(v) && [] + [v] == [v];
  }

  // ---- Words that need no quoting ----

  predicate PlainChar(c: char) {
    !Blank(c) && !Active(c) && c != '\'' && c != '"' && c != '\\'
  }

  predicate PlainChars(s: string) {
    forall i :: 0 <= i < |s| ==> PlainChar(s[i])
  }

  predicate PlainWord(s: string) {
    s != "" && PlainChars(s) && s[0] != '#' && s[0] != '~'
  }

  lemma {:induction false} ReadPlain(w: string, p: string, rest: string, argv: seq<string>)
    requires PlainChars(p)
    ensures Read(Word(w), p + rest, argv) == Read(Word(w + p), rest, argv)
    decreases |p|
  {
    if p == "" {
      assert p + rest == rest && w + p == w;
    } else {
      assert (p + rest)[0] == p[0] && (p + rest)[1..] == p[1..] + rest;
      ReadPlain(w + [p[0]], p[1..], rest, argv);
      assert (w + [p[0]]) + p[1..] == w + p;
    }
  }

  lemma ReadPlainStart(p: string, rest: string, argv: seq<string>)
    requires PlainWord(p)
    ensures Read(Between, p + rest, argv) == Read(Word(p), rest, argv)
  {
    assert (p + rest)[0] == p[0] && (p + rest)[1..] == p[1..] + rest;
    ReadPlain([p[0]], p[1..], rest, argv);
    assert [p[0]] + p[1..] == p;
  }

  // ---- A command as a list of pieces ----

  /** Two parts of a command with a blank between them. */
  function Spaced(a: string, b: string): string {
    a + (" " + b)
  }

  lemma SpacedIsAssociative(a: string, b: string, c: string)
    ensures Spaced(Spaced(a, b), c) == Spaced(a, Spaced(b, c))
  {
  }

  /** One word of a command: plain text, a quoted value, or a plain option name with a quoted value. */
  datatype Piece = Plain(p: string) | Quoted(v: string) | Setting(name: string, v: string) {
    predicate Ok() {
      match this
      case Plain(p) => PlainWord(p)
      case Quoted(_) => true
      case Setting(name, _) => PlainWord(name)
    }

    function Text(): string {
      match this
      case Plain(p) => p
      case Quoted(v) => Quote(v)
      case Setting(name, v) => name + Quote(v)
    }

    function Meaning(): string {
      match this
      case Plain(p) => p
      case Quoted(v) => v
      case Setting(name, v) => name + v
    }
  }

  function Line(pieces: seq<Piece>): string {
    if pieces == [] then ""
    else if |pieces| == 1 then pieces[0].Text()
    else Spaced(pieces[0].Text(), Line(pieces[1..]))
  }

  function Meanings(pieces: seq<Piece>): seq<string> {
    if pieces == [] then [] else [pieces[0].Meaning()] + Meanings(pieces[1..])
  }

  predicate AllOk(pieces: seq<Piece>) {
    forall i :: 0 <= i < |pieces| ==> pieces[i].Ok()
  }

  lemma ReadPiece(piece: Piece, rest: string, argv: seq<string>)
    requires piece.Ok()
    ensures Read(Between, piece.Text() + rest, argv) == Read(Word(piece.Meaning()), rest, argv)
  {
    match piece
    case Quoted(v) => ReadQuote(v, rest, argv);
    case Plain(p) => ReadPlainStart(p, rest, argv);
    case Setting(name, v) =>
      assert (name + Quote(v)) + rest == name + (Quote(v) + rest);
      ReadPlainStart(name, Quote(v) + rest, argv);
      ReadQuote(v, rest, argv);
  }

  lemma ReadLastPiece(piece: Piece, argv: seq<string>)
    requires piece.Ok()
    ensures Read(Between, piece.Text(), argv) == Some(argv + [piece.Meaning()])
  {
    assert piece.Text() + "" == piece.Text();
    ReadPiece(piece, "", argv);
  }

  lemma ReadNextPiece(piece: Piece, more: string, argv: seq<string>)
    requires piece.Ok()
    ensures Read(Between, Spaced(piece.Text(), more), argv) == Read(Between, more, argv + [piece.Meaning()])
  {
    ReadPiece(piece, " " + more, argv);
    assert (" " + more)[1..] == more;
  }

  lemma {:induction false} ReadLine(pieces: seq<Piece>, argv: seq<string>)
    requires AllOk(pieces)
    ensures Read(Between, Line(pieces), argv) == Some(argv + Meanings(pieces))
    decreases |pieces|
  {
    if pieces == [] {
      assert argv + [] == argv;
    } else if |pieces| == 1 {
      ReadLastPiece(pieces[0], argv);
      assert Meanings(pieces[1..]) == [] && [pieces[0].Meaning()] + [] == [pieces[0].Meaning()];
    } else {
      var word := pieces[0].Meaning();
      ReadNextPiece(pieces[0], Line(pieces[1..]), argv);
      ReadLine(pieces[1..], argv + [word]);
      assert (argv + [word]) + Meanings(pieces[1..]) == argv + ([word] + Meanings(pieces[1..]));
    }
  }

  /** A command made of such pieces reads back as exactly their meanings. */
  lemma LineRoundTrip(pieces: seq<Piece>)
    requires AllOk(pieces)
    ensures Words(Line(pieces)) == Some(Meanings(pieces))
  {
    ReadLine(pieces, []);
    assert [] + Meanings(pieces) == Meanings(pieces);
  }

  lemma {:induction false} LineConcat(a: seq<Piece>, b: seq<Piece>)
    requires a != [] && b != []
    ensures Line(a + b) == Spaced(Line(a), Line(b))
    decreases |a|
  {
    if |a| == 1 {
      assert (a + b)[1..] == b;
    } else {
      assert (a + b)[1..] == a[1..] + b;
      LineConcat(a[1..], b);
      SpacedIsAssociative(a[0].Text(), Line(a[1..]), Line(b));
    }
  }

  lemma {:induction false} MeaningsConcat(a: seq<Piece>, b: seq<Piece>)
    ensures Meanings(a + b) == Meanings(a) + Meanings(b)
    decreases |a|
  {
    if a == [] {
      assert a + b == b;
    } else {
      assert (a + b)[1..] == a[1..] + b;
      MeaningsConcat(a[1..], b);
    }
  }

  lemma LineOf2(p: Piece, q: Piece)
    ensures Line([p, q]) == Spaced(p.Text(), q.Text())
    ensures Meanings([p, q]) == [p.Meaning(), q.Meaning()]
  {
    assert [p, q][1..] == [q];
    assert Meanings([q]) == [q.Meaning()];
  }

  lemma LineOf3(p: Piece, q: Piece, r: Piece)
    ensures Line([p, q, r]) == Spaced(p.Text(), Spaced(q.Text(), r.Text()))
    ensures Meanings([p, q, r]) == [p.Meaning(), q.Meaning(), r.Meaning()]
  {
    assert [p, q, r][1..] == [q, r];
    LineOf2(q, r);
  }
}
