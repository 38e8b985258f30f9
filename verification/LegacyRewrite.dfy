/**
 * The fallback transfer does not rebuild its command: it inserts the legacy options into the modern text, in front of
 * the first port flag it finds. When that is the same as building the legacy command.
 */
module LegacyRewrite {
  import opened Text
  import opened ShellQuoting
  import opened ScpCommand

  // ---- Searching ----

  predicate MatchAt(s: string, pat: string, i: nat) {
    i + |pat| <= |s| && s[i..i + |pat|] == pat
  }

  predicate Contains(s: string, pat: string) {
    exists i :: 0 <= i <= |s| && MatchAt(s, pat, i)
  }

  function IndexFrom(s: string, pat: string, from: nat): (i: int)
    requires from <= |s|
    ensures i == -1 ==> forall k :: from <= k <= |s| ==> !MatchAt(s, pat, k)
    ensures i != -1 ==> from <= i <= |s| && MatchAt(s, pat, i) && forall k :: from <= k < i ==> !MatchAt(s, pat, k)
    decreases |s| - from
  {
    if MatchAt(s, pat, from) then from else if from == |s| then -1 else IndexFrom(s, pat, from + 1)
  }

  /** Position of the first match, or minus one. */
  function IndexOf(s: string, pat: string): int {
    IndexFrom(s, pat, 0)
  }

  function AddLegacyOptions(command: string): string {
    if !Contains(command, "scp") then command
    else if Contains(command, PUBKEY) then command
    else
      var i := IndexOf(command, PORT_FLAG);
      if i == -1 then command + (" " + LEGACY_OPTIONS)
      else command[..i] + (" " + LEGACY_OPTIONS) + command[i..]
  }

  // ---- Where the port flag can occur ----

  predicate PortAt(s: string, i: nat) {
    i + 4 <= |s| && s[i] == ' ' && s[i + 1] == '-' && s[i + 2] == 'P' && s[i + 3] == ' '
  }

  predicate HasPort(s: string) {
    exists i :: 0 <= i <= |s| && PortAt(s, i)
  }

  lemma PortIsMatch(s: string, i: nat)
    ensures PortAt(s, i) <==> MatchAt(s, PORT_FLAG, i)
  {
    if i + 4 <= |s| {
      var w := s[i..i + 4];
      assert w[0] == s[i] && w[1] == s[i + 1] && w[2] == s[i + 2] && w[3] == s[i + 3];
      assert w == [w[0], w[1], w[2], w[3]];
    }
  }

  lemma HasPortIsContains(s: string)
    ensures HasPort(s) <==> Contains(s, PORT_FLAG)
  {
    if HasPort(s) {
      var i :| 0 <= i <= |s| && PortAt(s, i);
      PortIsMatch(s, i);
    }
    if Contains(s, PORT_FLAG) {
      var i :| 0 <= i <= |s| && MatchAt(s, PORT_FLAG, i);
      PortIsMatch(s, i);
    }
  }

  predicate Separator(c: char) {
    c != ' ' && c != '-' && c != 'P'
  }

  lemma HasPortSplits(a: string, c: char, b: string)
    requires Separator(c)
    ensures HasPort(a + ([c] + b)) <==> HasPort(a) || HasPort(b)
  {
    var s := a + ([c] + b);
    assert s[|a|] == c;
    if HasPort(s) {
      var i :| 0 <= i <= |s| && PortAt(s, i);
      if i + 4 <= |a| {
        assert PortAt(a, i);
      } else {
        assert i > |a|;
        assert PortAt(b, i - |a| - 1);
      }
    }
    if HasPort(a) {
      var i :| 0 <= i <= |a| && PortAt(a, i);
      assert PortAt(s, i);
    }
    if HasPort(b) {
      var i :| 0 <= i <= |b| && PortAt(b, i);
      assert PortAt(s, i + |a| + 1);
    }
  }

  lemma NoCapitalP(s: string)
    requires 'P' !in s
    ensures !HasPort(s)
  {
  }

  lemma QuotedQuoteSplits(a: string, b: string)
    ensures HasPort(a + (QUOTED_QUOTE + b)) <==> HasPort(a) || HasPort(b)
  {
    NoCapitalP("");
    HasPortSplits("", '\'', b);
    HasPortSplits("", '"', [ '\'' ] + b);
    HasPortSplits("", '\'', ['"'] + (['\''] + b));
    HasPortSplits("", '"', ['\''] + (['"'] + (['\''] + b)));
    var more := ['"'] + (['\''] + (['"'] + (['\''] + b)));
    assert "" + (['\''] + b) == ['\''] + b;
    assert "" + (['"'] + (['\''] + b)) == ['"'] + (['\''] + b);
    assert "" + (['\''] + (['"'] + (['\''] + b))) == ['\''] + (['"'] + (['\''] + b));
    assert "" + more == more;
    HasPortSplits(a, '\'', more);
    assert QUOTED_QUOTE + b == ['\''] + more;
  }

  lemma ReplacedQuoteKeepsPort(before: string, r: string, tail: string)
    requires HasPort(r) <==> HasPort(tail)
    ensures HasPort(before + (QUOTED_QUOTE + r)) <==> HasPort(before + (['\''] + tail))
  {
    QuotedQuoteSplits(before, r);
    HasPortSplits(before, '\'', tail);
  }

  /** Replacing quotes moves no port flag in or out. */
  lemma {:induction false} ReplacedKeepsPort(v: string, before: string)
    ensures HasPort(before + Replaced(v)) <==> HasPort(before + v)
    decreases |v|
  {
    if v != "" {
      var c, tail := v[0], v[1..];
      assert v == [c] + tail;
      if c == '\'' {
        ReplacedKeepsPort(tail, "");
        assert "" + Replaced(tail) == Replaced(tail) && "" + tail == tail;
        ReplacedQuoteKeepsPort(before, Replaced(tail), tail);
      } else {
        ReplacedKeepsPort(tail, before + [c]);
        assert before + ([c] + Replaced(tail)) == (before + [c]) + Replaced(tail);
        assert before + ([c] + tail) == (before + [c]) + tail;
      }
    }
  }

  lemma QuoteKeepsPort(a: string, v: string, b: string)
    ensures HasPort(a + (Quote(v) + b)) <==> HasPort(a) || HasPort(v) || HasPort(b)
  {
    QuoteShape(v);
    var rest := Replaced(v) + (['\''] + b);
    assert a + (Quote(v) + b) == a + (['\''] + rest);
    HasPortSplits(a, '\'', rest);
    HasPortSplits(Replaced(v), '\'', b);
    ReplacedKeepsPort(v, "");
    assert "" + Replaced(v) == Replaced(v) && "" + v == v;
  }

  // ---- The text in front of the operands ----

  function Head(a: Auth, known: string): string {
    Spaced(Program(a), HostOptions(known))
  }

  function KeyPath(a: Auth): string {
    if a.Key? then a.file else ""
  }

  lemma SettingsLackP()
    ensures 'P' !in STRICT_NO && 'P' !in STRICT_YES && 'P' !in KNOWN_HOSTS
    ensures |KNOWN_HOSTS| > 0 && KNOWN_HOSTS[|KNOWN_HOSTS| - 1] == '='
  {
  }

  lemma LackingPrefix(pre: string, b: string)
    requires 'P' !in pre && pre != "" && Separator(pre[|pre| - 1])
    ensures HasPort(pre + b) <==> HasPort(b)
  {
    var init, c := pre[..|pre| - 1], pre[|pre| - 1];
    NoCapitalP(init);
    HasPortSplits(init, c, b);
    assert pre + b == init + ([c] + b);
  }

  lemma ValueHasPort(known: string)
    ensures HasPort(OptionValue(known) + " ") <==> HasPort(known)
  {
    if exists i :: 0 <= i < |known| && NeedsQuote(known[i]) {
      QuoteKeepsPort("", known, " ");
      NoCapitalP("");
      NoCapitalP(" ");
      assert "" + (Quote(known) + " ") == Quote(known) + " ";
    } else {
      assert forall i :: 0 <= i < |known| ==> known[i] != ' ';
      assert !HasPort(known);
      assert !HasPort(known + " ");
    }
  }

  lemma OptsLackP(x: string, y: string)
    requires 'P' !in x && 'P' !in y
    ensures 'P' !in " " + Spaced(Opt(x), Opt(y)) && 'P' !in " " + (Opt(x) + " ")
  {
  }

  lemma OptsShape(x: string, y: string, v: string)
    ensures " " + (Spaced(Opt(x), Opt(y + v)) + " ") == (" " + Spaced(Opt(x), Opt(y))) + (v + " ")
  {
  }

  lemma HostOptionsHavePort(known: string)
    ensures HasPort(" " + (HostOptions(known) + " ")) <==> HasPort(known)
  {
    SettingsLackP();
    if known == "" {
      OptsLackP(STRICT_NO, "");
      NoCapitalP(" " + (Opt(STRICT_NO) + " "));
    } else {
      SettingHasPort(STRICT_YES, KNOWN_HOSTS, known);
    }
  }

  lemma SettingHasPort(x: string, y: string, known: string)
    requires 'P' !in x && 'P' !in y && y != "" && Separator(y[|y| - 1])
    ensures HasPort(" " + (Spaced(Opt(x), Opt(y + OptionValue(known))) + " ")) <==> HasPort(known)
  {
    var pre := " " + Spaced(Opt(x), Opt(y));
    OptsLackP(x, y);
    assert pre[|pre| - 1] == y[|y| - 1];
    OptsShape(x, y, OptionValue(known));
    LackingPrefix(pre, OptionValue(known) + " ");
    ValueHasPort(known);
  }

  lemma KeyShape(q: string, h: string)
    ensures Spaced(Spaced("scp", Spaced("-i", q)), h) + " " == "scp -i " + (q + (" " + (h + " ")))
  {
    assert "scp -i " == "scp" + (" " + ("-i" + " "));
  }

  lemma PasswordShape(h: string)
    ensures Spaced(Spaced("sshpass", Spaced("-e", "scp")), h) + " " == "sshpass -e scp" + (" " + (h + " "))
  {
    assert "sshpass -e scp" == "sshpass" + (" " + ("-e" + (" " + "scp")));
  }

  /** A port flag in front of the operands comes from the key path or the known-hosts path. */
  lemma HeadHasPort(a: Auth, known: string)
    ensures HasPort(Head(a, known) + " ") <==> HasPort(KeyPath(a)) || HasPort(known)
  {
    var h := HostOptions(known);
    HostOptionsHavePort(known);
    match a
    case Key(file) =>
      KeyShape(Quote(file), h);
      NoCapitalP("scp -i ");
      QuoteKeepsPort("scp -i ", file, " " + (h + " "));
    case Password =>
      PasswordShape(h);
      NoCapitalP("");
      LackingPrefix("sshpass -e scp", " " + (h + " "));
  }

  // ---- The rewrite ----

  lemma FirstPortIsTheFlag(head: string, ops: string)
    requires |ops| >= 3 && ops[0] == '-' && ops[1] == 'P' && ops[2] == ' ' && !HasPort(head + " ")
    ensures IndexOf(Spaced(head, ops), PORT_FLAG) == |head|
  {
    var s := Spaced(head, ops);
    assert PortAt(s, |head|);
    PortIsMatch(s, |head|);
    forall i | 0 <= i < |head|
      ensures !MatchAt(s, PORT_FLAG, i)
    {
      PortIsMatch(s, i);
      if PortAt(s, i) {
        assert i + 4 <= |head| + 1;
        assert PortAt(head + " ", i);
      }
    }
  }

  lemma EarlierPort(head: string, ops: string)
    requires HasPort(head + " ")
    ensures var s := Spaced(head, ops); var j := IndexOf(s, PORT_FLAG); 0 <= j && j + 2 < |head| && s[j + 2] == 'P'
  {
    var s := Spaced(head, ops);
    var i :| 0 <= i <= |head + " "| && PortAt(head + " ", i);
    assert PortAt(s, i);
    PortIsMatch(s, i);
    var j := IndexOf(s, PORT_FLAG);
    PortIsMatch(s, j);
  }

  lemma ProgramIsScp(a: Auth) returns (i: nat)
    ensures i + 3 <= |Program(a)| && Program(a)[i] == 's' && Program(a)[i + 1] == 'c' && Program(a)[i + 2] == 'p'
  {
    i := if a.Key? then 0 else 11;
  }

  lemma CommandIsScp(program: string, rest: string, i: nat)
    requires i + 3 <= |program| && program[i] == 's' && program[i + 1] == 'c' && program[i + 2] == 'p'
    ensures Contains(program + rest, "scp")
  {
    var s := program + rest;
    assert s[i..i + 3] == ['s', 'c', 'p'];
    assert MatchAt(s, "scp", i);
  }

  lemma LegacyShape(program: string, h: string, legacy: string, ops: string)
    ensures Spaced(Spaced(program, Spaced(h, legacy)), ops) == Spaced(program, h) + (" " + legacy) + (" " + ops)
  {
  }

  lemma Inserted(head: string, ops: string, legacy: string, j: nat)
    requires |legacy| >= 2 && legacy[1] == 'o' && j <= |head|
    requires j == |head| || (j + 2 < |head| && head[j + 2] == 'P')
    ensures var s := Spaced(head, ops);
      s[..j] + (" " + legacy) + s[j..] == head + (" " + legacy) + (" " + ops) <==> j == |head|
  {
    var s := Spaced(head, ops);
    if j == |head| {
      assert s[..j] == head && s[j..] == " " + ops;
    } else {
      var x, y := s[..j] + (" " + legacy) + s[j..], head + (" " + legacy) + (" " + ops);
      assert x[j + 2] == legacy[1];
      assert y[j + 2] == head[j + 2];
    }
  }

  lemma LegacyOptionsShape()
    ensures |LEGACY_OPTIONS| >= 2 && LEGACY_OPTIONS[1] == 'o'
  {
  }

  lemma ModernShape(program: string, h: string, ops: string)
    ensures Spaced(Spaced(program, h), ops) == program + (" " + (h + (" " + ops)))
  {
  }

  lemma RewriteOf(head: string, ops: string)
    requires |ops| >= 3 && ops[0] == '-' && ops[1] == 'P' && ops[2] == ' ' && Contains(Spaced(head, ops), "scp")
    ensures AddLegacyOptions(Spaced(head, ops)) == head + (" " + LEGACY_OPTIONS) + (" " + ops)
      <==> !HasPort(head + " ") && !Contains(Spaced(head, ops), PUBKEY)
  {
    var modern := Spaced(head, ops);
    LegacyOptionsShape();
    if !Contains(modern, PUBKEY) {
      if HasPort(head + " ") {
        EarlierPort(head, ops);
      } else {
        FirstPortIsTheFlag(head, ops);
      }
      Inserted(head, ops, LEGACY_OPTIONS, IndexOf(modern, PORT_FLAG));
    } else {
      assert |modern| < |head + (" " + LEGACY_OPTIONS) + (" " + ops)|;
    }
  }

  /** Rewriting the modern command gives the legacy command if and only if neither the key path nor the known-hosts path
      contains " -P " and the modern command does not already contain the marker the rewrite looks for. */
  lemma RewriteIsLegacyBuild(a: Auth, known: string, t: Transfer)
    ensures var modern := Command(a, Modern, known, t);
      AddLegacyOptions(modern) == Command(a, Legacy, known, t)
      <==> !Contains(KeyPath(a), PORT_FLAG) && !Contains(known, PORT_FLAG) && !Contains(modern, PUBKEY)
  {
    var ops := Operands(t);
    assert ops[0] == '-' && ops[1] == 'P' && ops[2] == ' ';
    var i := ProgramIsScp(a);
    CommandIsScp(Program(a), " " + (HostOptions(known) + (" " + ops)), i);
    ModernShape(Program(a), HostOptions(known), ops);
    RewriteOf(Head(a, known), ops);
    LegacyShape(Program(a), HostOptions(known), LEGACY_OPTIONS, ops);
    HeadHasPort(a, known);
    HasPortIsContains(KeyPath(a));
    HasPortIsContains(known);
  }

  /** Under the same condition the retried command means the modern argument vector with the legacy options added. */
  lemma RewriteAddsOptions(a: Auth, known: string, t: Transfer)
    requires !Contains(KeyPath(a), PORT_FLAG) && !Contains(known, PORT_FLAG)
    requires !Contains(Command(a, Modern, known, t), PUBKEY)
    ensures Words(AddLegacyOptions(Command(a, Modern, known, t))).Some?
    ensures Words(AddLegacyOptions(Command(a, Modern, known, t))).value ==
      ProgramArgs(a) + (HostArgs(known) + ["-o", HOST_KEY, "-o", PUBKEY]) + OperandArgs(t)
  {
    RewriteIsLegacyBuild(a, known, t);
    CommandReadsAsIntended(a, Legacy, known, t);
  }

  // ---- A command that is not rewritten ----

  lemma MatchInside(a: string, b: string, c: string, pat: string)
    requires Contains(b, pat)
    ensures Contains(a + b + c, pat)
  {
    var i :| 0 <= i <= |b| && MatchAt(b, pat, i);
    assert (a + b + c)[|a| + i..|a| + i + |pat|] == b[i..i + |pat|];
    assert MatchAt(a + b + c, pat, |a| + i);
  }

  lemma InLeft(a: string, b: string, pat: string)
    requires Contains(a, pat)
    ensures Contains(Spaced(a, b), pat)
  {
    MatchInside("", a, " " + b, pat);
    assert "" + a + (" " + b) == Spaced(a, b);
  }

  lemma InRight(a: string, b: string, pat: string)
    requires Contains(b, pat)
    ensures Contains(Spaced(a, b), pat)
  {
    MatchInside(a + " ", b, "", pat);
    assert (a + " ") + b + "" == Spaced(a, b);
  }

  lemma {:induction false} ReplacedConcat(a: string, b: string)
    ensures Replaced(a + b) == Replaced(a) + Replaced(b)
    decreases |a|
  {
    if a == "" {
      assert a + b == b;
    } else {
      assert (a + b)[1..] == a[1..] + b;
      ReplacedConcat(a[1..], b);
    }
  }

  lemma {:induction false} ReplacedPlain(a: string)
    requires '\'' !in a
    ensures Replaced(a) == a
  {
    if a != "" {
      ReplacedPlain(a[1..]);
    }
  }

  lemma ReplacedAround(before: string, pat: string, after: string)
    requires '\'' !in pat
    ensures Replaced(before + (pat + after)) == Replaced(before) + (pat + Replaced(after))
  {
    ReplacedConcat(before, pat + after);
    ReplacedConcat(pat, after);
    ReplacedPlain(pat);
  }

  lemma ContainsItself(a: string, pat: string, c: string)
    ensures Contains(a + (pat + c), pat)
  {
    assert (a + (pat + c))[|a|..|a| + |pat|] == pat;
    assert MatchAt(a + (pat + c), pat, |a|);
  }

  lemma InReplaced(before: string, pat: string, after: string)
    requires '\'' !in pat
    ensures Contains(Replaced(before + (pat + after)), pat)
  {
    ReplacedAround(before, pat, after);
    ContainsItself(Replaced(before), pat, Replaced(after));
  }

  /** Quoting keeps a text without quotes in one piece. */
  lemma InQuote(v: string, pat: string)
    requires Contains(v, pat) && '\'' !in pat && pat != ""
    ensures Contains(Quote(v), pat)
  {
    var i :| 0 <= i <= |v| && MatchAt(v, pat, i);
    assert v == v[..i] + (pat + v[i + |pat|..]);
    InReplaced(v[..i], pat, v[i + |pat|..]);
    MatchInside("'", Replaced(v), "'", pat);
  }

  lemma PubkeyIsUnquoted()
    ensures '\'' !in PUBKEY && PUBKEY != ""
  {
  }

  lemma CommandHolds(a: Auth, known: string, t: Transfer, pat: string)
    requires Contains(First(t), pat) || Contains(Second(t), pat)
    requires '\'' !in pat && pat != ""
    ensures Contains(Command(a, Modern, known, t), pat)
  {
    var x, y := Quote(First(t)), Quote(Second(t));
    if Contains(First(t), pat) {
      InQuote(First(t), pat);
      InLeft(x, y, pat);
    } else {
      InQuote(Second(t), pat);
      InRight(x, y, pat);
    }
    InRight(Spaced("-P", Spaced(Decimal(t.port), "-r")), Spaced(x, y), pat);
    InRight(Spaced(Program(a), OptionFlags(Modern, known)), Operands(t), pat);
  }

  /** A path that holds the marker itself leaves the command as it was, without the legacy options. */
  lemma MarkedPathIsNotRewritten(a: Auth, known: string, t: Transfer)
    requires Contains(First(t), PUBKEY) || Contains(Second(t), PUBKEY)
    ensures AddLegacyOptions(Command(a, Modern, known, t)) == Command(a, Modern, known, t)
    ensures AddLegacyOptions(Command(a, Modern, known, t)) != Command(a, Legacy, known, t)
  {
    PubkeyIsUnquoted();
    CommandHolds(a, known, t, PUBKEY);
    RewriteIsLegacyBuild(a, known, t);
  }

  /** Other commands: not scp, nothing changes; no port flag, the options go at the end. */
  lemma OtherCommands(command: string)
    ensures !Contains(command, "scp") ==> AddLegacyOptions(command) == command
    ensures Contains(command, "scp") && !Contains(command, PUBKEY) && !Contains(command, " -P ") ==>
      AddLegacyOptions(command) == command + (" " + LEGACY_OPTIONS)
  {
  }
}
