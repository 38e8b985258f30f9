/** The SCP command line of a transfer, and what a shell reads it as. */
module ScpCommand {
  import opened Json
  import opened Text
  import opened ShellQuoting

  datatype Profile = Modern | Legacy

  const STRICT_NO := "StrictHostKeyChecking=no"
  const STRICT_YES := "StrictHostKeyChecking=yes"
  const KNOWN_HOSTS := "UserKnownHostsFile="
  const HOST_KEY := "HostKeyAlgorithms=+ssh-rsa"
  const PUBKEY := "PubkeyAcceptedAlgorithms=+ssh-rsa"
  const PORT_FLAG := " -P "

  function Opt(setting: string): string {
    Spaced("-o", setting)
  }

  /** "-o HostKeyAlgorithms=+ssh-rsa -o PubkeyAcceptedAlgorithms=+ssh-rsa" */
  const LEGACY_OPTIONS := Spaced(Opt(HOST_KEY), Opt(PUBKEY))

  // ---- Building ----

  predicate NeedsQuote(c: char) {
    Blank(c) || Active(c) || c == '\r' || c == '\'' || c == '"' || c == '\\'
  }

  function OptionValue(v: string): string {
    if exists i :: 0 <= i < |v| && NeedsQuote(v[i]) then Quote(v) else v
  }

  /** `known` is the trimmed known-hosts setting, empty when there is none. */
  function HostOptions(known: string): string {
    if known == "" then Opt(STRICT_NO) else Spaced(Opt(STRICT_YES), Opt(KNOWN_HOSTS + OptionValue(known)))
  }

  function OptionFlags(profile: Profile, known: string): string {
    if profile == Legacy then Spaced(HostOptions(known), LEGACY_OPTIONS) else HostOptions(known)
  }

  datatype Transfer = Transfer(user: string, host: string, port: nat, source: string, target: string, upload: bool)

  function Remote(t: Transfer): string {
    t.user + "@" + t.host + ":" + t.target
  }

  function First(t: Transfer): string {
    if t.upload then t.source else Remote(t)
  }

  function Second(t: Transfer): string {
    if t.upload then Remote(t) else t.source
  }

  /** "-P <port> -r <from> <to>" */
  function Operands(t: Transfer): string {
    Spaced(Spaced("-P", Spaced(Decimal(t.port), "-r")), Spaced(Quote(First(t)), Quote(Second(t))))
  }

  datatype Auth = Key(file: string) | Password

  /** "scp -i <key>", or "sshpass -e scp" */
  function Program(a: Auth): string {
    match a
    case Key(file) => Spaced("scp", Spaced("-i", Quote(file)))
    case Password => Spaced("sshpass", Spaced("-e", "scp"))
  }

  function Command(a: Auth, profile: Profile, known: string, t: Transfer): string {
    Spaced(Spaced(Program(a), OptionFlags(profile, known)), Operands(t))
  }

  /** A private key wins over a password; with neither there is no command. `keyFile` names the temporary key file. */
  function BuildScpCommand(
    privateKey: string, password: string, keyFile: string, profile: Profile, known: string, t:
    Transfer): Option<string> {
    if privateKey != "" then Some(Command(Key(keyFile), profile, known, t))
    else if password != "" then Some(Command(Password, profile, known, t))
    else None
  }

  // ---- What the command means ----

  function ProgramArgs(a: Auth): seq<string> {
    match a
    case Key(file) => ["scp", "-i", file]
    case Password => ["sshpass", "-e", "scp"]
  }

  function HostArgs(known: string): seq<string> {
    if known == "" then ["-o", STRICT_NO] else ["-o", STRICT_YES, "-o", KNOWN_HOSTS + known]
  }

  function LegacyArgs(profile: Profile): seq<string> {
    if profile == Legacy then ["-o", HOST_KEY, "-o", PUBKEY] else []
  }

  function OperandArgs(t: Transfer): seq<string> {
    ["-P", Decimal(t.port), "-r"] + [First(t), Second(t)]
  }

  /** The argument vector the transfer intends. */
  function Argv(a: Auth, profile: Profile, known: string, t: Transfer): seq<string> {
    ProgramArgs(a) + (HostArgs(known) + LegacyArgs(profile)) + OperandArgs(t)
  }

  // ---- Building and reading agree ----

  lemma StrictIsPlain()
    ensures PlainWord(STRICT_NO) && PlainWord(STRICT_YES)
  {
    var stem := "StrictHostKeyChecking=";
    assert PlainWord(stem);
    assert STRICT_NO == stem + "no" && STRICT_YES == stem + "yes";
  }

  lemma HostKeyIsPlain()
    ensures PlainWord(HOST_KEY)
  {
  }

  lemma PubkeyStartIsPlain()
    ensures PlainWord("PubkeyAccepted") && PlainChars("Algorithms")
  {
  }

  lemma PubkeyIsPlain()
    ensures PlainWord(PUBKEY)
  {
    PubkeyStartIsPlain();
    assert PlainChars("=+ssh-rsa");
    assert PUBKEY == "PubkeyAccepted" + "Algorithms" + "=+ssh-rsa";
  }

  lemma KnownHostsIsPlain()
    ensures PlainWord(KNOWN_HOSTS)
  {
  }

  lemma FlagsArePlain()
    ensures PlainWord("scp") && PlainWord("sshpass") && PlainWord("-i") && PlainWord("-e") && PlainWord("-o")
    ensures PlainWord("-P") && PlainWord("-r")
  {
  }

  lemma {:induction false} DecimalIsPlain(n: nat)
    ensures PlainWord(Decimal(n))
  {
    if n >= 10 {
      DecimalIsPlain(n / 10);
    }
  }

  /** Pieces that spell a text and stand for a list of words. */
  predicate Spells(pieces: seq<Piece>, text: string, args: seq<string>) {
    pieces != [] && AllOk(pieces) && Line(pieces) == text && Meanings(pieces) == args
  }

  lemma Joined(a: seq<Piece>, text1: string, args1: seq<string>, b: seq<Piece>, text2: string, args2: seq<string>)
    requires Spells(a, text1, args1) && Spells(b, text2, args2)
    ensures Spells(a + b, Spaced(text1, text2), args1 + args2)
  {
    LineConcat(a, b);
    MeaningsConcat(a, b);
  }

  lemma OptSpells(setting: Piece)
    requires setting.Ok()
    ensures Spells([Plain("-o"), setting], Opt(setting.Text()), ["-o", setting.Meaning()])
  {
    FlagsArePlain();
    LineOf2(Plain("-o"), setting);
  }

  lemma TwoOptsSpell(x: Piece, y: Piece)
    requires x.Ok() && y.Ok()
    ensures Spells([Plain("-o"), x] + [Plain("-o"), y], Spaced(Opt(x.Text()), Opt(y.Text())),
      ["-o", x.Meaning()] + ["-o", y.Meaning()])
  {
    OptSpells(x);
    OptSpells(y);
    Joined([Plain("-o"), x], Opt(x.Text()), ["-o", x.Meaning()], [Plain("-o"), y], Opt(y.Text()), ["-o", y.Meaning()]);
  }

  function KnownHostsPiece(known: string): Piece {
    if exists i :: 0 <= i < |known| && NeedsQuote(known[i]) then Setting(KNOWN_HOSTS, known)
      else Plain(KNOWN_HOSTS + known)
  }

  lemma KnownHostsSpells(known: string)
    ensures KnownHostsPiece(known).Ok()
    ensures KnownHostsPiece(known).Text() == KNOWN_HOSTS + OptionValue(known)
    ensures KnownHostsPiece(known).Meaning() == KNOWN_HOSTS + known
  {
    KnownHostsIsPlain();
  }

  lemma HostOptionsSpell(known: string) returns (pieces: seq<Piece>)
    ensures Spells(pieces, HostOptions(known), HostArgs(known))
  {
    StrictIsPlain();
    if known == "" {
      pieces := [Plain("-o"), Plain(STRICT_NO)];
      OptSpells(Plain(STRICT_NO));
    } else {
      var k := KnownHostsPiece(known);
      KnownHostsSpells(known);
      pieces := [Plain("-o"), Plain(STRICT_YES)] + [Plain("-o"), k];
      TwoOptsSpell(Plain(STRICT_YES), k);
    }
  }

  lemma FlagsSpell(profile: Profile, known: string) returns (pieces: seq<Piece>)
    ensures Spells(pieces, OptionFlags(profile, known), HostArgs(known) + LegacyArgs(profile))
  {
    pieces := HostOptionsSpell(known);
    if profile == Legacy {
      HostKeyIsPlain();
      PubkeyIsPlain();
      var legacy := [Plain("-o"), Plain(HOST_KEY)] + [Plain("-o"), Plain(PUBKEY)];
      TwoOptsSpell(Plain(HOST_KEY), Plain(PUBKEY));
      Joined(pieces, HostOptions(known), HostArgs(known), legacy, LEGACY_OPTIONS, LegacyArgs(Legacy));
      pieces := pieces + legacy;
    } else {
      assert HostArgs(known) + [] == HostArgs(known);
    }
  }

  lemma OperandsSpell(t: Transfer) returns (pieces: seq<Piece>)
    ensures Spells(pieces, Operands(t), OperandArgs(t))
  {
    FlagsArePlain();
    DecimalIsPlain(t.port);
    var p, d, r := Plain("-P"), Plain(Decimal(t.port)), Plain("-r");
    var x, y := Quoted(First(t)), Quoted(Second(t));
    LineOf3(p, d, r);
    LineOf2(x, y);
    Joined([p, d, r], Line([p, d, r]), ["-P", Decimal(t.port), "-r"], [x, y], Line([x, y]), [First(t), Second(t)]);
    pieces := [p, d, r] + [x, y];
  }

  lemma ProgramSpells(a: Auth) returns (pieces: seq<Piece>)
    ensures Spells(pieces, Program(a), ProgramArgs(a))
  {
    FlagsArePlain();
    match a
    case Key(file) =>
      pieces := [Plain("scp"), Plain("-i"), Quoted(file)];
      LineOf3(Plain("scp"), Plain("-i"), Quoted(file));
    case Password =>
      pieces := [Plain("sshpass"), Plain("-e"), Plain("scp")];
      LineOf3(Plain("sshpass"), Plain("-e"), Plain("scp"));
  }

  /** For every user, host, path, key file, known-hosts path and port, a POSIX shell reads the command as the intended
      argument vector. */
  lemma CommandReadsAsIntended(a: Auth, profile: Profile, known: string, t: Transfer)
    ensures Words(Command(a, profile, known, t)) == Some(Argv(a, profile, known, t))
  {
    var program := ProgramSpells(a);
    var flags := FlagsSpell(profile, known);
    var operands := OperandsSpell(t);
    AllTogether(program, Program(a), ProgramArgs(a),
                flags, OptionFlags(profile, known), HostArgs(known) + LegacyArgs(profile),
                operands, Operands(t), OperandArgs(t));
  }

  /** The words, written out: the last two are the source and the target, in the direction of the transfer. */
  lemma CommandCopiesInDirection(a: Auth, profile: Profile, known: string, t: Transfer)
    ensures Words(Command(a, profile, known, t)).Some?
    ensures var words, remote := Words(Command(a, profile, known, t)).value, t.user + "@" + t.host + ":" + t.target;
      && |words| >= 5
      && words[|words| - 2..] == (if t.upload then [t.source, remote] else [remote, t.source])
      && words[|words| - 5..|words| - 2] == ["-P", Decimal(t.port), "-r"]
  {
    CommandReadsAsIntended(a, profile, known, t);
    var front := ProgramArgs(a) + (HostArgs(known) + LegacyArgs(profile));
    var middle, last := ["-P", Decimal(t.port), "-r"], [First(t), Second(t)];
    var words := Argv(a, profile, known, t);
    assert words == front + middle + last;
    assert words[|words| - 2..] == last && words[|words| - 5..|words| - 2] == middle;
  }

  lemma Slices(p: seq<string>, h: seq<string>, l: seq<string>, o: seq<string>, words: seq<string>)
    requires words == p + (h + l) + o
    ensures words[..|p|] == p
    ensures words[|p|..|p| + |h|] == h
    ensures words[|p| + |h|..|p| + |h| + |l|] == l
    ensures |words| == |p| + |h| + |l| + |o|
  {
  }

  lemma HostArgsAre(known: string)
    ensures known == "" ==> HostArgs(known) == ["-o", "StrictHostKeyChecking=no"]
    ensures known != "" ==>
      HostArgs(known) == ["-o", "StrictHostKeyChecking=yes", "-o", "UserKnownHostsFile=" + known]
  {
  }

  lemma LegacyArgsAre(profile: Profile)
    ensures profile == Modern ==> LegacyArgs(profile) == []
    ensures profile == Legacy ==>
      LegacyArgs(profile) == ["-o", "HostKeyAlgorithms=+ssh-rsa", "-o", "PubkeyAcceptedAlgorithms=+ssh-rsa"]
  {
  }

  /** And the words before them, written out: how to authenticate, then what to check of the host, then the legacy
      algorithms for that profile. */
  lemma CommandBeginsAsIntended(a: Auth, profile: Profile, known: string, t: Transfer, words: seq<string>)
    requires Words(Command(a, profile, known, t)) == Some(words)
    ensures var n := if known == "" then 5 else 7;
      && |words| == n + (if profile == Legacy then 4 else 0) + 5
      && (a.Key? ==> words[..3] == ["scp", "-i", a.file])
      && (a.Password? ==> words[..3] == ["sshpass", "-e", "scp"])
      && (known == "" ==> words[3..5] == ["-o", "StrictHostKeyChecking=no"])
      && (known != "" ==>
            words[3..7] == ["-o", "StrictHostKeyChecking=yes", "-o", "UserKnownHostsFile=" + known])
      && (profile == Legacy ==>
            words[n..n + 4] == ["-o", "HostKeyAlgorithms=+ssh-rsa", "-o", "PubkeyAcceptedAlgorithms=+ssh-rsa"])
  {
    CommandReadsAsIntended(a, profile, known, t);
    HostArgsAre(known);
    LegacyArgsAre(profile);
    Slices(ProgramArgs(a), HostArgs(known), LegacyArgs(profile), OperandArgs(t), words);
  }

  /** There is a command exactly if there is a way to authenticate, and it reads as the arguments for that way. */
  lemma BuiltCommandReads(
    privateKey: string, password: string, keyFile: string, profile: Profile, known: string, t: Transfer)
    ensures var built := BuildScpCommand(privateKey, password, keyFile, profile, known, t);
      && (built.None? <==> privateKey == "" && password == "")
      && (privateKey != "" ==> Words(built.value) == Some(Argv(Key(keyFile), profile, known, t)))
      && (privateKey == "" && password != "" ==> Words(built.value) == Some(Argv(Password, profile, known, t)))
  {
    CommandReadsAsIntended(Key(keyFile), profile, known, t);
    CommandReadsAsIntended(Password, profile, known, t);
  }

  lemma AllTogether(p: seq<Piece>, text1: string, args1: seq<string>, q: seq<Piece>, text2: string, args2: seq<string>,
                    r: seq<Piece>, text3: string, args3: seq<string>)
    requires Spells(p, text1, args1) && Spells(q, text2, args2) && Spells(r, text3, args3)
    ensures Words(Spaced(Spaced(text1, text2), text3)) == Some(args1 + args2 + args3)
  {
    Joined(p, text1, args1, q, text2, args2);
    Joined(p + q, Spaced(text1, text2), args1 + args2, r, text3, args3);
    LineRoundTrip(p + q + r);
  }
}
