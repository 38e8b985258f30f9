/**
 * Ansible inventory lines built from host credentials, read back by the tokenizer Ansible uses on them
 * (`shlex.split` in POSIX mode with comments).
 */
module Inventory {
  import opened Json
  import opened Text

  // ---- The tokenizer ----

  predicate Whitespace(c: char) {
    c == ' ' || c == '\t' || c == '\r' || c == '\n'
  }

  /** `Start`: before a token. `Token`: in one. `InQuotes`: after an opening quote `q`. `Escaped`: after a backslash,
      with the quote character around it if there is one. `Comment`: to the end of the line. */
  datatype Mode =
    | Start
    | Token(t: string)
    | InQuotes(q: char, t: string)
    | Escaped(around: Option<char>, t: string)
    | Comment

  function Tokens(mode: Mode, s: string, done: seq<string>): Option<seq<string>>
    decreases |s|
  {
    if s == "" then
      match mode
      case Start => Some(done)
      case Comment => Some(done)
      case Token(t) => Some(done + [t])
      case _ => None
    else
      var c, rest := s[0], s[1..];
      match mode
      case Start =>
        if Whitespace(c) then Tokens(Start, rest, done)
        else if c == '#' then Tokens(Comment, rest, done)
        else if c == '\\' then Tokens(Escaped(None, ""), rest, done)
        else if c == '"' || c == '\'' then Tokens(InQuotes(c, ""), rest, done)
        else Tokens(Token([c]), rest, done)
      case Token(t) =>
        if Whitespace(c) then Tokens(Start, rest, done + [t])
        else if c == '#' then Tokens(Comment, rest, done + [t])
        else if c == '"' || c == '\'' then Tokens(InQuotes(c, t), rest, done)
        else if c == '\\' then Tokens(Escaped(None, t), rest, done)
        else Tokens(Token(t + [c]), rest, done)
      case InQuotes(q, t) =>
        if c == q then Tokens(Token(t), rest, done)
        else if c == '\\' && q == '"' then Tokens(Escaped(Some(q), t), rest, done)
        else Tokens(InQuotes(q, t + [c]), rest, done)
      case Escaped(None, t) => Tokens(Token(t + [c]), rest, done)
      case Escaped(Some(q), t) =>
        if c != '\\' && c != q then Tokens(InQuotes(q, t + ['\\', c]), rest, done)
        else Tokens(InQuotes(q, t + [c]), rest, done)
      case Comment =>
        if c == '\n' then Tokens(Start, rest, done) else Tokens(Comment, rest, done)
  }

  /** The tokens of a text, or `None` for an unclosed quote or a trailing backslash. */
  function ShlexSplit(s: string): Option<seq<string>> {
    Tokens(Start, s, [])
  }

  // ---- Quoting a value ----

  /** What `str.isspace` accepts. */
  predicate IsSpace(c: char) {
    var n := c as int;
    || 0x09 <= n <= 0x0D || 0x1C <= n <= 0x20 || n == 0x85 || n == 0xA0 || n == 0x1680
    || 0x2000 <= n <= 0x200A || n == 0x2028 || n == 0x2029 || n == 0x202F || n == 0x205F || n == 0x3000
  }

  predicate Risky(c: char) {
    IsSpace(c) || c == '#' || c == ';' || c == '"' || c == '\''
  }

  function EscapedChar(c: char): string {
    if c == '\\' || c == '"' then ['\\', c] else [c]
  }

  function EscapedText(v: string): string {
    if v == "" then "" else EscapedChar(v[0]) + EscapedText(v[1..])
  }

  predicate NeedsQuotes(v: string) {
    exists i :: 0 <= i < |v| && Risky(v[i])
  }

  function QuoteValue(v: string): string {
    if NeedsQuotes(v) then "\"" + (EscapedText(v) + "\"") else EscapedText(v)
  }

  lemma QuotedCharReads(t: string, c: char, more: string, done: seq<string>)
    ensures Tokens(InQuotes('"', t), EscapedChar(c) + more, done) == Tokens(InQuotes('"', t + [c]), more, done)
  {
    var s := EscapedChar(c) + more;
    if c == '\\' || c == '"' {
      assert s[1..][1..] == more && s[1..][0] == c;
    } else {
      assert s[1..] == more;
    }
  }

  lemma BareCharReads(t: string, c: char, more: string, done: seq<string>)
    requires !Risky(c)
    ensures Tokens(Token(t), EscapedChar(c) + more, done) == Tokens(Token(t + [c]), more, done)
  {
    var s := EscapedChar(c) + more;
    if c == '\\' {
      assert s[1..][1..] == more && s[1..][0] == c;
    } else {
      assert s[1..] == more;
    }
  }

  lemma {:induction false} QuotedTextReads(t: string, v: string, rest: string, done: seq<string>)
    ensures Tokens(InQuotes('"', t), EscapedText(v) + ("\"" + rest), done) == Tokens(Token(t + v), rest, done)
    decreases |v|
  {
    var s := EscapedText(v) + ("\"" + rest);
    if v == "" {
      assert s == "\"" + rest && s[1..] == rest && t + v == t;
    } else {
      var c, tail := v[0], v[1..];
      var more := EscapedText(tail) + ("\"" + rest);
      assert s == EscapedChar(c) + more;
      QuotedCharReads(t, c, more, done);
      QuotedTextReads(t + [c], tail, rest, done);
      assert (t + [c]) + tail == t + v;
    }
  }

  lemma {:induction false} BareTextReads(t: string, v: string, rest: string, done: seq<string>)
    requires forall i :: 0 <= i < |v| ==> !Risky(v[i])
    ensures Tokens(Token(t), EscapedText(v) + rest, done) == Tokens(Token(t + v), rest, done)
    decreases |v|
  {
    if v == "" {
      assert EscapedText(v) + rest == rest && t + v == t;
    } else {
      var c, tail := v[0], v[1..];
      var more := EscapedText(tail) + rest;
      assert EscapedText(v) + rest == EscapedChar(c) + more;
      BareCharReads(t, c, more, done);
      BareTextReads(t + [c], tail, rest, done);
      assert (t + [c]) + tail == t + v;
    }
  }

  lemma QuoteOpens(t: string, inner: string, done: seq<string>)
    ensures Tokens(Token(t), "\"" + inner, done) == Tokens(InQuotes('"', t), inner, done)
  {
    assert ("\"" + inner)[0] == '"' && ("\"" + inner)[1..] == inner;
  }

  lemma Regrouped(q: string, a: string, b: string)
    ensures (q + (a + q)) + b == q + (a + (q + b))
  {
  }

  lemma QuotedValueReads(t: string, v: string, rest: string, done: seq<string>)
    requires NeedsQuotes(v)
    ensures Tokens(Token(t), QuoteValue(v) + rest, done) == Tokens(Token(t + v), rest, done)
  {
    Regrouped("\"", EscapedText(v), rest);
    QuoteOpens(t, EscapedText(v) + ("\"" + rest), done);
    QuotedTextReads(t, v, rest, done);
  }

  /** Inside a token, a quoted value reads back as exactly the value, whatever characters it has. */
  lemma ValueReads(t: string, v: string, rest: string, done: seq<string>)
    ensures Tokens(Token(t), QuoteValue(v) + rest, done) == Tokens(Token(t + v), rest, done)
  {
    if NeedsQuotes(v) {
      QuotedValueReads(t, v, rest, done);
    } else {
      BareTextReads(t, v, rest, done);
    }
  }

  // ---- Lines ----

  predicate PlainText(s: string) {
    forall i :: 0 <= i < |s| ==> !Risky(s[i]) && s[i] != '\\'
  }

  /** A name with nothing the tokenizer treats specially, and not empty. */
  predicate PlainName(s: string) {
    s != "" && PlainText(s)
  }

  /** The connection variables a line may set, in the order they are written. */
  datatype Key =
    | User
    | Port
    | Connection
    | Scheme
    | Transport
    | CertValidation
    | Password
    | CommonArgs
    | KeyFile
    | Passphrase

  const KEYS: seq<Key> :=
    [User, Port, Connection, Scheme, Transport, CertValidation, Password, CommonArgs, KeyFile, Passphrase]

  function Name(k: Key): string {
    match k
    case User => "ansible_user"
    case Port => "ansible_port"
    case Connection => "ansible_connection"
    case Scheme => "ansible_winrm_scheme"
    case Transport => "ansible_winrm_transport"
    case CertValidation => "ansible_winrm_server_cert_validation"
    case Password => "ansible_password"
    case CommonArgs => "ansible_ssh_common_args"
    case KeyFile => "ansible_ssh_private_key_file"
    case Passphrase => "ansible_ssh_passphrase"
  }

  /** A variable and its value. */
  datatype Var = Var(key: Key, value: string)

  predicate NameChar(c: char) {
    'a' <= c <= 'z' || c == '_'
  }

  lemma LongNamesAreLetters()
    ensures forall i :: 0 <= i < |Name(CertValidation)| ==> NameChar(Name(CertValidation)[i])
    ensures forall i :: 0 <= i < |Name(KeyFile)| ==> NameChar(Name(KeyFile)[i])
  {
  }

  lemma NamesAreLetters(k: Key)
    ensures Name(k) != "" && forall i :: 0 <= i < |Name(k)| ==> NameChar(Name(k)[i])
  {
    if k == CertValidation || k == KeyFile {
      LongNamesAreLetters();
    }
  }

  lemma NamesArePlain(k: Key)
    ensures PlainName(Name(k)) && '=' !in Name(k)
  {
    NamesAreLetters(k);
  }

  function Assignment(v: Var): string {
    Name(v.key) + ("=" + QuoteValue(v.value))
  }

  function Suffix(vars: seq<Var>): string {
    if vars == [] then "" else " " + (Assignment(vars[0]) + Suffix(vars[1..]))
  }

  function Recovered(vars: seq<Var>): seq<string> {
    if vars == [] then [] else [Name(vars[0].key) + ("=" + vars[0].value)] + Recovered(vars[1..])
  }

  lemma {:induction false} PlainTextReads(t: string, p: string, rest: string, done: seq<string>)
    requires PlainText(p)
    ensures Tokens(Token(t), p + rest, done) == Tokens(Token(t + p), rest, done)
    decreases |p|
  {
    if p == "" {
      assert p + rest == rest && t + p == t;
    } else {
      assert (p + rest)[1..] == p[1..] + rest;
      PlainTextReads(t + [p[0]], p[1..], rest, done);
      assert (t + [p[0]]) + p[1..] == t + p;
    }
  }

  lemma NameReads(p: string, rest: string, done: seq<string>)
    requires PlainName(p)
    ensures Tokens(Start, p + rest, done) == Tokens(Token(p), rest, done)
  {
    assert (p + rest)[1..] == p[1..] + rest;
    PlainTextReads([p[0]], p[1..], rest, done);
    assert [p[0]] + p[1..] == p;
  }

  lemma AssignmentReads(name: string, value: string, rest: string, done: seq<string>)
    requires PlainName(name)
    ensures Tokens(Start, name + ("=" + QuoteValue(value)) + rest, done)
         == Tokens(Token(name + ("=" + value)), rest, done)
  {
    var more := QuoteValue(value) + rest;
    assert name + ("=" + QuoteValue(value)) + rest == name + ("=" + more);
    NameReads(name, "=" + more, done);
    assert ("=" + more)[1..] == more;
    ValueReads(name + "=", value, rest, done);
    assert (name + "=") + value == name + ("=" + value);
  }

  lemma {:induction false} SuffixReads(t: string, vars: seq<Var>, done: seq<string>)
    ensures Tokens(Token(t), Suffix(vars), done) == Some(done + [t] + Recovered(vars))
    decreases |vars|
  {
    if vars == [] {
      assert done + [t] + [] == done + [t];
    } else {
      var v, more := vars[0], Suffix(vars[1..]);
      var word := Name(v.key) + ("=" + v.value);
      assert Suffix(vars)[1..] == Assignment(v) + more;
      NamesArePlain(v.key);
      AssignmentReads(Name(v.key), v.value, more, done + [t]);
      SuffixReads(word, vars[1..], done + [t]);
      assert done + [t] + [word] + Recovered(vars[1..]) == done + [t] + ([word] + Recovered(vars[1..]));
    }
  }

  /** A line reads back as the host and exactly each `key=value`, for every value. */
  lemma LineRoundTrip(host: string, vars: seq<Var>)
    requires PlainName(host)
    ensures ShlexSplit(host + Suffix(vars)) == Some([host] + Recovered(vars))
  {
    NameReads(host, Suffix(vars), []);
    SuffixReads(host, vars, []);
    assert [] + [host] == [host];
  }

  // ---- Host credentials ----

  /** One entry of the credential list; a missing, `None` or falsy field is `None`. Values are given by their text. */
  datatype HostCredential = HostCredential(
    host: string,
    user: Option<string>,
    port: Option<string>,
    connection: Option<string>,
    winrmScheme: Option<string>,
    winrmTransport: Option<string>,
    winrmCertValidation: Option<bool>,
    password: Option<string>,
    ansibleSshCommonArgs: Option<string>,
    sshCommonArgs: Option<string>,
    privateKeyFile: Option<string>,
    privateKeyContent: Option<string>,
    privateKeyPassphrase: Option<string>)

  function StripLeft(s: string): string {
    if s != "" && IsSpace(s[0]) then StripLeft(s[1..]) else s
  }

  function StripRight(s: string): string {
    if s != "" && IsSpace(s[|s| - 1]) then StripRight(s[..|s| - 1]) else s
  }

  function Strip(s: string): string {
    StripRight(StripLeft(s))
  }

  function Lower(s: string): string {
    if s == "" then ""
    else (if 'A' <= s[0] <= 'Z' then [((s[0] as int) + 32) as char] else [s[0]]) + Lower(s[1..])
  }

  function NonEmpty(v: Option<string>): Option<string> {
    if Truthy(v) then v else None
  }

  predicate ConnectsBy(c: HostCredential, kind: string) {
    Truthy(c.connection) && Lower(Strip(c.connection.value)) == kind
  }

  function PasswordAuthSshCommonArgs(c: HostCredential): string {
    if Truthy(c.ansibleSshCommonArgs) then c.ansibleSshCommonArgs.value
    else if Truthy(c.sshCommonArgs) then c.sshCommonArgs.value
    else "-o StrictHostKeyChecking=no -o UserKnownHostsFile=/dev/null"
  }

  function KeyPath(workspace: string, idx: nat): string {
    workspace + ("/id_rsa_" + Decimal(idx))
  }

  /** The value each variable is meant to have, each on its own terms; `path` is where key content is stored. */
  function Setting(c: HostCredential, path: string, k: Key): Option<string> {
    match k
    case User => NonEmpty(c.user)
    case Port => if c.port.Some? && Strip(c.port.value) != "" then c.port else None
    case Connection => NonEmpty(c.connection)
    case Scheme => if ConnectsBy(c, "winrm") then NonEmpty(c.winrmScheme) else None
    case Transport => if ConnectsBy(c, "winrm") then NonEmpty(c.winrmTransport) else None
    case CertValidation =>
      if ConnectsBy(c, "winrm") && c.winrmCertValidation == Some(false) then Some("ignore") else None
    case Password => NonEmpty(c.password)
    case CommonArgs =>
      if Truthy(c.password) && ConnectsBy(c, "ssh") then Some(PasswordAuthSshCommonArgs(c)) else None
    case KeyFile => if Truthy(c.privateKeyContent) then NonEmpty(Some(path)) else NonEmpty(c.privateKeyFile)
    case Passphrase => NonEmpty(c.privateKeyPassphrase)
  }

  /** The variables among `keys` that have a value, in order. */
  function Chosen(c: HostCredential, path: string, keys: seq<Key>): seq<Var> {
    if keys == [] then []
    else
      (match Setting(c, path, keys[0]) case Some(v) => [Var(keys[0], v)] case None => [])
      + Chosen(c, path, keys[1..])
  }

  /** What follows `name=` in the first token that starts with it. */
  function ValueOf(tokens: seq<string>, name: string): Option<string> {
    if tokens == [] then None
    else
      var t := tokens[0];
      if |name| < |t| && t[..|name|] == name && t[|name|] == '=' then Some(t[|name| + 1..])
      else ValueOf(tokens[1..], name)
  }

  // ---- Reading one line back ----

  lemma NamesDiffer(j: Key, k: Key)
    requires Name(j) == Name(k)
    ensures j == k
  {
    assert |Name(j)| == |Name(k)|;
    assert Name(User)[8] == 'u' && Name(Port)[8] == 'p';
    assert Name(Transport)[8] == 'w' && Name(CommonArgs)[8] == 's';
  }

  /** A token `name=value` is recognised under that name and under no other. */
  lemma TokenIsNamed(name: string, other: string, value: string, more: seq<string>)
    requires '=' !in name && '=' !in other
    ensures ValueOf([name + ("=" + value)] + more, other) == if name == other then Some(value) else ValueOf(more, other)
  {
    var t := name + ("=" + value);
    var n := |other|;
    assert ([t] + more)[1..] == more;
    if name == other {
      assert t[..n] == name && t[n + 1..] == value;
    } else if n == |name| {
      assert t[..n] == name;
    } else if n < |name| {
      assert t[n] == name[n];
    } else if n < |t| {
      assert t[..n][|name|] == '=';
    }
  }

  lemma {:induction false} ChosenAreRead(c: HostCredential, path: string, keys: seq<Key>, k: Key)
    ensures ValueOf(Recovered(Chosen(c, path, keys)), Name(k)) == if k in keys then Setting(c, path, k) else None
    decreases |keys|
  {
    if keys != [] {
      var tail := keys[1..];
      ChosenAreRead(c, path, tail, k);
      var j, vars := keys[0], Chosen(c, path, tail);
      NamesArePlain(j);
      NamesArePlain(k);
      if Name(j) == Name(k) {
        NamesDiffer(j, k);
      }
      assert k in keys <==> k == j || k in tail;
      match Setting(c, path, j)
      case None => assert Chosen(c, path, keys) == vars;
      case Some(v) =>
        var here := Var(j, v);
        assert Chosen(c, path, keys) == [here] + vars && ([here] + vars)[1..] == vars;
        TokenIsNamed(Name(j), Name(k), v, Recovered(vars));
    }
  }

  function HostLine(c: HostCredential, path: string): string {
    Strip(c.host) + Suffix(Chosen(c, path, KEYS))
  }

  function Count(c: HostCredential, path: string, keys: seq<Key>): nat {
    if keys == [] then 0 else (if Setting(c, path, keys[0]).Some? then 1 else 0) + Count(c, path, keys[1..])
  }

  lemma {:induction false} ChosenAreCounted(c: HostCredential, path: string, keys: seq<Key>)
    ensures |Recovered(Chosen(c, path, keys))| == Count(c, path, keys)
    decreases |keys|
  {
    if keys != [] {
      var vars := Chosen(c, path, keys[1..]);
      ChosenAreCounted(c, path, keys[1..]);
      match Setting(c, path, keys[0])
      case None => assert Chosen(c, path, keys) == vars;
      case Some(v) =>
        var here := Var(keys[0], v);
        assert Chosen(c, path, keys) == [here] + vars && ([here] + vars)[1..] == vars;
    }
  }

  lemma EveryKeyIsListed(k: Key)
    ensures k in KEYS
  {
    assert KEYS[0] == User && KEYS[1] == Port && KEYS[2] == Connection && KEYS[3] == Scheme && KEYS[4] == Transport;
    assert KEYS[5] == CertValidation && KEYS[6] == Password && KEYS[7] == CommonArgs && KEYS[8] == KeyFile;
    assert KEYS[9] == Passphrase;
  }

  /** For every credential with a plain host name, tokenising its line gives the host first, then for each variable
      exactly the value it is meant to have (or nothing when it has none), and no further token. */
  lemma CredentialRoundTrip(c: HostCredential, path: string, k: Key)
    requires PlainName(Strip(c.host))
    ensures var read := ShlexSplit(HostLine(c, path));
            && read.Some? && |read.value| == 1 + Count(c, path, KEYS) && read.value[0] == Strip(c.host)
            && ValueOf(read.value[1..], Name(k)) == Setting(c, path, k)
  {
    var vars := Chosen(c, path, KEYS);
    LineRoundTrip(Strip(c.host), vars);
    ChosenAreRead(c, path, KEYS, k);
    ChosenAreCounted(c, path, KEYS);
    EveryKeyIsListed(k);
    assert ([Strip(c.host)] + Recovered(vars))[1..] == Recovered(vars);
  }

  /** `w` is `s` without its outer white space. */
  ghost predicate Trims(s: string, w: string) {
    && (w == "" || (!IsSpace(w[0]) && !IsSpace(w[|w| - 1])))
    && exists i, j :: 0 <= i <= j <= |s| && w == s[i..j] && AllSpace(s[..i]) && AllSpace(s[j..])
  }

  predicate AllSpace(s: string) {
    forall i :: 0 <= i < |s| ==> IsSpace(s[i])
  }

  lemma {:induction false} StripLeftTrims(s: string) returns (i: nat)
    ensures i <= |s| && StripLeft(s) == s[i..] && AllSpace(s[..i])
    ensures StripLeft(s) == "" || !IsSpace(StripLeft(s)[0])
  {
    if s != "" && IsSpace(s[0]) {
      var k := StripLeftTrims(s[1..]);
      i := k + 1;
      assert s[1..][k..] == s[i..];
      forall n | 0 <= n < i ensures IsSpace(s[..i][n]) {
        assert n > 0 ==> IsSpace(s[1..][..k][n - 1]);
      }
    } else {
      i := 0;
    }
  }

  lemma {:induction false} StripRightTrims(s: string) returns (j: nat)
    ensures j <= |s| && StripRight(s) == s[..j] && AllSpace(s[j..])
    ensures StripRight(s) == "" || !IsSpace(StripRight(s)[|StripRight(s)| - 1])
    decreases |s|
  {
    if s != "" && IsSpace(s[|s| - 1]) {
      var t := s[..|s| - 1];
      j := StripRightTrims(t);
      assert t[..j] == s[..j];
      forall n | 0 <= n < |s| - j ensures IsSpace(s[j..][n]) {
        assert n < |t| - j ==> IsSpace(t[j..][n]);
      }
    } else {
      j := |s|;
    }
  }

  lemma StripTrims(s: string)
    ensures Trims(s, Strip(s))
  {
    var i := StripLeftTrims(s);
    var t := s[i..];
    var j := StripRightTrims(t);
    assert Strip(s) == t[..j] == s[i..i + j];
    assert t[j..] == s[i + j..];
  }

  lemma {:induction false} LowerIsCharwise(s: string)
    ensures |Lower(s)| == |s|
    ensures forall i :: 0 <= i < |s| ==>
      Lower(s)[i] as int == if 'A' <= s[i] <= 'Z' then s[i] as int + 32 else s[i] as int
  {
    if s != "" {
      LowerIsCharwise(s[1..]);
    }
  }

  /** What a line says, by the names Ansible knows, each from its own field of the credential. */
  lemma LineSays(c: HostCredential, path: string, read: seq<string>)
    requires PlainName(Strip(c.host)) && ShlexSplit(HostLine(c, path)) == Some([Strip(c.host)] + read)
    ensures ValueOf(read, "ansible_user") == (if Truthy(c.user) then c.user else None)
    ensures ValueOf(read, "ansible_port") == (if c.port.Some? && Strip(c.port.value) != "" then c.port else None)
    ensures ValueOf(read, "ansible_connection") == (if Truthy(c.connection) then c.connection else None)
    ensures ValueOf(read, "ansible_password") == (if Truthy(c.password) then c.password else None)
    ensures ValueOf(read, "ansible_ssh_passphrase") ==
      (if Truthy(c.privateKeyPassphrase) then c.privateKeyPassphrase else None)
  {
    assert ([Strip(c.host)] + read)[1..] == read;
    CredentialRoundTrip(c, path, User);
    CredentialRoundTrip(c, path, Port);
    CredentialRoundTrip(c, path, Connection);
    CredentialRoundTrip(c, path, Password);
    CredentialRoundTrip(c, path, Passphrase);
  }

  /** The WinRM variables are set only for a connection whose stripped lower-case text is `winrm`. */
  lemma LineSaysWinrm(c: HostCredential, path: string, read: seq<string>)
    requires PlainName(Strip(c.host)) && ShlexSplit(HostLine(c, path)) == Some([Strip(c.host)] + read)
    ensures var winrm := c.connection.Some? && Lower(Strip(c.connection.value)) == "winrm";
      && ValueOf(read, "ansible_winrm_scheme") == (if winrm && Truthy(c.winrmScheme) then c.winrmScheme else None)
      && ValueOf(read, "ansible_winrm_transport") ==
           (if winrm && Truthy(c.winrmTransport) then c.winrmTransport else None)
      && ValueOf(read, "ansible_winrm_server_cert_validation") ==
           (if winrm && c.winrmCertValidation == Some(false) then Some("ignore") else None)
  {
    assert ([Strip(c.host)] + read)[1..] == read;
    EmptyIsNoKind();
    CredentialRoundTrip(c, path, Scheme);
    CredentialRoundTrip(c, path, Transport);
    CredentialRoundTrip(c, path, CertValidation);
  }

  lemma EmptyIsNoKind()
    ensures Lower(Strip("")) == ""
  {
  }

  /** SSH arguments go with a password over a connection whose stripped lower-case text is `ssh`, the explicit ones
      first; key content wins over a key file. */
  lemma LineSaysSsh(c: HostCredential, path: string, read: seq<string>)
    requires path != ""
    requires PlainName(Strip(c.host)) && ShlexSplit(HostLine(c, path)) == Some([Strip(c.host)] + read)
    ensures var ssh := c.connection.Some? && Lower(Strip(c.connection.value)) == "ssh";
      ValueOf(read, "ansible_ssh_common_args") ==
        if !ssh || !Truthy(c.password) then None
        else if Truthy(c.ansibleSshCommonArgs) then c.ansibleSshCommonArgs
        else if Truthy(c.sshCommonArgs) then c.sshCommonArgs
        else Some("-o StrictHostKeyChecking=no -o UserKnownHostsFile=/dev/null")
    ensures ValueOf(read, "ansible_ssh_private_key_file") ==
      (if Truthy(c.privateKeyContent) then Some(path)
       else if Truthy(c.privateKeyFile) then c.privateKeyFile else None)
  {
    assert ([Strip(c.host)] + read)[1..] == read;
    EmptyIsNoKind();
    CredentialRoundTrip(c, path, CommonArgs);
    CredentialRoundTrip(c, path, KeyFile);
  }

  // ---- Writing the lines ----

  lemma {:induction false} ChosenGrows(c: HostCredential, path: string, keys: seq<Key>, k: Key)
    ensures Chosen(c, path, keys + [k]) == Chosen(c, path, keys) + Chosen(c, path, [k])
    decreases |keys|
  {
    if keys == [] {
      assert [] + [k] == [k];
    } else {
      assert (keys + [k])[1..] == keys[1..] + [k];
      ChosenGrows(c, path, keys[1..], k);
    }
  }

  /** Considering the variable `KEYS[n]` after the first `n`. */
  lemma NextIsChosen(c: HostCredential, path: string, n: nat, parts: seq<Var>, next: seq<Var>)
    requires n < |KEYS| && parts == Chosen(c, path, KEYS[..n])
    requires next == match Setting(c, path, KEYS[n]) case Some(v) => parts + [Var(KEYS[n], v)] case None => parts
    ensures next == Chosen(c, path, KEYS[..n + 1])
  {
    var k := KEYS[n];
    assert KEYS[..n + 1] == KEYS[..n] + [k];
    ChosenGrows(c, path, KEYS[..n], k);
    assert [k][1..] == [] && Chosen(c, path, []) == [];
  }

  /** User, port and connection variables. */
  method ConnectionParts(c: HostCredential, path: string) returns (parts: seq<Var>)
    ensures parts == Chosen(c, path, KEYS[..3])
  {
    parts := [];
    ghost var was := parts;
    if Truthy(c.user) {
      parts := parts + [Var(User, c.user.value)];
    }
    NextIsChosen(c, path, 0, was, parts);
    was := parts;
    if c.port.Some? && Strip(c.port.value) != "" {
      parts := parts + [Var(Port, c.port.value)];
    }
    NextIsChosen(c, path, 1, was, parts);
    was := parts;
    if Truthy(c.connection) {
      parts := parts + [Var(Connection, c.connection.value)];
    }
    NextIsChosen(c, path, 2, was, parts);
  }

  /** WinRM variables. */
  method WinrmParts(c: HostCredential, path: string, begun: seq<Var>) returns (parts: seq<Var>)
    requires begun == Chosen(c, path, KEYS[..3])
    ensures parts == Chosen(c, path, KEYS[..6])
  {
    parts := begun;
    var winrm := ConnectsBy(c, "winrm");
    if winrm && Truthy(c.winrmScheme) {
      parts := parts + [Var(Scheme, c.winrmScheme.value)];
    }
    NextIsChosen(c, path, 3, begun, parts);
    ghost var was := parts;
    if winrm && Truthy(c.winrmTransport) {
      parts := parts + [Var(Transport, c.winrmTransport.value)];
    }
    NextIsChosen(c, path, 4, was, parts);
    was := parts;
    if winrm && c.winrmCertValidation == Some(false) {
      parts := parts + [Var(CertValidation, "ignore")];
    }
    NextIsChosen(c, path, 5, was, parts);
  }

  /** Password variables. */
  method PasswordParts(c: HostCredential, path: string, begun: seq<Var>) returns (parts: seq<Var>)
    requires begun == Chosen(c, path, KEYS[..6])
    ensures parts == Chosen(c, path, KEYS[..8])
  {
    parts := begun;
    if Truthy(c.password) {
      parts := parts + [Var(Password, c.password.value)];
    }
    NextIsChosen(c, path, 6, begun, parts);
    ghost var was := parts;
    if Truthy(c.password) && ConnectsBy(c, "ssh") {
      parts := parts + [Var(CommonArgs, PasswordAuthSshCommonArgs(c))];
    }
    NextIsChosen(c, path, 7, was, parts);
  }

  /** Key variables. */
  method KeyParts(c: HostCredential, path: string, begun: seq<Var>) returns (parts: seq<Var>)
    requires begun == Chosen(c, path, KEYS[..8]) && path != ""
    ensures parts == Chosen(c, path, KEYS)
  {
    parts := begun;
    var file := if Truthy(c.privateKeyContent) then Some(path) else c.privateKeyFile;
    if Truthy(file) {
      parts := parts + [Var(KeyFile, file.value)];
    }
    NextIsChosen(c, path, 8, begun, parts);
    ghost var was := parts;
    if Truthy(c.privateKeyPassphrase) {
      parts := parts + [Var(Passphrase, c.privateKeyPassphrase.value)];
    }
    NextIsChosen(c, path, 9, was, parts);
    assert KEYS[..10] == KEYS;
  }

  // ---- The whole file ----

  function Terminated(lines: seq<string>): string {
    if lines == [] then "" else Terminated(lines[..|lines| - 1]) + (lines[|lines| - 1] + "\n")
  }

  /** Where `str.splitlines` ends a line. */
  predicate LineBreak(c: char) {
    var n := c as int;
    0x0A <= n <= 0x0D || 0x1C <= n <= 0x1E || n == 0x85 || n == 0x2028 || n == 0x2029
  }

  predicate OneLine(s: string) {
    forall i :: 0 <= i < |s| ==> !LineBreak(s[i])
  }

  /** The lines of a text, as `str.splitlines` gives them; what follows the last break counts if it is not empty. */
  function SplitLines(s: string, begun: string): seq<string>
    decreases |s|
  {
    if s == "" then (if begun == "" then [] else [begun])
    else if s[0] == '\r' && |s| >= 2 && s[1] == '\n' then [begun] + SplitLines(s[2..], "")
    else if LineBreak(s[0]) then [begun] + SplitLines(s[1..], "")
    else SplitLines(s[1..], begun + [s[0]])
  }

  lemma {:induction false} LineSplits(begun: string, line: string, rest: string)
    requires OneLine(line)
    ensures SplitLines(line + ("\n" + rest), begun) == [begun + line] + SplitLines(rest, "")
    decreases |line|
  {
    var s := line + ("\n" + rest);
    if line == "" {
      assert s == "\n" + rest && s[1..] == rest && begun + line == begun;
    } else {
      assert s[1..] == line[1..] + ("\n" + rest);
      LineSplits(begun + [line[0]], line[1..], rest);
      assert begun + [line[0]] + line[1..] == begun + line;
    }
  }

  lemma {:induction false} LinesSplit(lines: seq<string>, rest: string)
    requires forall i :: 0 <= i < |lines| ==> OneLine(lines[i])
    ensures SplitLines(Terminated(lines) + rest, "") == lines + SplitLines(rest, "")
    decreases |lines|
  {
    if lines == [] {
      assert "" + rest == rest;
    } else {
      var init, last := lines[..|lines| - 1], lines[|lines| - 1];
      assert Terminated(lines) + rest == Terminated(init) + (last + ("\n" + rest));
      LinesSplit(init, last + ("\n" + rest));
      LineSplits("", last, rest);
      assert "" + last == last;
      assert lines == init + [last];
    }
  }

  lemma {:induction false} EscapingAddsNoBreak(v: string)
    requires OneLine(v)
    ensures OneLine(EscapedText(v))
  {
    if v != "" {
      assert forall i :: 0 <= i < |v[1..]| ==> v[1..][i] == v[i + 1];
      EscapingAddsNoBreak(v[1..]);
      assert OneLine(EscapedChar(v[0]));
    }
  }

  lemma AssignmentIsOneLine(v: Var)
    requires OneLine(v.value)
    ensures OneLine(Assignment(v))
  {
    NamesArePlain(v.key);
    EscapingAddsNoBreak(v.value);
    assert OneLine(Name(v.key)) && OneLine(QuoteValue(v.value));
  }

  lemma {:induction false} SuffixIsOneLine(c: HostCredential, path: string, keys: seq<Key>)
    requires OneLineValues(c, path)
    ensures OneLine(Suffix(Chosen(c, path, keys)))
    decreases |keys|
  {
    if keys != [] {
      var vars := Chosen(c, path, keys[1..]);
      SuffixIsOneLine(c, path, keys[1..]);
      match Setting(c, path, keys[0])
      case None => assert Chosen(c, path, keys) == vars;
      case Some(v) =>
        var here := Var(keys[0], v);
        assert Chosen(c, path, keys) == [here] + vars && ([here] + vars)[1..] == vars;
        AssignmentIsOneLine(here);
    }
  }

  predicate OneLineValues(c: HostCredential, path: string) {
    forall k: Key :: Setting(c, path, k).Some? ==> OneLine(Setting(c, path, k).value)
  }

  function HostLines(workspace: string, creds: seq<HostCredential>): seq<string> {
    seq(|creds|, i requires 0 <= i < |creds| => HostLine(creds[i], KeyPath(workspace, i)))
  }

  function InventoryText(workspace: string, creds: seq<HostCredential>): string {
    if creds == [] then "" else Terminated(["[all]"] + HostLines(workspace, creds))
  }

  /** The written file holds the group header and then one line per credential, in order. */
  lemma FileRoundTrip(workspace: string, creds: seq<HostCredential>)
    requires forall i :: 0 <= i < |creds| ==>
      PlainName(Strip(creds[i].host)) && OneLineValues(creds[i], KeyPath(workspace, i))
    ensures SplitLines(InventoryText(workspace, creds), "")
         == if creds == [] then [] else ["[all]"] + HostLines(workspace, creds)
  {
    if creds != [] {
      var lines := ["[all]"] + HostLines(workspace, creds);
      forall i | 0 <= i < |lines| ensures OneLine(lines[i]) {
        if i > 0 {
          SuffixIsOneLine(creds[i - 1], KeyPath(workspace, i - 1), KEYS);
        }
      }
      LinesSplit(lines, "");
      assert Terminated(lines) + "" == Terminated(lines);
      assert lines + [] == lines;
    }
  }

  /** The whole file reads back: split into lines and tokenised, line `i + 1` gives the host of credential `i`, each
      variable's intended value (or nothing), and no further token. */
  lemma InventoryRoundTrip(workspace: string, creds: seq<HostCredential>, i: nat, k: Key)
    requires forall j :: 0 <= j < |creds| ==>
      PlainName(Strip(creds[j].host)) && OneLineValues(creds[j], KeyPath(workspace, j))
    requires i < |creds|
    ensures var lines := SplitLines(InventoryText(workspace, creds), "");
            var c, path := creds[i], KeyPath(workspace, i);
            && |lines| == |creds| + 1 && lines[0] == "[all]"
            && ShlexSplit(lines[i + 1]).Some?
            && var read := ShlexSplit(lines[i + 1]).value;
               && |read| == 1 + Count(c, path, KEYS) && read[0] == Strip(c.host)
               && ValueOf(read[1..], Name(k)) == Setting(c, path, k)
  {
    FileRoundTrip(workspace, creds);
    CredentialRoundTrip(creds[i], KeyPath(workspace, i), k);
    assert (["[all]"] + HostLines(workspace, creds))[i + 1] == HostLine(creds[i], KeyPath(workspace, i));
  }

  lemma PathsDiffer(workspace: string, i: nat, j: nat)
    requires KeyPath(workspace, i) == KeyPath(workspace, j)
    ensures i == j
  {
    var p, q := KeyPath(workspace, i), KeyPath(workspace, j);
    assert p[|workspace| + 8..] == Decimal(i) && q[|workspace| + 8..] == Decimal(j);
    DecimalTells(i, j);
  }

  /** Key files after the first `n` credentials, each write on top of the earlier ones. */
  function KeyFiles(workspace: string, creds: seq<HostCredential>, n: nat): map<string, string>
    requires n <= |creds|
  {
    if n == 0 then map[]
    else
      var before := KeyFiles(workspace, creds, n - 1);
      if Truthy(creds[n - 1].privateKeyContent)
      then before[KeyPath(workspace, n - 1) := creds[n - 1].privateKeyContent.value]
      else before
  }

  /** No file is written but key files. */
  lemma {:induction false} OnlyKeysAreWritten(workspace: string, creds: seq<HostCredential>, n: nat, path: string)
    requires n <= |creds| && path in KeyFiles(workspace, creds, n)
    ensures exists i :: 0 <= i < n && path == KeyPath(workspace, i) && Truthy(creds[i].privateKeyContent)
    decreases n
  {
    if n > 0 {
      if path in KeyFiles(workspace, creds, n - 1) {
        OnlyKeysAreWritten(workspace, creds, n - 1, path);
      } else {
        assert path == KeyPath(workspace, n - 1);
      }
    }
  }

  /** No key overwrites another: each credential's key content is at the path its own line names. */
  lemma {:induction false} KeysAreKept(workspace: string, creds: seq<HostCredential>, n: nat, i: nat)
    requires i < |creds| && n <= |creds|
    ensures KeyPath(workspace, i) in KeyFiles(workspace, creds, n) <==> i < n && Truthy(creds[i].privateKeyContent)
    ensures i < n && Truthy(creds[i].privateKeyContent) ==>
      KeyFiles(workspace, creds, n)[KeyPath(workspace, i)] == creds[i].privateKeyContent.value
    decreases n
  {
    if n > 0 {
      KeysAreKept(workspace, creds, n - 1, i);
      if KeyPath(workspace, i) == KeyPath(workspace, n - 1) {
        PathsDiffer(workspace, i, n - 1);
      }
    }
  }

  method BuildHostLine(c: HostCredential, path: string) returns (line: string)
    requires path != ""
    ensures line == HostLine(c, path)
  {
    var parts := ConnectionParts(c, path);
    parts := WinrmParts(c, path, parts);
    parts := PasswordParts(c, path, parts);
    parts := KeyParts(c, path, parts);
    line := Strip(c.host) + Suffix(parts);
  }

  method WriteKey(files: map<string, string>, path: string, content: Option<string>) returns (more: map<string, string>)
    ensures more == if Truthy(content) then files[path := content.value] else files
  {
    more := files;
    if Truthy(content) {
      more := more[path := content.value];
    }
  }

  /** The file text, and the key files written beside it. */
  method BuildHostCredentialsInventory(workspace: string, creds: seq<HostCredential>)
    returns (text: string, files: map<string, string>)
    ensures text == InventoryText(workspace, creds)
    ensures files == KeyFiles(workspace, creds, |creds|)
  {
    var lines: seq<string> := [];
    files := map[];
    for idx := 0 to |creds|
      invariant |lines| == idx && forall i :: 0 <= i < idx ==> lines[i] == HostLine(creds[i], KeyPath(workspace, i))
      invariant files == KeyFiles(workspace, creds, idx)
    {
      var path := KeyPath(workspace, idx);
      files := WriteKey(files, path, creds[idx].privateKeyContent);
      var line := BuildHostLine(creds[idx], path);
      lines := lines + [line];
    }
    assert lines == HostLines(workspace, creds);
    text := if lines == [] then "" else Terminated(["[all]"] + lines);
  }
}
