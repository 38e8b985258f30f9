/**
 * The texts that `json.dumps(…, ensure_ascii=False)` writes, with the fields of a dictionary in any order, and their
 * length in UTF-8. JsonSize computes that length from the value alone.
 */
module JsonText {
  import opened Json
  import opened Text
  import opened JsonSize
  import U = Utf8

  // ---- UTF-8 ----

  function Utf8Length(s: string): nat {
    |U.EncodeAll(s)|
  }

  lemma Utf8Concat(a: string, b: string)
    ensures Utf8Length(a + b) == Utf8Length(a) + Utf8Length(b)
  {
    U.EncodeConcat(a, b);
  }

  lemma {:induction false} AsciiLength(s: string)
    requires forall i :: 0 <= i < |s| ==> s[i] as int < 0x80
    ensures Utf8Length(s) == |s|
  {
    if s != "" {
      AsciiLength(s[1..]);
    }
  }

  // ---- Strings ----

  function Hex(n: nat): char
    requires n < 16
  {
    if n < 10 then '0' + n as char else 'a' + (n - 10) as char
  }

  /** Quotes, backslashes and control characters are escaped, nothing else. */
  function Escaped(c: char): string {
    var n := c as int;
    if c == '"' then "\\\""
    else if c == '\\' then "\\\\"
    else if n == 0x08 then "\\b"
    else if n == 0x09 then "\\t"
    else if n == 0x0A then "\\n"
    else if n == 0x0C then "\\f"
    else if n == 0x0D then "\\r"
    else if n < 0x20 then "\\u00" + [Hex(n / 16), Hex(n % 16)]
    else [c]
  }

  function EscapedText(s: string): string {
    if s == "" then "" else EscapedText(s[..|s| - 1]) + Escaped(s[|s| - 1])
  }

  function Quoted(s: string): string {
    "\"" + (EscapedText(s) + "\"")
  }

  lemma EscapedWidth(c: char)
    ensures Utf8Length(Escaped(c)) == CharBytes(c)
  {
    var e := Escaped(c);
    if |e| == 1 {
      assert e[1..] == "" && U.EncodeAll(e) == U.Encode(c);
    } else {
      AsciiLength(e);
    }
  }

  lemma {:induction false} EscapedLength(s: string)
    ensures Utf8Length(EscapedText(s)) == TextBytes(s)
  {
    if s != "" {
      EscapedLength(s[..|s| - 1]);
      EscapedWidth(s[|s| - 1]);
      Utf8Concat(EscapedText(s[..|s| - 1]), Escaped(s[|s| - 1]));
    }
  }

  lemma Enclosed(open: string, body: string, close: string)
    requires forall i :: 0 <= i < |open| ==> open[i] as int < 0x80
    requires forall i :: 0 <= i < |close| ==> close[i] as int < 0x80
    ensures Utf8Length(open + (body + close)) == |open| + Utf8Length(body) + |close|
  {
    Utf8Concat(open, body + close);
    Utf8Concat(body, close);
    AsciiLength(open);
    AsciiLength(close);
  }

  // ---- Texts of values ----

  function Joined(parts: seq<string>): string {
    if parts == [] then ""
    else if |parts| == 1 then parts[0]
    else parts[0] + (", " + Joined(parts[1..]))
  }

  function EntryText(key: string, part: string): string {
    Quoted(key) + (": " + part)
  }

  function Entries(keys: seq<string>, parts: seq<string>): seq<string>
    requires |keys| == |parts|
  {
    seq(|keys|, i requires 0 <= i < |keys| => EntryText(keys[i], parts[i]))
  }

  /** Every key once. */
  ghost predicate Lists(keys: seq<string>, all: set<string>) {
    (set k | k in keys) == all && forall i, j :: 0 <= i < j < |keys| ==> keys[i] != keys[j]
  }

  /** `t` is a text of `v`. */
  ghost predicate Writes(v: Value, t: string)
    decreases v
  {
    match v
    case Null => t == "null"
    case Bool(b) => t == if b then "true" else "false"
    case Num(n) => t == if n < 0 then "-" + Decimal(-n) else Decimal(n)
    case Str(s) => t == Quoted(s)
    case List(items) =>
      exists parts: seq<string> ::
        && |parts| == |items| && t == "[" + (Joined(parts) + "]")
        && forall i :: 0 <= i < |items| ==> Writes(items[i], parts[i])
    case Dict(m) =>
      exists keys: seq<string>, parts: seq<string> ::
        && Lists(keys, m.Keys) && |parts| == |keys| && t == "{" + (Joined(Entries(keys, parts)) + "}")
        && forall i :: 0 <= i < |keys| ==> keys[i] in m && Writes(m[keys[i]], parts[i])
  }

  // ---- Their length ----

  /** The bytes of the parts, each with one separator. */
  function Sum(parts: seq<string>): nat {
    if parts == [] then 0 else Utf8Length(parts[0]) + 2 + Sum(parts[1..])
  }

  lemma {:induction false} JoinedLength(parts: seq<string>)
    requires parts != []
    ensures Utf8Length(Joined(parts)) + 2 == Sum(parts)
  {
    if |parts| > 1 {
      JoinedLength(parts[1..]);
      Utf8Concat(parts[0], ", " + Joined(parts[1..]));
      Utf8Concat(", ", Joined(parts[1..]));
      AsciiLength(", ");
    }
  }

  lemma {:induction false} ListLength(items: seq<Value>, parts: seq<string>)
    requires |parts| == |items| && forall i :: 0 <= i < |items| ==> Utf8Length(parts[i]) == Bytes(items[i])
    ensures Sum(parts) == ListBytes(items)
  {
    if items != [] {
      assert forall i :: 0 <= i < |items| - 1 ==> parts[1..][i] == parts[1 + i] && items[1..][i] == items[1 + i];
      ListLength(items[1..], parts[1..]);
    }
  }

  lemma EntryLength(key: string, part: string)
    ensures Utf8Length(EntryText(key, part)) + 2 == Entry(key, Utf8Length(part))
  {
    Enclosed("\"", EscapedText(key), "\"");
    EscapedLength(key);
    Utf8Concat(Quoted(key), ": " + part);
    Utf8Concat(": ", part);
    AsciiLength(": ");
  }

  lemma RestOfKeys(keys: seq<string>)
    requires keys != [] && forall i, j :: 0 <= i < j < |keys| ==> keys[i] != keys[j]
    ensures (set k | k in keys) - {keys[0]} == set k | k in keys[1..]
  {
    assert keys[0] !in keys[1..];
    assert keys == [keys[0]] + keys[1..];
  }

  lemma EntriesTail(keys: seq<string>, parts: seq<string>)
    requires |parts| == |keys| && keys != []
    ensures Entries(keys, parts)[0] == EntryText(keys[0], parts[0])
    ensures Entries(keys, parts)[1..] == Entries(keys[1..], parts[1..])
  {
  }

  lemma {:induction false} EntriesLength(m: Fields, keys: seq<string>, parts: seq<string>)
    requires |parts| == |keys| && forall i, j :: 0 <= i < j < |keys| ==> keys[i] != keys[j]
    requires forall i :: 0 <= i < |keys| ==> keys[i] in m && Utf8Length(parts[i]) == Bytes(m[keys[i]])
    ensures Sum(Entries(keys, parts)) == Total((set k | k in keys), k => FieldBytes(m, k))
    decreases |keys|
  {
    if keys != [] {
      RestOfKeys(keys);
      TotalSplits((set k | k in keys), keys[0], k => FieldBytes(m, k));
      EntryLength(keys[0], parts[0]);
      EntriesTail(keys, parts);
      EntriesLength(m, keys[1..], parts[1..]);
    }
  }

  lemma NumberLength(n: int, t: string)
    requires Writes(Num(n), t)
    ensures Utf8Length(t) == Bytes(Num(n))
  {
    DecimalReads(if n < 0 then -n else n);
    AsciiLength(t);
  }

  lemma ListHasBytes(items: seq<Value>, parts: seq<string>)
    requires |parts| == |items| && forall i :: 0 <= i < |items| ==> Utf8Length(parts[i]) == Bytes(items[i])
    ensures Utf8Length("[" + (Joined(parts) + "]")) == Bytes(List(items))
  {
    Enclosed("[", Joined(parts), "]");
    if items != [] {
      JoinedLength(parts);
      ListLength(items, parts);
    }
  }

  lemma DictHasBytes(m: Fields, keys: seq<string>, parts: seq<string>)
    requires Lists(keys, m.Keys) && |parts| == |keys|
    requires forall i :: 0 <= i < |keys| ==> keys[i] in m && Utf8Length(parts[i]) == Bytes(m[keys[i]])
    ensures Utf8Length("{" + (Joined(Entries(keys, parts)) + "}")) == Bytes(Dict(m))
  {
    Enclosed("{", Joined(Entries(keys, parts)), "}");
    if keys == [] {
      assert m == map[];
    } else {
      assert keys[0] in m;
      JoinedLength(Entries(keys, parts));
      EntriesLength(m, keys, parts);
      DictBytes(m);
    }
  }

  lemma ListParts(items: seq<Value>, t: string) returns (parts: seq<string>)
    requires Writes(List(items), t)
    ensures |parts| == |items| && t == "[" + (Joined(parts) + "]")
    ensures forall i :: 0 <= i < |items| ==> Writes(items[i], parts[i])
  {
    parts :|
      && |parts| == |items| && t == "[" + (Joined(parts) + "]")
      && forall i :: 0 <= i < |items| ==> Writes(items[i], parts[i]);
  }

  lemma DictParts(m: Fields, t: string) returns (keys: seq<string>, parts: seq<string>)
    requires Writes(Dict(m), t)
    ensures Lists(keys, m.Keys) && |parts| == |keys| && t == "{" + (Joined(Entries(keys, parts)) + "}")
    ensures forall i :: 0 <= i < |keys| ==> keys[i] in m && Writes(m[keys[i]], parts[i])
  {
    keys, parts :|
      && Lists(keys, m.Keys) && |parts| == |keys| && t == "{" + (Joined(Entries(keys, parts)) + "}")
      && forall i :: 0 <= i < |keys| ==> keys[i] in m && Writes(m[keys[i]], parts[i]);
  }

  lemma PlainHasBytes(v: Value, t: string)
    requires Writes(v, t) && !v.List? && !v.Dict?
    ensures Utf8Length(t) == Bytes(v)
  {
    match v
    case Num(n) => NumberLength(n, t);
    case Str(s) =>
      EscapedLength(s);
      Enclosed("\"", EscapedText(s), "\"");
    case _ => AsciiLength(t);
  }

  /** Every text of a value has as many bytes as JsonSize says. */
  lemma {:induction false} TextHasBytes(v: Value, t: string)
    requires Writes(v, t)
    ensures Utf8Length(t) == Bytes(v)
    decreases v
  {
    match v
    case List(items) =>
      var parts := ListParts(items, t);
      forall i | 0 <= i < |items| ensures Utf8Length(parts[i]) == Bytes(items[i]) {
        TextHasBytes(items[i], parts[i]);
      }
      ListHasBytes(items, parts);
    case Dict(m) =>
      var keys, parts := DictParts(m, t);
      forall i | 0 <= i < |keys| ensures Utf8Length(parts[i]) == Bytes(m[keys[i]]) {
        TextHasBytes(m[keys[i]], parts[i]);
      }
      DictHasBytes(m, keys, parts);
    case _ => PlainHasBytes(v, t);
  }

  // ---- Every value has a text ----

  lemma {:induction false} ListKeys(all: set<string>) returns (keys: seq<string>)
    ensures Lists(keys, all)
    decreases |all|
  {
    if all == {} {
      return [];
    }
    var k :| k in all;
    var rest := ListKeys(all - {k});
    keys := [k] + rest;
    var listed := set y | y in rest;
    assert listed == all - {k} && k !in listed;
    forall x ensures x in keys <==> x in all {
      assert x in rest <==> x in listed;
    }
    forall i, j | 0 <= i < j < |keys| ensures keys[i] != keys[j] {
      assert keys[j] in listed;
    }
  }

  lemma {:induction false} ListTexts(v: Value, n: nat) returns (parts: seq<string>)
    requires v.List? && n <= |v.items|
    ensures |parts| == n && forall i :: 0 <= i < n ==> Writes(v.items[i], parts[i])
    decreases v, 0, n
  {
    if n == 0 {
      return [];
    }
    var before := ListTexts(v, n - 1);
    HasText(v.items[n - 1]);
    var t :| Writes(v.items[n - 1], t);
    parts := before + [t];
  }

  lemma {:induction false} FieldTexts(v: Value, keys: seq<string>) returns (parts: seq<string>)
    requires v.Dict? && forall i :: 0 <= i < |keys| ==> keys[i] in v.fields
    ensures |parts| == |keys| && forall i :: 0 <= i < |keys| ==> Writes(v.fields[keys[i]], parts[i])
    decreases v, 0, |keys|
  {
    if keys == [] {
      return [];
    }
    var n := |keys| - 1;
    var before := FieldTexts(v, keys[..n]);
    HasText(v.fields[keys[n]]);
    var t :| Writes(v.fields[keys[n]], t);
    parts := before + [t];
    assert forall i :: 0 <= i < n ==> keys[..n][i] == keys[i];
  }

  lemma ListIsWritten(items: seq<Value>, parts: seq<string>)
    requires |parts| == |items| && forall i :: 0 <= i < |items| ==> Writes(items[i], parts[i])
    ensures Writes(List(items), "[" + (Joined(parts) + "]"))
  {
  }

  lemma DictIsWritten(m: Fields, keys: seq<string>, parts: seq<string>)
    requires Lists(keys, m.Keys) && |parts| == |keys|
    requires forall i :: 0 <= i < |keys| ==> keys[i] in m && Writes(m[keys[i]], parts[i])
    ensures Writes(Dict(m), "{" + (Joined(Entries(keys, parts)) + "}"))
  {
  }

  lemma {:induction false} ListHasText(v: Value)
    requires v.List?
    ensures exists t :: Writes(v, t)
    decreases v, 1, 0
  {
    var parts := ListTexts(v, |v.items|);
    ListIsWritten(v.items, parts);
  }

  lemma {:induction false} DictHasText(v: Value)
    requires v.Dict?
    ensures exists t :: Writes(v, t)
    decreases v, 1, 0
  {
    var keys := ListKeys(v.fields.Keys);
    KeysAreListed(keys, v.fields.Keys);
    var parts := FieldTexts(v, keys);
    DictIsWritten(v.fields, keys, parts);
  }

  lemma KeysAreListed(keys: seq<string>, all: set<string>)
    requires Lists(keys, all)
    ensures forall i :: 0 <= i < |keys| ==> keys[i] in all
  {
    assert forall i :: 0 <= i < |keys| ==> keys[i] in (set k | k in keys);
  }

  lemma PlainHasText(v: Value)
    requires !v.List? && !v.Dict?
    ensures exists t :: Writes(v, t)
  {
    match v
    case Null => assert Writes(v, "null");
    case Bool(b) => assert Writes(v, if b then "true" else "false");
    case Num(n) => assert Writes(v, if n < 0 then "-" + Decimal(-n) else Decimal(n));
    case Str(s) => assert Writes(v, Quoted(s));
  }

  lemma {:induction false} HasText(v: Value)
    ensures exists t :: Writes(v, t)
    decreases v, 2, 0
  {
    if v.List? {
      ListHasText(v);
    } else if v.Dict? {
      DictHasText(v);
    } else {
      PlainHasText(v);
    }
  }
}
