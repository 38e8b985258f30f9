/** The number of bytes that `json.dumps(…, ensure_ascii=False)` writes for a value, encoded as UTF-8. */
module JsonSize {
  import opened Json
  import opened Text

  // ---- Texts ----

  function CharBytes(c: char): nat {
    var n := c as int;
    if c == '"' || c == '\\' || n == 0x08 || n == 0x09 || n == 0x0A || n == 0x0C || n == 0x0D then 2
    else if n < 0x20 then 6
    else if n < 0x80 then 1
    else if n < 0x800 then 2
    else if n < 0x10000 then 3
    else 4
  }

  function TextBytes(s: string): nat {
    if s == "" then 0 else TextBytes(s[..|s| - 1]) + CharBytes(s[|s| - 1])
  }

  lemma {:induction false} TextBytesConcat(a: string, b: string)
    ensures TextBytes(a + b) == TextBytes(a) + TextBytes(b)
    decreases |b|
  {
    if b == "" {
      assert a + b == a;
    } else {
      assert (a + b)[..|a + b| - 1] == a + b[..|b| - 1];
      TextBytesConcat(a, b[..|b| - 1]);
    }
  }

  lemma {:induction false} TextBytesAtLeast(s: string)
    ensures TextBytes(s) >= |s|
  {
    if s != "" {
      TextBytesAtLeast(s[..|s| - 1]);
    }
  }

  /** Printable ASCII without quotes and backslashes takes one byte a character. */
  predicate Plain(s: string) {
    forall i :: 0 <= i < |s| ==> ' ' <= s[i] <= '~' && s[i] != '"' && s[i] != '\\'
  }

  lemma {:induction false} PlainBytes(s: string)
    requires Plain(s)
    ensures TextBytes(s) == |s|
  {
    if s != "" {
      PlainBytes(s[..|s| - 1]);
    }
  }

  // ---- Sums over the keys of a dictionary ----

  ghost function Total(keys: set<string>, f: string -> nat): nat {
    if keys == {} then 0
    else
      var k :| k in keys;
      f(k) + Total(keys - {k}, f)
  }

  lemma {:induction false} TotalSplits(keys: set<string>, k: string, f: string -> nat)
    requires k in keys
    ensures Total(keys, f) == f(k) + Total(keys - {k}, f)
    decreases |keys|
  {
    var first :| first in keys && Total(keys, f) == f(first) + Total(keys - {first}, f);
    if first != k {
      TotalSplits(keys - {first}, k, f);
      TotalSplits(keys - {k}, first, f);
      assert keys - {first} - {k} == keys - {k} - {first};
    }
  }

  lemma {:induction false} TotalFrame(keys: set<string>, f: string -> nat, g: string -> nat)
    requires forall k :: k in keys ==> f(k) == g(k)
    ensures Total(keys, f) == Total(keys, g)
    decreases |keys|
  {
    if keys != {} {
      var k :| k in keys;
      TotalSplits(keys, k, f);
      TotalSplits(keys, k, g);
      TotalFrame(keys - {k}, f, g);
    }
  }

  // ---- Values ----

  /** A quoted key, `": "`, a value of `n` bytes and `", "`. */
  function Entry(k: string, n: nat): nat {
    TextBytes(k) + n + 6
  }

  /** Brackets take as much as one separator, so only the empty list and dictionary need their own case. */
  ghost function Bytes(v: Value): nat {
    match v
    case Null => 4
    case Bool(b) => if b then 4 else 5
    case Num(n) => if n < 0 then 1 + |Decimal(-n)| else |Decimal(n)|
    case Str(s) => 2 + TextBytes(s)
    case List(items) => if items == [] then 2 else ListBytes(items)
    case Dict(m) => if m == map[] then 2 else Total(m.Keys, k => if k in m then Entry(k, Bytes(m[k])) else 0)
  }

  ghost function ListBytes(items: seq<Value>): nat {
    if items == [] then 0 else Bytes(items[0]) + 2 + ListBytes(items[1..])
  }

  ghost function FieldBytes(m: Fields, k: string): nat {
    if k in m then Entry(k, Bytes(m[k])) else 0
  }

  ghost function Body(m: Fields): nat {
    Total(m.Keys, k => FieldBytes(m, k))
  }

  lemma DictBytes(m: Fields)
    requires m != map[]
    ensures Bytes(Dict(m)) == Body(m)
  {
    TotalFrame(m.Keys, k => if k in m then Entry(k, Bytes(m[k])) else 0, k => FieldBytes(m, k));
  }

  lemma BodyWithout(m: Fields, k: string)
    ensures Body(m) == FieldBytes(m, k) + Body(m - {k})
  {
    var n := m - {k};
    if k in m {
      TotalSplits(m.Keys, k, x => FieldBytes(m, x));
      assert n.Keys == m.Keys - {k};
      TotalFrame(n.Keys, x => FieldBytes(m, x), x => FieldBytes(n, x));
    } else {
      assert n == m;
    }
  }

  /** Setting a field exchanges its bytes for those of the new value. */
  lemma BodyWith(m: Fields, k: string, v: Value)
    ensures Body(m[k := v]) + FieldBytes(m, k) == Body(m) + Entry(k, Bytes(v))
  {
    BodyWithout(m, k);
    BodyWithout(m[k := v], k);
    assert m[k := v] - {k} == m - {k};
  }

  /** A part of a dictionary takes no more than the whole. */
  lemma {:induction false} BodyOfPart(part: Fields, m: Fields)
    requires forall k :: k in part ==> k in m && part[k] == m[k]
    ensures Body(part) <= Body(m)
    decreases |m|
  {
    if k :| k in m && k !in part {
      BodyWithout(m, k);
      BodyOfPart(part, m - {k});
    } else {
      assert part == m;
    }
  }

  lemma DecimalIsLong(n: nat)
    ensures |Decimal(n)| >= 1
  {
  }

  lemma BytesAtLeast(v: Value)
    ensures Bytes(v) >= 1
  {
    match v
    case Num(n) => DecimalIsLong(if n < 0 then -n else n);
    case Dict(m) =>
      if k :| k in m {
        DictBytes(m);
        BodyWithout(m, k);
      }
    case _ =>
  }
}
