/** UTF-8 as section 3 of RFC 3629 defines it, by encoding characters: it yields what Utf8Truncation accepts. */
module Utf8 {
  import opened OutputCapture
  import opened Utf8Truncation

  /** The low six bits, as a tail byte. */
  function TailByte(n: nat): Byte {
    0x80 + n % 64
  }

  function Encode(c: char): seq<Byte> {
    var n := c as int;
    if n < 0x80 then [n]
    else if n < 0x800 then [0xC0 + n / 64, TailByte(n)]
    else if n < 0x10000 then [0xE0 + n / 4096, TailByte(n / 64), TailByte(n)]
    else [0xF0 + n / 262144, TailByte(n / 4096), TailByte(n / 64), TailByte(n)]
  }

  function EncodeAll(s: string): seq<Byte> {
    if s == "" then [] else Encode(s[0]) + EncodeAll(s[1..])
  }

  lemma {:induction false} EncodeConcat(a: string, b: string)
    ensures EncodeAll(a + b) == EncodeAll(a) + EncodeAll(b)
  {
    if a == "" {
      assert a + b == b;
    } else {
      assert (a + b)[1..] == a[1..] + b;
      EncodeConcat(a[1..], b);
    }
  }

  lemma ThreeBytes(c: char)
    requires 0x800 <= c as int < 0x10000
    ensures var e := Encode(c); |e| == 3 && 0xE0 <= e[0] <= 0xEF && SecondOk(e[0], e[1]) && Tail(e[2])
  {
    var n := c as int;
    assert n == n / 4096 * 4096 + n / 64 % 64 * 64 + n % 64;
  }

  lemma FourBytes(c: char)
    requires 0x10000 <= c as int
    ensures var e := Encode(c);
      |e| == 4 && 0xF0 <= e[0] <= 0xF4 && SecondOk(e[0], e[1]) && Tail(e[2]) && Tail(e[3])
  {
    var n := c as int;
    assert n / 4096 == n / 262144 * 64 + n / 4096 % 64;
  }

  /** A character's encoding is one character, whatever follows. */
  lemma EncodedIsChar(c: char, rest: seq<Byte>)
    ensures Encode(c) != [] && CharLength(Encode(c) + rest) == |Encode(c)|
  {
    if 0x800 <= c as int < 0x10000 {
      ThreeBytes(c);
    } else if 0x10000 <= c as int {
      FourBytes(c);
    }
  }

  /** Every character that is accepted is the encoding of one. */
  lemma CharIsEncoded(s: seq<Byte>) returns (c: char)
    requires CharLength(s) > 0
    ensures s[..CharLength(s)] == Encode(c)
  {
    match CharLength(s)
    case 1 => c := s[0] as char;
    case 2 =>
      var n: int := (s[0] as int - 0xC0) * 64 + (s[1] - 0x80);
      c := n as char;
    case 3 => c := DecodeThree(s[0], s[1], s[2]);
    case _ => c := DecodeFour(s[0], s[1], s[2], s[3]);
  }

  lemma SixBits(n: int, high: int, low: int)
    requires n == high * 64 + low && 0 <= low < 64 && 0 <= high
    ensures n / 64 == high && n % 64 == low
  {
  }

  lemma DecodeThree(a: Byte, b: Byte, d: Byte) returns (c: char)
    requires 0xE0 <= a <= 0xEF && SecondOk(a, b) && Tail(d)
    ensures Encode(c) == [a, b, d]
  {
    var n := (a - 0xE0) * 4096 + (b - 0x80) * 64 + (d - 0x80);
    assert n / 64 == (a - 0xE0) * 64 + (b - 0x80);
    c := n as char;
  }

  lemma DecodeFour(a: Byte, b: Byte, d: Byte, e: Byte) returns (c: char)
    requires 0xF0 <= a <= 0xF4 && SecondOk(a, b) && Tail(d) && Tail(e)
    ensures Encode(c) == [a, b, d, e]
  {
    var high: int := (a as int - 0xF0) * 64 + (b - 0x80);
    var most: int := high * 64 + (d - 0x80);
    var n: int := most * 64 + (e - 0x80);
    SixBits(n, most, e - 0x80);
    SixBits(most, high, d - 0x80);
    SixBits(high, a as int - 0xF0, b - 0x80);
    assert n / 4096 == high && n / 262144 == high / 64;
    c := n as char;
  }

  lemma {:induction false} EncodedIsWellFormed(s: string)
    ensures WellFormed(EncodeAll(s))
  {
    if s != "" {
      var rest := EncodeAll(s[1..]);
      EncodedIsChar(s[0], rest);
      EncodedIsWellFormed(s[1..]);
      assert EncodeAll(s)[|Encode(s[0])|..] == rest;
    }
  }

  lemma {:induction false} WellFormedIsEncoded(b: seq<Byte>) returns (s: string)
    requires WellFormed(b)
    ensures b == EncodeAll(s)
    decreases |b|
  {
    if b == [] {
      return "";
    }
    var n := CharLength(b);
    var c := CharIsEncoded(b);
    var rest := WellFormedIsEncoded(b[n..]);
    s := [c] + rest;
    assert s[1..] == rest && b == b[..n] + b[n..];
  }

  /** Bytes count as well-formed if and only if they are the encoding of some text. */
  lemma WellFormedExactlyWhen(b: seq<Byte>)
    ensures WellFormed(b) <==> exists s :: b == EncodeAll(s)
  {
    if WellFormed(b) {
      var s := WellFormedIsEncoded(b);
    }
    forall s | b == EncodeAll(s) ensures WellFormed(b) {
      EncodedIsWellFormed(s);
    }
  }
}
