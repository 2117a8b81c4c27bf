/** UTF-8 decoding as Buffer.prototype.toString does it: an ill-formed sequence becomes U+FFFD, which takes the
    place of its longest well-formed beginning (section 3.9 of the Unicode Standard). */
module Utf8 {

  type byte = x: int | 0 <= x < 256

  const REPLACEMENT: char := '\U{FFFD}'

  /** How long a sequence is that starts with `b`; 0 if none does. */
  function Length(b: byte): nat {
    if b < 0x80 then 1
    else if 0xC2 <= b < 0xE0 then 2
    else if 0xE0 <= b < 0xF0 then 3
    else if 0xF0 <= b < 0xF5 then 4
    else 0
  }

  predicate IsTrail(b: byte) {
    0x80 <= b < 0xC0
  }

  /** The second byte: short forms, surrogates and values beyond U+10FFFF are ill-formed. */
  predicate IsSecond(first: byte, b: byte) {
    && IsTrail(b)
    && (first == 0xE0 ==> b >= 0xA0) && (first == 0xED ==> b < 0xA0)
    && (first == 0xF0 ==> b >= 0x90) && (first == 0xF4 ==> b < 0x90)
  }

  // The code point of a sequence of two, three or four bytes.

  function Two(b0: int, b1: int): int {
    (b0 - 0xC0) * 64 + (b1 - 0x80)
  }

  function Three(b0: int, b1: int, b2: int): int {
    (b0 - 0xE0) * 4096 + (b1 - 0x80) * 64 + (b2 - 0x80)
  }

  function Four(b0: int, b1: int, b2: int, b3: int): int {
    (b0 - 0xF0) * 262144 + (b1 - 0x80) * 4096 + (b2 - 0x80) * 64 + (b3 - 0x80)
  }

  /** The first character and how many bytes it takes. */
  function First(b: seq<byte>): (r: (char, nat))
    requires b != []
    ensures 1 <= r.1 <= |b|
  {
    var n := Length(b[0]);
    if n == 0 then (REPLACEMENT, 1)
    else if n == 1 then (b[0] as char, 1)
    else if |b| < 2 || !IsSecond(b[0], b[1]) then (REPLACEMENT, 1)
    else if n == 2 then (Two(b[0], b[1]) as char, 2)
    else if |b| < 3 || !IsTrail(b[2]) then (REPLACEMENT, 2)
    else if n == 3 then (Three(b[0], b[1], b[2]) as char, 3)
    else if |b| < 4 || !IsTrail(b[3]) then (REPLACEMENT, 3)
    else (Four(b[0], b[1], b[2], b[3]) as char, 4)
  }

  function Decode(b: seq<byte>): string
    decreases |b|
  {
    if b == [] then "" else [First(b).0] + Decode(b[First(b).1..])
  }

  function EncodeChar(c: char): (b: seq<byte>)
    ensures 1 <= |b| <= 4 && (c as int < 128 ==> |b| == 1)
  {
    var n := c as int;
    if n < 0x80 then [n]
    else if n < 0x800 then [0xC0 + n / 64, 0x80 + n % 64]
    else if n < 0x10000 then [0xE0 + n / 4096, 0x80 + n / 64 % 64, 0x80 + n % 64]
    else [0xF0 + n / 262144, 0x80 + n / 4096 % 64, 0x80 + n / 64 % 64, 0x80 + n % 64]
  }

  function Encode(s: string): seq<byte> {
    if s == "" then [] else EncodeChar(s[0]) + Encode(s[1..])
  }

  // ---------------------------------------------------------------- round trips

  lemma FirstOfEncoded(c: char, rest: seq<byte>)
    ensures First(EncodeChar(c) + rest) == (c, |EncodeChar(c)|)
  {
    var b, e, n := EncodeChar(c) + rest, EncodeChar(c), c as int;
    assert forall i :: 0 <= i < |e| ==> b[i] == e[i];
    if 0x80 <= n < 0x800 {
      TwoOf(n);
    } else if 0x800 <= n < 0x10000 {
      ThreeOf(n);
    } else if 0x10000 <= n {
      FourOf(n);
    }
  }

  lemma TwoOf(n: int)
    requires 0x80 <= n < 0x800
    ensures 0xC2 <= 0xC0 + n / 64 < 0xE0 && Two(0xC0 + n / 64, 0x80 + n % 64) == n
  {
  }

  lemma ThreeOf(n: int)
    requires 0x800 <= n < 0x10000 && !(0xD800 <= n < 0xE000)
    ensures 0xE0 <= 0xE0 + n / 4096 < 0xF0 && IsSecond(0xE0 + n / 4096, 0x80 + n / 64 % 64)
    ensures Three(0xE0 + n / 4096, 0x80 + n / 64 % 64, 0x80 + n % 64) == n
  {
    assert n / 64 / 64 == n / 4096;
  }

  lemma FourOf(n: int)
    requires 0x10000 <= n < 0x110000
    ensures 0xF0 <= 0xF0 + n / 262144 < 0xF5 && IsSecond(0xF0 + n / 262144, 0x80 + n / 4096 % 64)
    ensures Four(0xF0 + n / 262144, 0x80 + n / 4096 % 64, 0x80 + n / 64 % 64, 0x80 + n % 64) == n
  {
    assert n / 64 / 64 == n / 4096 && n / 4096 / 64 == n / 262144;
  }

  /** Every text comes back. */
  lemma {:induction false} EncodeThenDecode(s: string)
    ensures Decode(Encode(s)) == s
  {
    if s != "" {
      FirstOfEncoded(s[0], Encode(s[1..]));
      assert Encode(s)[|EncodeChar(s[0])|..] == Encode(s[1..]);
      EncodeThenDecode(s[1..]);
    }
  }

  lemma FirstIsEncoded(b: seq<byte>)
    requires b != [] && First(b).0 != REPLACEMENT
    ensures EncodeChar(First(b).0) == b[..First(b).1]
  {
    var n := Length(b[0]);
    if n == 2 {
      OfTwo(b[0], b[1]);
    } else if n == 3 {
      OfThree(b[0], b[1], b[2]);
    } else if n == 4 {
      OfFour(b[0], b[1], b[2], b[3]);
    }
  }

  lemma OfTwo(b0: int, b1: int)
    requires 0xC2 <= b0 < 0xE0 && 0x80 <= b1 < 0xC0
    ensures var n := Two(b0, b1);
      0x80 <= n < 0x800 && 0xC0 + n / 64 == b0 && 0x80 + n % 64 == b1
  {
  }

  lemma OfThree(b0: byte, b1: byte, b2: byte)
    requires 0xE0 <= b0 < 0xF0 && IsSecond(b0, b1) && IsTrail(b2)
    ensures var n := Three(b0, b1, b2);
      && 0x800 <= n < 0x10000 && !(0xD800 <= n < 0xE000)
      && 0xE0 + n / 4096 == b0 && 0x80 + n / 64 % 64 == b1 && 0x80 + n % 64 == b2
  {
    var n := Three(b0, b1, b2);
    assert n / 64 == (b0 as int - 0xE0) * 64 + (b1 as int - 0x80);
    assert n / 64 / 64 == n / 4096;
  }

  lemma OfFour(b0: byte, b1: byte, b2: byte, b3: byte)
    requires 0xF0 <= b0 < 0xF5 && IsSecond(b0, b1) && IsTrail(b2) && IsTrail(b3)
    ensures var n := Four(b0, b1, b2, b3);
      && 0x10000 <= n < 0x110000
      && 0xF0 + n / 262144 == b0 && 0x80 + n / 4096 % 64 == b1 && 0x80 + n / 64 % 64 == b2 && 0x80 + n % 64 == b3
  {
    var n := Four(b0, b1, b2, b3);
    assert n / 64 == (b0 as int - 0xF0) * 4096 + (b1 as int - 0x80) * 64 + (b2 as int - 0x80);
    assert n / 64 / 64 == (b0 as int - 0xF0) * 64 + (b1 as int - 0x80);
    assert n / 64 / 64 == n / 4096 && n / 4096 / 64 == n / 262144;
  }

  /** And so do bytes whose text holds no U+FFFD. */
  lemma {:induction false} DecodeThenEncode(b: seq<byte>)
    requires REPLACEMENT !in Decode(b)
    ensures Encode(Decode(b)) == b
    decreases |b|
  {
    if b != [] {
      var rest := b[First(b).1..];
      assert Decode(b)[0] == First(b).0 && Decode(b)[1..] == Decode(rest);
      assert forall c :: c in Decode(rest) ==> c in Decode(b);
      FirstIsEncoded(b);
      DecodeThenEncode(rest);
      assert b == b[..First(b).1] + rest;
    }
  }

  /** So two byte strings with the same text are equal, unless one of them was ill-formed. */
  lemma SameText(a: seq<byte>, b: seq<byte>)
    requires Decode(a) == Decode(b) && REPLACEMENT !in Decode(a)
    ensures a == b
  {
    DecodeThenEncode(a);
    DecodeThenEncode(b);
  }

  lemma {:induction false} AsciiLength(s: string)
    requires forall c :: c in s ==> c as int < 128
    ensures |Encode(s)| == |s|
  {
    if s != "" {
      var rest := s[1..];
      assert s[0] in s && forall c :: c in rest ==> c in s;
      AsciiLength(rest);
    }
  }
}
