/** The UTF-8 encoding of Unicode scalar values (section 3 of RFC 3629). */
module Utf8 {
  import opened Wrappers

  function EncodeChar(c: char): (b: seq<Byte>)
    ensures 1 <= |b| <= 4 && |b| == Width(b[0])
    ensures (c as int) < 0x80 ==> b == [c as int]
    ensures (c as int) >= 0x80 ==> forall i | 0 <= i < |b| :: b[i] >= 0x80
  {
    var n := c as int;
    if n < 0x80 then [n]
    else if n < 0x800 then [0xC0 + n / 64, 0x80 + n % 64]
    else if n < 0x10000 then [0xE0 + n / 64 / 64, 0x80 + n / 64 % 64, 0x80 + n % 64]
    else [0xF0 + n / 64 / 64 / 64, 0x80 + n / 64 / 64 % 64, 0x80 + n / 64 % 64, 0x80 + n % 64]
  }

  /** The length of a character's encoding, from its first byte. */
  function Width(lead: Byte): nat
  {
    if lead < 0xC0 then 1 else if lead < 0xE0 then 2 else if lead < 0xF0 then 3 else 4
  }

  function Encode(s: string): seq<Byte>
  {
    if s == [] then [] else EncodeChar(s[0]) + Encode(s[1..])
  }

  /** A byte that is not the first of its character. */
  predicate Continues(b: Byte) { 0x80 <= b <= 0xBF }

  /** The scalar value of one encoded character, its payload bits most significant first. */
  function DecodeChar(b: seq<Byte>): int
  {
    if |b| == 1 then b[0]
    else if |b| == 2 then (b[0] as int - 0xC0) * 0x40 + Payload(b[1])
    else if |b| == 3 then (b[0] as int - 0xE0) * 0x1000 + Payload(b[1]) * 0x40 + Payload(b[2])
    else if |b| == 4 then (b[0] as int - 0xF0) * 0x40000 + Payload(b[1]) * 0x1000 + Payload(b[2]) * 0x40 + Payload(b[3])
    else -1
  }

  function Payload(b: Byte): int { b as int - 0x80 }

  /** A character is encoded in the shortest form, and its bytes denote it. */
  lemma CharRoundTrip(c: char)
    ensures var b := EncodeChar(c);
      && DecodeChar(b) == c as int && (forall i | 1 <= i < |b| :: Continues(b[i]))
      && (|b| > 1 ==> c as int >= (if |b| == 2 then 0x80 else if |b| == 3 then 0x800 else 0x10000))
      && b[0] <= 0xF4
  {
    var n := c as int;
    assert n == n / 64 * 64 + n % 64;
    assert n / 64 == n / 64 / 64 * 64 + n / 64 % 64;
    assert n / 64 / 64 == n / 64 / 64 / 64 * 64 + n / 64 / 64 % 64;
  }

  lemma SameChar(a: char, b: char)
    requires EncodeChar(a) == EncodeChar(b)
    ensures a == b
  {
    CharRoundTrip(a);
    CharRoundTrip(b);
    hide EncodeChar, DecodeChar;
  }

  lemma {:induction false} EncodeInjective(a: string, b: string)
    ensures Encode(a) == Encode(b) <==> a == b
  {
    hide EncodeChar, Width;
    if Encode(a) == Encode(b) && a != [] && b != [] {
      var x, y := EncodeChar(a[0]), EncodeChar(b[0]);
      assert Encode(a)[0] == x[0] && Encode(b)[0] == y[0];
      assert x == Encode(a)[..|x|] && y == Encode(b)[..|y|];
      SameChar(a[0], b[0]);
      assert Encode(a[1..]) == Encode(a)[|x|..] && Encode(b[1..]) == Encode(b)[|y|..];
      EncodeInjective(a[1..], b[1..]);
      assert a == [a[0]] + a[1..] && b == [b[0]] + b[1..];
    }
  }

  /** The last byte of a text ending in an ASCII character is that character. */
  lemma {:induction false} EncodeLast(s: string, c: char)
    requires (c as int) < 0x80
    ensures Encode(s + [c]) == Encode(s) + [c as int]
  {
    hide EncodeChar, Width;
    if s == [] {
      assert [c][1..] == [] && [] + [c] == [c];
    } else {
      EncodeLast(s[1..], c);
      assert (s + [c])[1..] == s[1..] + [c];
    }
  }
}
