/** The character classes and trimming of Rust's `str`, on sequences of Unicode scalar values. */
module Text {

  /** `char::is_whitespace`: the code points with the White_Space property. */
  predicate IsWhitespace(c: char)
  {
    var n := c as int;
    || 0x9 <= n <= 0xD || n == 0x20 || n == 0x85 || n == 0xA0 || n == 0x1680
    || 0x2000 <= n <= 0x200A || n == 0x2028 || n == 0x2029 || n == 0x202F || n == 0x205F || n == 0x3000
  }

  /** The twenty-five of them, one by one. */
  lemma WhitespaceIs(c: char)
    ensures IsWhitespace(c) <==> c as int in {
      0x9, 0xA, 0xB, 0xC, 0xD, 0x20, 0x85, 0xA0, 0x1680, 0x2000, 0x2001, 0x2002, 0x2003, 0x2004, 0x2005, 0x2006,
      0x2007, 0x2008, 0x2009, 0x200A, 0x2028, 0x2029, 0x202F, 0x205F, 0x3000
    }
  {
  }

  /** `char::is_control`: the general category Cc. */
  predicate IsControl(c: char)
  {
    var n := c as int;
    n <= 0x1F || 0x7F <= n <= 0x9F
  }

  function AsciiLower(c: char): char
  {
    if 'A' <= c <= 'Z' then c + 32 as char else c
  }

  function ToAsciiLower(s: string): (r: string)
    ensures |r| == |s|
  {
    seq(|s|, i requires 0 <= i < |s| => AsciiLower(s[i]))
  }

  predicate Blank(s: string) { forall c | c in s :: IsWhitespace(c) }
}
