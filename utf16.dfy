/**
 * UTF-16 surrogate pairs, as the lexer uses them through Go's unicode/utf16
 * package (IsSurrogate and DecodeRune). The arithmetic is that of section 2.1
 * (encoding) and section 2.2 (decoding) of RFC 2781.
 */
module Utf16 {

  const Surr1: int := 0xD800      // first high surrogate
  const Surr2: int := 0xDC00      // first low surrogate
  const Surr3: int := 0xE000      // one past the last low surrogate
  const SurrSelf: int := 0x10000  // first code point that needs a pair
  const MaxRune: int := 0x10FFFF
  const ReplacementChar: int := 0xFFFD

  /** A code unit in the surrogate range U+D800..U+DFFF. */
  predicate IsSurrogate(r: int) {
    Surr1 <= r < Surr3
  }

  predicate IsHighSurrogate(r: int) {
    Surr1 <= r < Surr2
  }

  predicate IsLowSurrogate(r: int) {
    Surr2 <= r < Surr3
  }

  /**
   * The code point a surrogate pair stands for, or U+FFFD when r1 is not a
   * high surrogate or r2 not a low one. Go writes the combination as
   * (r1-0xD800)<<10 | (r2-0xDC00) + 0x10000; the two parts occupy disjoint
   * bits, so the bitwise or is the sum written here.
   */
  function DecodeRune(r1: int, r2: int): (r: int)
    ensures IsHighSurrogate(r1) && IsLowSurrogate(r2) ==> SurrSelf <= r <= MaxRune
    ensures !(IsHighSurrogate(r1) && IsLowSurrogate(r2)) ==> r == ReplacementChar
  {
    if IsHighSurrogate(r1) && IsLowSurrogate(r2) then
      (r1 - Surr1) * 0x400 + (r2 - Surr2) + SurrSelf
    else
      ReplacementChar
  }

  /** The surrogate pair that encodes a supplementary code point. */
  function EncodeRune(r: int): (pair: (int, int))
    requires SurrSelf <= r <= MaxRune
    ensures IsHighSurrogate(pair.0) && IsLowSurrogate(pair.1)
  {
    var v := r - SurrSelf;
    (Surr1 + v / 0x400, Surr2 + v % 0x400)
  }

  /** Decoding the pair that encodes r gives r back. */
  lemma DecodeEncode(r: int)
    requires SurrSelf <= r <= MaxRune
    ensures DecodeRune(EncodeRune(r).0, EncodeRune(r).1) == r
  {
    var v := r - SurrSelf;
    assert v == (v / 0x400) * 0x400 + v % 0x400;
  }

  /** Every well-formed pair is the encoding of what it decodes to. */
  lemma EncodeDecode(r1: int, r2: int)
    requires IsHighSurrogate(r1) && IsLowSurrogate(r2)
    ensures EncodeRune(DecodeRune(r1, r2)) == (r1, r2)
  {
    var v := (r1 - Surr1) * 0x400 + (r2 - Surr2);
    assert v / 0x400 == r1 - Surr1 && v % 0x400 == r2 - Surr2 by {
      DivModUnique(v, r1 - Surr1, r2 - Surr2);
    }
  }

  lemma DivModUnique(v: int, q: int, m: int)
    requires 0 <= m < 0x400 && v == q * 0x400 + m
    ensures v / 0x400 == q && v % 0x400 == m
  {
  }
}
