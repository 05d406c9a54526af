/**
 * Properties of the lexer (lexer/lexer.go), stated about the functions of
 * module Lexing that the Lexer's methods are proved to follow.
 */
module LexerFacts {
  import opened Options
  import opened Tokens
  import opened Utf16
  import opened Lexing

  // ---------------------------------------------------------------------
  // Character classes
  // ---------------------------------------------------------------------

  /** isWhiteSpace holds for the four whitespace runes of JSON, all below '!'. */
  lemma WhiteSpaceRunes(c: char)
    ensures IsWhiteSpace(c) <==> c in " \t\n\r"
    ensures IsWhiteSpace(c) ==> c < '!'
  {
  }

  /** isDigit holds for the ten decimal digits. */
  lemma DigitRunes(c: char)
    ensures IsDigit(c) <==> c in "0123456789"
  {
  }

  /** isDigit1to9 holds for every digit but 0. */
  lemma NonZeroDigitRunes(c: char)
    ensures IsDigit1to9(c) <==> IsDigit(c) && c != '0'
  {
  }

  /** isSymbol holds for the six structural characters of JSON. */
  lemma SymbolRunes(c: char)
    ensures IsSymbol(c) <==> c in "[]{}:,"
  {
  }

  /**
   * Every rune is in exactly one of the four classes; a letter is any rune
   * outside the other three, so the end-of-input rune 0, the quote, the
   * minus and the dot are letters.
   */
  lemma ClassesPartition(c: char)
    ensures IsLetter(c) <==> c !in "0123456789 \t\n\r[]{}:,"
    ensures IsLetter(c) || IsDigit(c) || IsWhiteSpace(c) || IsSymbol(c)
    ensures !(IsDigit(c) && IsWhiteSpace(c)) && !(IsDigit(c) && IsSymbol(c)) && !(IsWhiteSpace(c) && IsSymbol(c))
    ensures c == '\0' || c == '"' || c == '-' || c == '.' ==> IsLetter(c)
  {
  }

  // ---------------------------------------------------------------------
  // Numbers: readNumber is the longest match of a small automaton
  // ---------------------------------------------------------------------

  /**
   * The states of an automaton for the number lexemes readNumber accepts:
   * a digit 1-9 and more digits, then optionally '.' and digits, then
   * optionally 'e', one sign or digit, and more digits. Every state but
   * Start and Dead accepts.
   */
  datatype NumState = Start | IntPart | FracPart | ExpMark | ExpPart | Dead

  function Step(s: NumState, c: char): NumState {
    match s
    case Start => if IsDigit1to9(c) then IntPart else Dead
    case IntPart =>
      if IsDigit(c) then IntPart else if c == '.' then FracPart else if c == 'e' then ExpMark else Dead
    case FracPart => if IsDigit(c) then FracPart else if c == 'e' then ExpMark else Dead
    case ExpMark => if IsDigit(c) || c == '+' || c == '-' then ExpPart else Dead
    case ExpPart => if IsDigit(c) then ExpPart else Dead
    case Dead => Dead
  }

  /** The state reached from s after reading w. */
  function Run(s: NumState, w: seq<char>): NumState
    decreases |w|
  {
    if |w| == 0 then s else Run(Step(s, w[0]), w[1..])
  }

  lemma {:induction false} RunConcat(s: NumState, a: seq<char>, b: seq<char>)
    ensures Run(s, a + b) == Run(Run(s, a), b)
    decreases |a|
  {
    if |a| > 0 {
      assert (a + b)[0] == a[0] && (a + b)[1..] == a[1..] + b;
      RunConcat(Step(s, a[0]), a[1..], b);
    } else {
      assert a + b == b;
    }
  }

  lemma {:induction false} DeadStays(w: seq<char>)
    ensures Run(Dead, w) == Dead
    decreases |w|
  {
    if |w| > 0 {
      DeadStays(w[1..]);
    }
  }

  /** Run over the slice input[a..c] split at b. */
  lemma RunSlices(s: NumState, input: seq<char>, a: nat, b: nat, c: nat)
    requires a <= b <= c <= |input|
    ensures Run(s, input[a..c]) == Run(Run(s, input[a..b]), input[b..c])
  {
    assert input[a..c] == input[a..b] + input[b..c];
    RunConcat(s, input[a..b], input[b..c]);
  }

  /** One character read from s. */
  lemma RunOne(s: NumState, input: seq<char>, a: nat)
    requires a < |input|
    ensures Run(s, input[a..a + 1]) == Step(s, input[a])
  {
    assert input[a..a + 1][1..] == [];
  }

  /** A digit run leaves the states that loop on digits where they are. */
  lemma {:induction false} DigitsKeep(s: NumState, input: seq<char>, pos: nat)
    requires s == IntPart || s == FracPart || s == ExpPart
    requires pos <= |input|
    ensures Run(s, input[pos..DigitsEnd(input, pos)]) == s
    decreases |input| - pos
  {
    if pos < |input| && IsDigit(input[pos]) {
      DigitsKeep(s, input, pos + 1);
      RunSlices(s, input, pos, pos + 1, DigitsEnd(input, pos));
      RunOne(s, input, pos);
    }
  }

  /**
   * The state after the integer part and the optional fraction of a number
   * lexeme, which end at FractionEnd.
   */
  lemma MantissaState(input: seq<char>, start: nat) returns (s: NumState)
    requires start <= |input| && IsDigit1to9(CharAt(input, start))
    ensures var f := FractionEnd(input, DigitsEnd(input, start + 1));
      start < f <= |input| && Run(Start, input[start..f]) == s && (s == IntPart || s == FracPart) &&
      (f < |input| ==> Step(s, input[f]) == (if input[f] == 'e' then ExpMark else Dead))
  {
    var intEnd := DigitsEnd(input, start + 1);
    DigitsKeep(IntPart, input, start + 1);
    RunSlices(Start, input, start, start + 1, intEnd);
    RunOne(Start, input, start);
    if CharAt(input, intEnd) == '.' {
      var fracEnd := DigitsEnd(input, intEnd + 1);
      DigitsKeep(FracPart, input, intEnd + 1);
      RunSlices(Start, input, start, intEnd, fracEnd);
      RunSlices(IntPart, input, intEnd, intEnd + 1, fracEnd);
      RunOne(IntPart, input, intEnd);
      s := FracPart;
    } else {
      s := IntPart;
    }
  }

  /**
   * The state after the optional exponent that may start at f, entered in
   * the state m that the mantissa left.
   */
  lemma ExponentState(input: seq<char>, f: nat, m: NumState) returns (s: NumState)
    requires f <= |input| && (m == IntPart || m == FracPart)
    requires f < |input| ==> Step(m, input[f]) == (if input[f] == 'e' then ExpMark else Dead)
    ensures var end := ExponentEnd(input, f);
      Run(m, input[f..end]) == s && s != Dead && s != Start &&
      (end < |input| ==> Step(s, input[end]) == Dead)
  {
    var end := ExponentEnd(input, f);
    if CharAt(input, f) == 'e' {
      RunOne(m, input, f);
      var c := CharAt(input, f + 1);
      if c == '+' || c == '-' || IsDigit(c) {
        DigitsKeep(ExpPart, input, f + 2);
        RunOne(ExpMark, input, f + 1);
        RunSlices(m, input, f, f + 1, end);
        RunSlices(ExpMark, input, f + 1, f + 2, end);
        s := ExpPart;
      } else {
        s := ExpMark;
      }
    } else {
      assert input[f..end] == [];
      s := m;
    }
  }

  /**
   * The state the automaton is in after the lexeme readNumber takes: it
   * accepts unless the lexeme is empty, and the rune after the lexeme, if
   * any, kills it.
   */
  lemma LexemeState(input: seq<char>, start: nat) returns (s: NumState)
    requires start <= |input|
    ensures var end := NumberEnd(input, start);
      Run(Start, input[start..end]) == s && s != Dead &&
      (end == start <==> s == Start) &&
      (end < |input| ==> Step(s, input[end]) == Dead)
  {
    if !IsDigit1to9(CharAt(input, start)) {
      assert input[start..start] == [];
      s := Start;
    } else {
      var f := FractionEnd(input, DigitsEnd(input, start + 1));
      var m := MantissaState(input, start);
      s := ExponentState(input, f, m);
      RunSlices(Start, input, start, f, ExponentEnd(input, f));
    }
  }

  /**
   * readNumber takes the longest match: the lexeme input[start..end] is
   * accepted by the automaton (or is empty when the first rune is not 1-9),
   * and every longer slice of the input from start is rejected.
   */
  lemma NumberLongestMatch(input: seq<char>, start: nat)
    requires start <= |input|
    ensures var end := NumberEnd(input, start);
      (end > start ==> Run(Start, input[start..end]) != Dead) &&
      forall k :: end < k <= |input| ==> Run(Start, input[start..k]) == Dead
  {
    var end := NumberEnd(input, start);
    var s := LexemeState(input, start);
    forall k | end < k <= |input|
      ensures Run(Start, input[start..k]) == Dead
    {
      RunSlices(Start, input, start, end, k);
      RunSlices(s, input, end, end + 1, k);
      RunOne(s, input, end);
      DeadStays(input[end + 1..k]);
    }
  }

  // ---------------------------------------------------------------------
  // Tokens of one character, end of input
  // ---------------------------------------------------------------------

  /**
   * After whitespace, a structural character gives the token of its kind
   * with that character as literal, and the cursor moves past it and no
   * further.
   */
  lemma SymbolToken(input: seq<char>, pos: nat)
    requires IsSymbol(CharAt(input, SkipEnd(input, pos)))
    ensures var p := SkipEnd(input, pos);
      NextSpec(input, pos).Emitted? &&
      NextSpec(input, pos).tok.literal == [input[p]] &&
      SymbolChar(NextSpec(input, pos).tok.kind) == input[p] &&
      NextSpec(input, pos).next == p + 1
  {
  }

  /** n copies of the token t. */
  function Copies(t: Token, n: nat): (r: seq<Token>)
    ensures |r| == n && forall k :: 0 <= k < n ==> r[k] == t
  {
    if n == 0 then [] else [t] + Copies(t, n - 1)
  }

  /** From a position with only whitespace after it, every call gives EOF. */
  lemma {:induction false} EofForever(input: seq<char>, pos: nat, n: nat)
    requires forall k :: pos <= k < |input| ==> IsWhiteSpace(input[k])
    ensures Pull(input, pos, n) == Some(Copies(EofToken, n))
    decreases n
  {
    if n > 0 {
      var p := SkipEnd(input, pos);
      assert p >= |input|;
      assert NextSpec(input, pos) == Emitted(EofToken, p + 1);
      EofForever(input, p + 1, n - 1);
    }
  }

  /**
   * A number that starts with '0' is never consumed: every call from then on
   * gives a NUMBER token with an empty literal and leaves the cursor on the '0'.
   */
  lemma {:induction false} ZeroStalls(input: seq<char>, pos: nat, n: nat)
    requires CharAt(input, SkipEnd(input, pos)) == '0'
    ensures Pull(input, pos, n) == Some(Copies(Token(Number, ""), n))
    decreases n
  {
    if n > 0 {
      var p := SkipEnd(input, pos);
      assert NextSpec(input, pos) == Emitted(Token(Number, ""), p);
      assert SkipEnd(input, p) == p;
      ZeroStalls(input, p, n - 1);
    }
  }

  /**
   * A '-' and a digit 1-9 give the number token that the digits alone would
   * give, with "-" in front; a '-' and a '0' give the literal "-" and leave
   * the cursor on the '0'; a '-' and anything else is an error, with the
   * cursor after the '-'.
   */
  lemma MinusSign(input: seq<char>, pos: nat)
    requires CharAt(input, SkipEnd(input, pos)) == '-'
    ensures var p := SkipEnd(input, pos);
      var c := CharAt(input, p + 1);
      (IsDigit1to9(c) ==>
        NextSpec(input, p + 1).Emitted? && NextSpec(input, p + 1).tok.kind == Number &&
        NextSpec(input, pos) ==
          Emitted(Token(Number, ['-'] + NextSpec(input, p + 1).tok.literal), NextSpec(input, p + 1).next)) &&
      (c == '0' ==> NextSpec(input, pos) == Emitted(Token(Number, "-"), p + 1)) &&
      (!IsDigit(c) ==> NextSpec(input, pos) == Failed(MinusWithoutNumber, p + 1))
  {
    var p := SkipEnd(input, pos);
    if IsDigit1to9(CharAt(input, p + 1)) {
      assert SkipEnd(input, p + 1) == p + 1;
    }
  }

  /**
   * Every rune that is not a digit, whitespace or structural counts as a
   * letter, so no call ever yields an ILLEGAL token.
   */
  lemma IllegalUnreachable(input: seq<char>, pos: nat)
    ensures NextSpec(input, pos).Emitted? ==> NextSpec(input, pos).tok.kind != Illegal
  {
  }

  /**
   * An identifier is the run of letters at the cursor, which must be followed
   * by a non-letter; its kind is the keyword kind of its text or IDENT.
   */
  lemma IdentifierToken(input: seq<char>, pos: nat)
    requires IsLetter(CharAt(input, SkipEnd(input, pos))) && CharAt(input, SkipEnd(input, pos)) != '-'
    requires CharAt(input, SkipEnd(input, pos)) != '"' && CharAt(input, SkipEnd(input, pos)) != '\0'
    ensures var p := SkipEnd(input, pos);
      (IdentEnds(input, p) <==> NextSpec(input, pos) != Hangs) &&
      (IdentEnds(input, p) ==>
        var o := NextSpec(input, pos);
        o.Emitted? && p < o.next < |input| && o.tok.literal == input[p..o.next] &&
        (forall k :: p <= k < o.next ==> IsLetter(input[k])) && !IsLetter(input[o.next]) &&
        o.tok.kind == LookupIdent(o.tok.literal))
  {
  }

  /** ";" lexes as an identifier: there is no SEMICOLON token in practice. */
  lemma SemicolonIsIdent()
    ensures NextSpec(";]", 0) == Emitted(Token(Ident, ";"), 1)
  {
    assert !IsLetter(";]"[1]);
    assert IdentEnds(";]", 1);
  }

  /** A keyword followed by a structural character gives its keyword token. */
  lemma KeywordToken()
    ensures NextSpec("true]", 0) == Emitted(Token(True, "true"), 4)
    ensures NextSpec(" null,", 0) == Emitted(Token(Null, "null"), 5)
  {
    assert !IsLetter("true]"[4]);
    assert IdentEnds("true]", 4);
    assert !IsLetter(" null,"[5]);
    assert IdentEnds(" null,", 5);
    assert " null,"[1..5] == "null";
  }

  /** A document that is a bare keyword never finishes: readIdentifier runs on past its end. */
  lemma BareKeywordHangs()
    ensures NextSpec("false", 0) == Hangs
  {
  }

  // ---------------------------------------------------------------------
  // Strings
  // ---------------------------------------------------------------------

  /**
   * Runes other than a quote, a backslash or a 0 are copied as they are; the
   * string ends at the first quote or 0, which may be the 0 past the end of
   * the input.
   */
  lemma {:induction false} PlainRun(input: seq<char>, p: nat, q: nat, acc: string)
    requires p < q <= |input|
    requires forall k :: p < k < q ==> input[k] != '"' && input[k] != '\\' && input[k] != '\0'
    requires CharAt(input, q) == '"' || CharAt(input, q) == '\0'
    ensures ScanString(input, p, acc) == Scanned(acc + input[p + 1..q], q)
    decreases q - p
  {
    if p + 1 < q {
      PlainRun(input, p + 1, q, acc + [input[p + 1]]);
      assert (acc + [input[p + 1]]) + input[p + 2..q] == acc + input[p + 1..q];
    }
  }

  /** A string that is never closed runs to the end of the input, without an error. */
  lemma UnterminatedString(input: seq<char>, pos: nat)
    requires CharAt(input, SkipEnd(input, pos)) == '"'
    requires forall k :: SkipEnd(input, pos) < k < |input| ==>
      input[k] != '"' && input[k] != '\\' && input[k] != '\0'
    ensures NextSpec(input, pos) == Emitted(Token(String, input[SkipEnd(input, pos) + 1..]), |input| + 1)
  {
    var p := SkipEnd(input, pos);
    PlainRun(input, p, |input|, []);
    assert [] + input[p + 1..|input|] == input[p + 1..];
  }

  /** A slice of a slice is a slice. */
  lemma SubSlice(input: seq<char>, a: nat, b: nat, i: nat, j: nat)
    requires a <= b <= |input| && i <= j <= b - a
    ensures input[a..b][i..j] == input[a + i..a + j]
  {
    assert forall k :: 0 <= k < j - i ==> input[a..b][i..j][k] == input[a + i + k];
  }

  /** The hexadecimal digit of d, in lower case. */
  function HexChar(d: nat): (c: char)
    requires d < 16
    ensures HexDigit(c) == Some(d)
  {
    if d < 10 then ('0' as int + d) as char else ('a' as int + d - 10) as char
  }

  /** The four hexadecimal digits of a 16-bit code unit, most significant first. */
  function Hex4(v: nat): (s: string)
    requires v < 0x10000
    ensures |s| == 4
  {
    [HexChar(v / 16 / 16 / 16), HexChar(v / 16 / 16 % 16), HexChar(v / 16 % 16), HexChar(v % 16)]
  }

  /** What a \u escape's four digits are read as: Hex4 and ParseHex are inverse. */
  lemma Hex4Parses(v: nat)
    requires v < 0x10000
    ensures ParseHex(Hex4(v)) == Some(v)
  {
    var s := Hex4(v);
    var a, b, c := v / 16, v / 16 / 16, v / 16 / 16 / 16;
    assert s[..3][..2] == s[..2] && s[..2][..1] == s[..1];
    assert HexValue(s[..1]) == Some(c);
    assert HexValue(s[..2]) == Some(c * 16 + b % 16);
    assert HexValue(s[..3]) == Some((c * 16 + b % 16) * 16 + a % 16);
    assert HexValue(s) == Some(((c * 16 + b % 16) * 16 + a % 16) * 16 + v % 16);
  }

  /** Reading one more hexadecimal digit multiplies the value so far by 16 and adds the digit's. */
  lemma HexValueSnoc(s: seq<char>, c: char)
    requires HexValue(s).Some? && HexDigit(c).Some?
    ensures HexValue(s + [c]) == Some(16 * HexValue(s).value + HexDigit(c).value)
  {
    var t := s + [c];
    assert t[..|t| - 1] == s && t[|t| - 1] == c;
  }

  /** A hexadecimal value with one more digit d after the digits of x. */
  function PushDigit(x: nat, d: nat): nat {
    x * 16 + d
  }

  /** Four hexadecimal digits, of either case, have the value their digits give in base 16. */
  lemma HexValue4(s: seq<char>)
    requires |s| == 4 && forall k :: 0 <= k < 4 ==> HexDigit(s[k]).Some?
    ensures HexValue(s) == Some(PushDigit(PushDigit(PushDigit(HexDigit(s[0]).value,
      HexDigit(s[1]).value), HexDigit(s[2]).value), HexDigit(s[3]).value))
  {
    var d0, d1, d2, d3 := HexDigit(s[0]).value, HexDigit(s[1]).value, HexDigit(s[2]).value, HexDigit(s[3]).value;
    assert HexValue([s[0]]) == Some(d0);
    assert [s[0]] + [s[1]] == s[..2] && s[..2] + [s[2]] == s[..3] && s[..3] + [s[3]] == s;
    HexValueSnoc([s[0]], s[1]);
    HexValueSnoc(s[..2], s[2]);
    HexValueSnoc(s[..3], s[3]);
  }

  /** Dividing by 16 splits off the last hexadecimal digit. */
  lemma DivMod16(x: nat, d: nat)
    requires d < 16
    ensures PushDigit(x, d) / 16 == x && PushDigit(x, d) % 16 == d
  {
  }

  /** Two runs whose runes, place by place, are hexadecimal digits of the same value, of either case. */
  predicate SameHexDigits(s: seq<char>, t: seq<char>) {
    |s| == |t| && forall k :: 0 <= k < |s| ==> HexDigit(s[k]) == HexDigit(t[k])
  }

  /** The values of the four digits Hex4 writes for v. */
  lemma Hex4Digits(v: nat)
    requires v < 0x10000
    ensures var h := Hex4(v);
      HexDigit(h[0]) == Some(v / 16 / 16 / 16) && HexDigit(h[1]) == Some(v / 16 / 16 % 16) &&
      HexDigit(h[2]) == Some(v / 16 % 16) && HexDigit(h[3]) == Some(v % 16)
  {
  }

  /** Four runes with v's digits, in either case, parse as v. */
  lemma SameDigitsParse(s: seq<char>, v: nat)
    requires |s| == 4 && v < 0x10000 && SameHexDigits(s, Hex4(v))
    ensures ParseHex(s) == Some(v) && s[0] != '+' && s[0] != '-'
  {
    var h := Hex4(v);
    Hex4Digits(v);
    Hex4Parses(v);
    assert forall k :: 0 <= k < 4 ==> HexDigit(s[k]) == HexDigit(h[k]);
    HexValue4(s);
    HexValue4(h);
  }

  /** Four runes without a sign that parse as v are v's digits, in either case. */
  lemma ParseGivesDigits(s: seq<char>, v: nat)
    requires |s| == 4 && v < 0x10000 && ParseHex(s) == Some(v) && s[0] != '+' && s[0] != '-'
    ensures SameHexDigits(s, Hex4(v))
  {
    var h := Hex4(v);
    Hex4Digits(v);
    assert HexValue(s) == Some(v);
    HexValue4(s);
    var d0, d1, d2, d3 := HexDigit(s[0]).value, HexDigit(s[1]).value, HexDigit(s[2]).value, HexDigit(s[3]).value;
    var x1 := PushDigit(d0, d1);
    var x2 := PushDigit(x1, d2);
    assert v == PushDigit(x2, d3);
    DivMod16(x2, d3);
    DivMod16(x1, d2);
    DivMod16(d0, d1);
    assert v / 16 == x2 && v / 16 / 16 == x1 && v / 16 / 16 / 16 == d0;
    assert HexDigit(s[0]) == HexDigit(h[0]) && HexDigit(s[1]) == HexDigit(h[1]);
    assert HexDigit(s[2]) == HexDigit(h[2]) && HexDigit(s[3]) == HexDigit(h[3]);
  }

  /**
   * strconv.ParseInt reads four runes without a sign as the unit v exactly
   * when they are v's four hexadecimal digits, each in either case.
   */
  lemma ParseHexDigits(s: seq<char>, v: nat)
    requires |s| == 4 && v < 0x10000
    ensures ParseHex(s) == Some(v) && s[0] != '+' && s[0] != '-' <==> SameHexDigits(s, Hex4(v))
  {
    if SameHexDigits(s, Hex4(v)) {
      SameDigitsParse(s, v);
    }
    if ParseHex(s) == Some(v) && s[0] != '+' && s[0] != '-' {
      ParseGivesDigits(s, v);
    }
  }

  /**
   * A \u escape of the code unit v at index a: a backslash, a 'u' and v's
   * four hexadecimal digits, each in either case.
   */
  predicate UnitTextAt(input: seq<char>, a: nat, v: nat)
    requires v < 0x10000
  {
    a + 6 <= |input| && input[a] == '\\' && input[a + 1] == 'u' && SameHexDigits(input[a + 2..a + 6], Hex4(v))
  }

  /** The escape UnitText writes, in lower-case digits, is one such escape. */
  lemma ExactUnitText(input: seq<char>, a: nat, v: nat)
    requires v < 0x10000 && SliceIs(input, a, UnitText(v))
    ensures UnitTextAt(input, a, v)
  {
    assert UnitText(v)[2..6] == Hex4(v);
    SubSlice(input, a, a + 6, 2, 6);
  }

  /** The four digits of a \u escape at index a, whose 'u' is at a + 1, parse as its unit. */
  lemma UnitTextParses(input: seq<char>, a: nat, v: nat)
    requires v < 0x10000 && UnitTextAt(input, a, v)
    ensures UnitAt(input, a + 1) == UnitOk(v)
  {
    ParseHexDigits(input[a + 2..a + 6], v);
  }

  /**
   * A \u escape of a code unit that is not a surrogate gives that code point
   * and is consumed whole.
   */
  lemma UnitEscape(input: seq<char>, p: nat, v: nat, acc: string)
    requires v < 0x10000 && !IsSurrogate(v)
    requires UnitTextAt(input, p + 1, v)
    ensures ScanString(input, p, acc) == ScanString(input, p + 6, acc + [v as char])
  {
    UnitTextParses(input, p + 1, v);
    assert ScanString(input, p, acc) == ScanEscape(input, p + 1, acc);
    assert ScanEscape(input, p + 1, acc) == ScanUnicode(input, p + 2, acc);
  }

  /**
   * A high or low surrogate escape that is not followed by a backslash and a
   * 'u' is an error, reported with the cursor on the rune after its digits.
   */
  lemma LoneSurrogate(input: seq<char>, p: nat, v: nat, acc: string)
    requires v < 0x10000 && IsSurrogate(v)
    requires UnitTextAt(input, p + 1, v)
    requires !(CharAt(input, p + 7) == '\\' && CharAt(input, p + 8) == 'u')
    ensures ScanString(input, p, acc) == ScanError(SurrogatePairWrong, p + 7)
  {
    UnitTextParses(input, p + 1, v);
    assert ScanString(input, p, acc) == ScanEscape(input, p + 1, acc);
    assert ScanEscape(input, p + 1, acc) == ScanUnicode(input, p + 2, acc);
  }

  /**
   * Two escapes of which the first is a surrogate are decoded together: a
   * high and a low surrogate give the code point they encode; any other
   * pair is not an error but gives U+FFFD, and both escapes are consumed.
   */
  lemma SurrogatePair(input: seq<char>, p: nat, hi: nat, lo: nat, acc: string)
    requires hi < 0x10000 && lo < 0x10000 && IsSurrogate(hi)
    requires UnitTextAt(input, p + 1, hi) && UnitTextAt(input, p + 7, lo)
    ensures IsHighSurrogate(hi) && IsLowSurrogate(lo) ==>
      ScanString(input, p, acc) == ScanString(input, p + 12, acc + [DecodeRune(hi, lo) as char])
    ensures !(IsHighSurrogate(hi) && IsLowSurrogate(lo)) ==>
      ScanString(input, p, acc) == ScanString(input, p + 12, acc + ['\U{FFFD}'])
  {
    UnitTextParses(input, p + 1, hi);
    UnitTextParses(input, p + 7, lo);
    assert ScanString(input, p, acc) == ScanEscape(input, p + 1, acc);
    assert ScanEscape(input, p + 1, acc) == ScanUnicode(input, p + 2, acc);
  }

  /** The characters written as a backslash and one more character. */
  predicate HasShortEscape(c: char) {
    c == '"' || c == '\\' || c == '\U{8}' || c == '\U{C}' || c == '\r' || c == '\n' || c == '\t'
  }

  /** The character that follows the backslash in a short escape of c. */
  function ShortEscape(c: char): (e: char)
    requires HasShortEscape(c)
  {
    if c == '\U{8}' then 'b'
    else if c == '\U{C}' then 'f'
    else if c == '\r' then 'r'
    else if c == '\n' then 'n'
    else if c == '\t' then 't'
    else c
  }

  /** The escape \u of a 16-bit code unit. */
  function UnitText(v: nat): (e: string)
    requires v < 0x10000
    ensures |e| == 6
  {
    ['\\', 'u'] + Hex4(v)
  }

  /**
   * How a JSON writer would escape one character so that readString gives
   * it back: a quote, a backslash and the five control characters with a
   * short escape, the 0 as \u0000, a code point beyond U+FFFF as a
   * surrogate pair, and anything else as it is.
   */
  function Escape(c: char): (e: string)
    ensures 0 < |e|
  {
    if HasShortEscape(c) then ['\\', ShortEscape(c)]
    else if c == '\0' then UnitText(0)
    else if c as int >= SurrSelf then UnitText(EncodeRune(c as int).0) + UnitText(EncodeRune(c as int).1)
    else [c]
  }

  /** The body of a JSON string literal for s. */
  function Quote(s: string): string {
    if |s| == 0 then [] else Escape(s[0]) + Quote(s[1..])
  }

  /** readString decodes one escaped character and moves past its escape. */
  lemma EscapeStep(input: seq<char>, p: nat, c: char, acc: string)
    requires SliceIs(input, p + 1, Escape(c))
    ensures ScanString(input, p, acc) == ScanString(input, p + |Escape(c)|, acc + [c])
  {
    var e := Escape(c);
    assert input[p + 1] == e[0];
    if HasShortEscape(c) {
      assert input[p + 2] == e[1];
    } else if c == '\0' {
      ExactUnitText(input, p + 1, 0);
      UnitEscape(input, p, 0, acc);
    } else if c as int >= SurrSelf {
      var pair := EncodeRune(c as int);
      ConcatSplit(input, p + 1, UnitText(pair.0), UnitText(pair.1), p + 7);
      ExactUnitText(input, p + 1, pair.0);
      ExactUnitText(input, p + 7, pair.1);
      SurrogatePair(input, p, pair.0, pair.1, acc);
      DecodeEncode(c as int);
    }
  }

  /**
   * A backslash followed by any rune that is not b, f, r, n, t or u stands
   * for that rune itself: the quote, the backslash and the solidus, but also
   * a letter JSON does not define an escape for, and even the 0 rune.
   */
  lemma OtherEscapeKept(input: seq<char>, p: nat, e: char, acc: string)
    requires SliceIs(input, p + 1, ['\\', e])
    requires e != 'b' && e != 'f' && e != 'r' && e != 'n' && e != 't' && e != 'u'
    ensures ScanString(input, p, acc) == ScanString(input, p + 2, acc + [e])
  {
    assert input[p + 1] == '\\' && input[p + 2] == e;
  }

  /** "\/\q" reads as "/q": the solidus escape and an escape JSON does not have. */
  lemma SolidusAndUnknownEscapes()
    ensures ScanString("\"\\/\\q\"", 0, []) == Scanned("/q", 5)
  {
    var text := "\"\\/\\q\"";
    assert ScanString(text, 2, "/") == ScanString(text, 4, "/q");
    assert ScanString(text, 0, []) == ScanString(text, 2, "/");
  }

  /** The input holds w from index a on. */
  predicate SliceIs(input: seq<char>, a: nat, w: seq<char>) {
    a + |w| <= |input| && input[a..a + |w|] == w
  }

  /** A concatenation found in the input splits into its two parts, the second from b on. */
  lemma ConcatSplit(input: seq<char>, a: nat, e: seq<char>, rest: seq<char>, b: nat)
    requires b == a + |e| && SliceIs(input, a, e + rest)
    ensures SliceIs(input, a, e) && SliceIs(input, b, rest)
  {
    var q := e + rest;
    assert q[0..|e|] == e && q[|e|..|q|] == rest;
    SubSlice(input, a, a + |q|, 0, |e|);
    SubSlice(input, a, a + |q|, |e|, |q|);
  }

  /** A quote ends the string. */
  lemma ScanClosed(input: seq<char>, p: nat, acc: string)
    requires CharAt(input, p + 1) == '"'
    ensures ScanString(input, p, acc) == Scanned(acc, p + 1)
  {
  }

  /** The input holds Quote(s) and a closing quote after index p. */
  predicate QuotedAt(input: seq<char>, p: nat, s: string) {
    SliceIs(input, p + 1, Quote(s) + ['"'])
  }

  /**
   * readString gives back exactly the text a writer quoted: Quote(s)
   * followed by a closing quote decodes to s, ending on that quote.
   */
  lemma {:induction false} ScanQuoted(input: seq<char>, p: nat, s: string, acc: string)
    requires QuotedAt(input, p, s)
    ensures ScanString(input, p, acc) == Scanned(acc + s, p + 1 + |Quote(s)|)
    decreases |s|
  {
    if |s| > 0 {
      QuotedCons(input, p, s, acc);
      ScanQuoted(input, p + |Escape(s[0])|, s[1..], acc + [s[0]]);
    } else {
      assert Quote(s) + ['"'] == ['"'];
      assert input[p + 1..p + 2][0] == '"';
      ScanClosed(input, p, acc);
      assert acc + s == acc;
    }
  }

  /** A run found in the input before a rest and a closing rune splits after the run. */
  lemma ClosedSplit(input: seq<char>, a: nat, q: seq<char>, e: seq<char>, rest: seq<char>, x: char)
    requires q == e + rest && SliceIs(input, a, q + [x])
    ensures SliceIs(input, a, e) && SliceIs(input, a + |e|, rest + [x]) && |q| == |e| + |rest|
  {
    assert q + [x] == e + (rest + [x]);
    ConcatSplit(input, a, e, rest + [x], a + |e|);
  }

  /** Quote writes the escape of the first character, then the rest. */
  lemma QuoteFront(s: string)
    requires |s| > 0
    ensures Quote(s) == Escape(s[0]) + Quote(s[1..])
  {
  }

  /** A quoted text starts with the escape of its first character, and the quoted rest follows. */
  lemma QuotedSplit(input: seq<char>, p: nat, s: string)
    requires |s| > 0 && QuotedAt(input, p, s)
    ensures SliceIs(input, p + 1, Escape(s[0]))
    ensures QuotedAt(input, p + |Escape(s[0])|, s[1..])
    ensures p + |Escape(s[0])| + 1 + |Quote(s[1..])| == p + 1 + |Quote(s)|
  {
    QuoteFront(s);
    ClosedSplit(input, p + 1, Quote(s), Escape(s[0]), Quote(s[1..]), '"');
  }

  /** The first escaped character of a quoted text, and the quoted rest after it. */
  lemma QuotedCons(input: seq<char>, p: nat, s: string, acc: string)
    requires |s| > 0 && QuotedAt(input, p, s)
    ensures QuotedAt(input, p + |Escape(s[0])|, s[1..])
    ensures ScanString(input, p, acc) == ScanString(input, p + |Escape(s[0])|, acc + [s[0]])
    ensures p + |Escape(s[0])| + 1 + |Quote(s[1..])| == p + 1 + |Quote(s)|
    ensures acc + [s[0]] + s[1..] == acc + s
  {
    QuotedSplit(input, p, s);
    EscapeStep(input, p, s[0], acc);
    assert [s[0]] + s[1..] == s;
    assert acc + [s[0]] + s[1..] == acc + ([s[0]] + s[1..]);
  }

  /** A quoted literal lexes as the STRING token of the text that was quoted. */
  lemma StringToken(input: seq<char>, pos: nat, s: string)
    requires CharAt(input, SkipEnd(input, pos)) == '"' && QuotedAt(input, SkipEnd(input, pos), s)
    ensures NextSpec(input, pos) == Emitted(Token(String, s), SkipEnd(input, pos) + 1 + |Quote(s)| + 1)
  {
    ScanQuoted(input, SkipEnd(input, pos), s, []);
    assert [] + s == s;
  }

  /** The document made of one quoted text lexes as that text and then EOF. */
  lemma QuoteRoundTrip(s: string)
    ensures var doc := ['"'] + Quote(s) + ['"'];
      Pull(doc, 0, 2) == Some([Token(String, s), EofToken])
  {
    var doc := ['"'] + Quote(s) + ['"'];
    assert doc[1..1 + |Quote(s) + ['"']|] == Quote(s) + ['"'];
    assert SkipEnd(doc, 0) == 0;
    StringToken(doc, 0, s);
    assert NextSpec(doc, 0) == Emitted(Token(String, s), |doc|);
    EofForever(doc, |doc|, 1);
    assert Copies(EofToken, 1) == [EofToken];
    assert Pull(doc, |doc|, 1) == Some([EofToken]);
    assert [Token(String, s)] + [EofToken] == [Token(String, s), EofToken];
    assert Pull(doc, 0, 2) == Some([Token(String, s), EofToken]);
  }

  /** strconv.ParseInt takes a leading sign: "\u+041" is 'A' and "\u-041" is U+FFFD. */
  lemma SignedUnitEscape()
    ensures ScanString("\"\\u+041\"", 0, []) == Scanned("A", 7)
    ensures ScanString("\"\\u-041\"", 0, []) == Scanned("\U{FFFD}", 7)
  {
    assert "\"\\u+041\""[3..7] == "+041" && "+041"[1..] == "041";
    assert "\"\\u-041\""[3..7] == "-041" && "-041"[1..] == "041";
    assert "041"[..2] == "04" && "04"[..1] == "0";
  }

  /** Four digits, of either case, with the same values place by place. */
  lemma SameHexDigits4(s: seq<char>, t: seq<char>)
    requires |s| == 4 && |t| == 4
    requires HexDigit(s[0]) == HexDigit(t[0]) && HexDigit(s[1]) == HexDigit(t[1])
    requires HexDigit(s[2]) == HexDigit(t[2]) && HexDigit(s[3]) == HexDigit(t[3])
    ensures SameHexDigits(s, t)
  {
  }

  /** Upper-case digits are read as lower-case ones: "D83D" is the unit 0xD83D. */
  lemma UpperCaseHigh()
    ensures ParseHex("D83D") == Some(0xD83D)
  {
    assert Hex4(0xD83D) == "d83d";
    SameHexDigits4("D83D", "d83d");
    SameDigitsParse("D83D", 0xD83D);
  }

  /** ... and "DE28" is the unit 0xDE28. */
  lemma UpperCaseLow()
    ensures ParseHex("DE28") == Some(0xDE28)
  {
    assert Hex4(0xDE28) == "de28";
    SameHexDigits4("DE28", "de28");
    SameDigitsParse("DE28", 0xDE28);
  }

  /**
   * So the two escapes with the digits D83D and DE28 are the units 0xD83D and 0xDE28, which
   * SurrogatePair decodes together to U+1F628.
   */
  lemma UpperCaseUnits()
    ensures ParseHex("D83D") == Some(0xD83D) && ParseHex("DE28") == Some(0xDE28)
    ensures DecodeRune(0xD83D, 0xDE28) == 0x1F628
  {
    UpperCaseHigh();
    UpperCaseLow();
  }

  /** Four runes that are not hexadecimal are an error that names them. */
  lemma InvalidUnitEscape()
    ensures ScanString("\"\\u12g4\"", 0, []) == ScanError(InvalidHex("12g4"), 6)
  {
    assert "\"\\u12g4\""[3..7] == "12g4";
    assert "12g4"[..3] == "12g";
  }

  // ---------------------------------------------------------------------
  // Error messages: strconv.Quote and its inverse
  // ---------------------------------------------------------------------

  /** c in front of a decoded text, or no text when decoding failed. */
  function Prepend(c: char, r: Option<string>): Option<string> {
    match r
    case Some(t) => Some([c] + t)
    case None => None
  }

  /** The rune a one-letter escape of strconv.Unquote stands for. */
  function ShortUnescape(e: char): Option<char> {
    if e == 'a' then Some('\U{7}')
    else if e == 'b' then Some('\U{8}')
    else if e == 'f' then Some('\U{C}')
    else if e == 'n' then Some('\n')
    else if e == 'r' then Some('\r')
    else if e == 't' then Some('\t')
    else if e == 'v' then Some('\U{B}')
    else if e == '"' then Some('"')
    else if e == '\\' then Some('\\')
    else None
  }

  /**
   * strconv.Unquote's reading of the runes between the quotes of a double
   * quoted literal, for the escapes that strconv.Quote writes for ASCII (the
   * \u, \U and octal escapes it also reads are not needed here): a raw quote,
   * a lone backslash or an unknown escape is a syntax error.
   */
  function Unquote(q: string): Option<string>
    decreases |q|
  {
    if |q| == 0 then Some([])
    else if q[0] == '"' then None
    else if q[0] != '\\' then Prepend(q[0], Unquote(q[1..]))
    else if |q| < 2 then None
    else if q[1] == 'x' then
      if |q| < 4 then None
      else
        match (HexDigit(q[2]), HexDigit(q[3]))
        case (Some(h), Some(l)) => Prepend((h * 16 + l) as char, Unquote(q[4..]))
        case _ => None
    else
      match ShortUnescape(q[1])
      case Some(c) => Prepend(c, Unquote(q[2..]))
      case None => None
  }

  /** Each lower-case hexadecimal digit reads back as its own value. */
  lemma LowerHexDigits(k: nat)
    requires k < 16
    ensures HexDigit(LowerHex[k]) == Some(k)
  {
    if k < 10 {
      assert LowerHex[k] as nat == '0' as nat + k;
    } else {
      assert LowerHex[k] as nat == 'a' as nat + k - 10;
    }
  }

  /**
   * The value of a hexadecimal digit of either case: the lower-case digit at
   * that place in "0123456789abcdef" is the rune itself, folded to lower case.
   */
  lemma HexDigitValue(c: char)
    requires HexDigit(c).Some?
    ensures LowerHex[HexDigit(c).value] == (if 'A' <= c <= 'F' then (c as int + 32) as char else c)
  {
  }

  /** A rune QuoteRune writes as it is is read back as it is. */
  lemma UnquotePlain(c: char, rest: string)
    requires QuoteRune(c) == [c]
    ensures Unquote([c] + rest) == Prepend(c, Unquote(rest))
  {
    var q := [c] + rest;
    assert q[0] == c && q[1..] == rest;
  }

  /** A \x escape is read back as the rune whose two hexadecimal digits it holds. */
  lemma UnquoteHex(c: char, rest: string)
    requires c < ' ' || c == '\U{7F}'
    ensures var h, l := c as int / 16, c as int % 16;
      Unquote(['\\', 'x', LowerHex[h], LowerHex[l]] + rest) == Prepend(c, Unquote(rest))
  {
    var h, l := c as int / 16, c as int % 16;
    var q := ['\\', 'x', LowerHex[h], LowerHex[l]] + rest;
    LowerHexDigits(h);
    LowerHexDigits(l);
    assert q[0] == '\\' && q[1] == 'x' && q[2] == LowerHex[h] && q[3] == LowerHex[l] && q[4..] == rest;
    assert (h * 16 + l) as char == c;
  }

  /** A one-letter escape is read back as the rune it stands for. */
  lemma UnquoteShort(c: char, x: char, rest: string)
    requires ShortUnescape(x) == Some(c)
    ensures Unquote(['\\', x] + rest) == Prepend(c, Unquote(rest))
  {
    var q := ['\\', x] + rest;
    assert q[0] == '\\' && q[1] == x && q[2..] == rest;
  }

  /** Unquote reads one rune written by QuoteRune and goes on after it. */
  lemma UnquoteRune(c: char, rest: string)
    ensures Unquote(QuoteRune(c) + rest) == Prepend(c, Unquote(rest))
  {
    if c == '"' {
      UnquoteShort(c, '"', rest);
    } else if c == '\\' {
      UnquoteShort(c, '\\', rest);
    } else if c == '\U{7}' {
      UnquoteShort(c, 'a', rest);
    } else if c == '\U{8}' {
      UnquoteShort(c, 'b', rest);
    } else if c == '\U{C}' {
      UnquoteShort(c, 'f', rest);
    } else if c == '\n' {
      UnquoteShort(c, 'n', rest);
    } else if c == '\r' {
      UnquoteShort(c, 'r', rest);
    } else if c == '\t' {
      UnquoteShort(c, 't', rest);
    } else if c == '\U{B}' {
      UnquoteShort(c, 'v', rest);
    } else if c < ' ' || c == '\U{7F}' {
      UnquoteHex(c, rest);
    } else {
      UnquotePlain(c, rest);
    }
  }

  /** Unquote gives back every text that QuoteBody wrote. */
  lemma {:induction false} UnquoteQuoteBody(s: string)
    ensures Unquote(QuoteBody(s)) == Some(s)
  {
    if |s| > 0 {
      UnquoteRune(s[0], QuoteBody(s[1..]));
      UnquoteQuoteBody(s[1..]);
      assert [s[0]] + s[1..] == s;
    }
  }

  /**
   * The message of an invalid \u escape names the four runes: two escapes
   * whose runes differ never give the same message.
   */
  lemma InvalidHexMessageNamesRunes(a: string, b: string)
    requires Message(InvalidHex(a)) == Message(InvalidHex(b))
    ensures a == b
  {
    var m := Message(InvalidHex(a));
    var qa, qb := GoQuote(a), GoQuote(b);
    assert m == "strconv.ParseInt: parsing " + qa + ": invalid syntax";
    assert m == "strconv.ParseInt: parsing " + qb + ": invalid syntax";
    assert |qa| == |qb|;
    assert qa == m[26..26 + |qa|] == qb;
    assert QuoteBody(a) == qa[1..|qa| - 1] == QuoteBody(b);
    UnquoteQuoteBody(a);
    UnquoteQuoteBody(b);
  }

  /** The last rune of each message: the three kinds of error end differently. */
  lemma MessageEnd(e: LexError)
    ensures var m := Message(e);
      0 < |m| && m[|m| - 1] == (if e.MinusWithoutNumber? then 't' else if e.SurrogatePairWrong? then 'g' else 'x')
  {
    if e.InvalidHex? {
      var suffix := ": invalid syntax";
      assert suffix[|suffix| - 1] == 'x';
      assert Message(e) == ("strconv.ParseInt: parsing " + GoQuote(e.text)) + suffix;
    }
  }

  /** The three errors give three different messages, and an invalid escape names its runes. */
  lemma MessageInjective(e1: LexError, e2: LexError)
    requires Message(e1) == Message(e2)
    ensures e1 == e2
  {
    if e1.InvalidHex? && e2.InvalidHex? {
      InvalidHexMessageNamesRunes(e1.text, e2.text);
    } else {
      MessageEnd(e1);
      MessageEnd(e2);
    }
  }

  /** strconv.Quote escapes a quote among the four runes `"abc`. */
  lemma QuotedRunes()
    ensures GoQuote("\"abc") == "\"\\\"abc\""
  {
    assert QuoteBody([]) == [];
    assert QuoteBody("c") == QuoteRune('c') + QuoteBody([]) == "c";
    assert QuoteBody("bc") == QuoteRune('b') + QuoteBody("c") == "bc";
    assert QuoteBody("abc") == QuoteRune('a') + QuoteBody("bc") == "abc";
    assert QuoteBody("\"abc") == QuoteRune('"') + QuoteBody("abc") == "\\\"abc";
  }

  /** The four runes `"abc` after \u give a message in which the quote is escaped. */
  lemma QuotedRunesMessage()
    ensures Message(InvalidHex("\"abc")) == "strconv.ParseInt: parsing " + "\"\\\"abc\"" + ": invalid syntax"
  {
    QuotedRunes();
  }
}
