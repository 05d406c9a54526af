/**
 * The character lexer (lexer/lexer.go).
 *
 * The first half of the module holds pure definitions: the character
 * classes, and one function per scanning routine that says, for an input
 * and a cursor position, where the routine stops and what it yields. The
 * class Lexer at the end is the cursor of the source, whose methods run the
 * source's loops and are proved to agree with those functions.
 *
 * A Go rune becomes a char. The source reads the rune 0 past the end of the
 * input and treats it as the end-of-input mark, so CharAt gives '\0' there.
 */
module Lexing {
  import opened Options
  import opened Tokens
  import opened Utf16

  // ---------------------------------------------------------------------
  // Character classes (lexer/lexer.go:218-241)
  // ---------------------------------------------------------------------

  predicate IsWhiteSpace(c: char) {
    c == ' ' || c == '\t' || c == '\n' || c == '\r'
  }

  predicate IsDigit(c: char) {
    '0' <= c <= '9'
  }

  predicate IsDigit1to9(c: char) {
    '1' <= c <= '9'
  }

  /** The six structural characters of JSON. */
  predicate IsSymbol(c: char) {
    c == '[' || c == '{' || c == ']' || c == '}' || c == ':' || c == ','
  }

  /** Anything that is not a digit, whitespace or a structural character. */
  predicate IsLetter(c: char) {
    !IsDigit(c) && !IsWhiteSpace(c) && !IsSymbol(c)
  }

  /** The character each structural token kind is written with. */
  function SymbolChar(t: TokenType): char {
    match t
    case LBracket => '['
    case RBracket => ']'
    case LBrace => '{'
    case RBrace => '}'
    case Colon => ':'
    case Comma => ','
    case _ => '\0'
  }

  /**
   * The token kind of a structural character: one of the six structural
   * kinds, and the one written with c, so that no two characters share one.
   */
  function SymbolKind(c: char): (t: TokenType)
    requires IsSymbol(c)
    ensures t in {LBracket, RBracket, LBrace, RBrace, Colon, Comma}
    ensures SymbolChar(t) == c
  {
    match c
    case '[' => LBracket
    case ']' => RBracket
    case '{' => LBrace
    case '}' => RBrace
    case ':' => Colon
    case ',' => Comma
  }

  /** newToken: a token of the given kind whose literal is the one rune c. */
  function NewToken(kind: TokenType, c: char): (t: Token)
    ensures t.kind == kind && |t.literal| == 1 && t.literal[0] == c
  {
    Token(kind, [c])
  }

  /** The rune readChar loads at index i: the input's, or 0 past its end. */
  function CharAt(input: seq<char>, i: nat): (c: char)
    ensures i < |input| ==> c == input[i]
    ensures |input| <= i ==> c == '\0'
  {
    if i < |input| then input[i] else '\0'
  }

  // ---------------------------------------------------------------------
  // Lexical errors
  // ---------------------------------------------------------------------

  datatype LexError =
    | MinusWithoutNumber      // a '-' not followed by a digit
    | SurrogatePairWrong      // a surrogate \u escape not followed by "\u"
    | InvalidHex(text: string) // strconv.ParseInt refused the four runes

  /** The lower-case hexadecimal digits strconv.Quote writes. */
  const LowerHex: string := "0123456789abcdef"

  /**
   * How strconv.Quote writes one rune inside the quotes: the quote and the
   * backslash behind a backslash, the seven control characters that have a
   * one-letter escape as that escape, the other control characters below
   * 0x20 and DEL as \x and two lower-case hexadecimal digits, and every
   * other rune as it is.
   */
  function QuoteRune(c: char): (e: string)
    ensures 1 <= |e| <= 4
    ensures |e| == 1 <==> e == [c]
    ensures |e| == 1 <==> (' ' <= c && c != '\U{7F}' && c != '"' && c != '\\')
  {
    if c == '"' then ['\\', '"']
    else if c == '\\' then ['\\', '\\']
    else if c == '\U{7}' then ['\\', 'a']
    else if c == '\U{8}' then ['\\', 'b']
    else if c == '\U{C}' then ['\\', 'f']
    else if c == '\n' then ['\\', 'n']
    else if c == '\r' then ['\\', 'r']
    else if c == '\t' then ['\\', 't']
    else if c == '\U{B}' then ['\\', 'v']
    else if c < ' ' || c == '\U{7F}' then ['\\', 'x', LowerHex[c as int / 16], LowerHex[c as int % 16]]
    else [c]
  }

  /** The runes of s, each written as QuoteRune writes it. */
  function QuoteBody(s: string): (q: string)
    ensures |s| <= |q| <= 4 * |s|
  {
    if |s| == 0 then [] else QuoteRune(s[0]) + QuoteBody(s[1..])
  }

  /** strconv.Quote: a Go string literal for s. */
  function GoQuote(s: string): (q: string)
    ensures |s| + 2 <= |q| && q[0] == '"' && q[|q| - 1] == '"'
  {
    ['"'] + QuoteBody(s) + ['"']
  }

  /**
   * The error text the source produces. For the four runes ParseInt refuses,
   * it is ParseInt's syntax error, which quotes them as strconv.Quote does.
   */
  function Message(e: LexError): (m: string)
    ensures e.InvalidHex? ==> |m| > 26 && m[..26] == "strconv.ParseInt: parsing " && m[26] == '"'
  {
    match e
    case MinusWithoutNumber => "minus character should be followed by a number part"
    case SurrogatePairWrong => "Unicode surrogate piar is wrong"
    case InvalidHex(text) => "strconv.ParseInt: parsing " + GoQuote(text) + ": invalid syntax"
  }

  // ---------------------------------------------------------------------
  // Runs of characters (skipWhiteSpace, the digit loops of readNumber,
  // readIdentifier)
  // ---------------------------------------------------------------------

  /** Where skipWhiteSpace stops when started at pos. */
  function SkipEnd(input: seq<char>, pos: nat): (end: nat)
    ensures pos <= end
    ensures pos <= |input| ==> end <= |input|
    ensures !IsWhiteSpace(CharAt(input, end))
    ensures forall k :: pos <= k < end ==> k < |input| && IsWhiteSpace(input[k])
    decreases |input| - pos
  {
    if pos < |input| && IsWhiteSpace(input[pos]) then SkipEnd(input, pos + 1) else pos
  }

  /** Where a loop `for isDigit(l.ch) { l.readChar() }` stops when started at pos. */
  function DigitsEnd(input: seq<char>, pos: nat): (end: nat)
    ensures pos <= end
    ensures pos <= |input| ==> end <= |input|
    ensures !IsDigit(CharAt(input, end))
    ensures forall k :: pos <= k < end ==> k < |input| && IsDigit(input[k])
    decreases |input| - pos
  {
    if pos < |input| && IsDigit(input[pos]) then DigitsEnd(input, pos + 1) else pos
  }

  /**
   * readIdentifier's loop ends only if a non-letter follows: the rune 0 it
   * reads past the end of the input counts as a letter.
   */
  predicate IdentEnds(input: seq<char>, pos: nat) {
    exists k :: pos <= k < |input| && !IsLetter(input[k])
  }

  /** Where readIdentifier stops when started at pos. */
  function IdentEnd(input: seq<char>, pos: nat): (end: nat)
    requires IdentEnds(input, pos)
    ensures pos <= end < |input|
    ensures !IsLetter(input[end])
    ensures forall k :: pos <= k < end ==> IsLetter(input[k])
    decreases |input| - pos
  {
    if IsLetter(CharAt(input, pos)) then
      assert forall k :: pos <= k < |input| && !IsLetter(input[k]) ==> pos + 1 <= k;
      IdentEnd(input, pos + 1)
    else
      pos
  }

  // ---------------------------------------------------------------------
  // Numbers (readNumber)
  // ---------------------------------------------------------------------

  /**
   * Where readNumber stops when started at start: nowhere unless the first
   * rune is 1-9; otherwise after a digit run, an optional '.' with digits,
   * and an optional 'e' followed by one sign or digit and more digits.
   */
  function NumberEnd(input: seq<char>, start: nat): (end: nat)
    ensures start <= end
    ensures end == start <==> !IsDigit1to9(CharAt(input, start))
    ensures end > start ==> end <= |input| && !IsDigit(CharAt(input, end))
  {
    if !IsDigit1to9(CharAt(input, start)) then start
    else ExponentEnd(input, FractionEnd(input, DigitsEnd(input, start + 1)))
  }

  /** Where readNumber's optional fraction, a '.' and a digit run, ends when it may start at p. */
  function FractionEnd(input: seq<char>, p: nat): (end: nat)
    ensures p <= end
    ensures end == p <==> CharAt(input, p) != '.'
    ensures p <= |input| ==> end <= |input|
    ensures end > p ==> !IsDigit(CharAt(input, end))
  {
    if CharAt(input, p) == '.' then DigitsEnd(input, p + 1) else p
  }

  /**
   * Where readNumber's optional exponent ends when it may start at p: an 'e',
   * then a sign or digit followed by a digit run, or nothing at all.
   */
  function ExponentEnd(input: seq<char>, p: nat): (end: nat)
    ensures p <= end
    ensures end == p <==> CharAt(input, p) != 'e'
    ensures p <= |input| ==> end <= |input|
    ensures end == p + 1 ==> CharAt(input, p) == 'e' && !IsDigit(CharAt(input, end))
    ensures end > p + 1 ==> !IsDigit(CharAt(input, end))
  {
    if CharAt(input, p) != 'e' then p
    else
      var c := CharAt(input, p + 1);
      if c == '+' || c == '-' || IsDigit(c) then DigitsEnd(input, p + 2)
      else p + 1
  }

  // ---------------------------------------------------------------------
  // \u escapes (readUnicode with strconv.ParseInt(s, 16, 32))
  // ---------------------------------------------------------------------

  function HexDigit(c: char): (d: Option<nat>)
    ensures d.Some? ==> d.value < 16
    ensures d.Some? <==> ('0' <= c <= '9' || 'a' <= c <= 'f' || 'A' <= c <= 'F')
  {
    if '0' <= c <= '9' then Some(c as nat - '0' as nat)
    else if 'a' <= c <= 'f' then Some(c as nat - 'a' as nat + 10)
    else if 'A' <= c <= 'F' then Some(c as nat - 'A' as nat + 10)
    else None
  }

  /** The value of a run of hexadecimal digits; None if empty or not all digits. */
  function HexValue(s: seq<char>): (v: Option<nat>)
    ensures v.Some? <==> |s| > 0 && forall k :: 0 <= k < |s| ==> HexDigit(s[k]).Some?
  {
    if |s| == 0 then None
    else if |s| == 1 then HexDigit(s[0])
    else
      match (HexValue(s[..|s| - 1]), HexDigit(s[|s| - 1]))
      case (Some(high), Some(low)) => Some(high * 16 + low)
      case _ => None
  }

  /**
   * strconv.ParseInt(s, 16, 32) on the four runes readUnicode passes it: an
   * optional leading sign, then hexadecimal digits. Four runes can never
   * overflow 32 bits.
   */
  function ParseHex(s: seq<char>): (v: Option<int>)
    requires |s| == 4
    ensures v.Some? <==>
      (if s[0] == '+' || s[0] == '-' then HexValue(s[1..]).Some? else HexValue(s).Some?)
    ensures v.Some? && s[0] != '-' ==> v.value >= 0
  {
    if s[0] == '+' then
      match HexValue(s[1..])
      case Some(x) => Some(x)
      case None => None
    else if s[0] == '-' then
      match HexValue(s[1..])
      case Some(x) => Some(-(x as int))
      case None => None
    else
      match HexValue(s)
      case Some(x) => Some(x)
      case None => None
  }

  /**
   * Go's string([]rune) conversion of one rune: a Unicode scalar value stays
   * as it is, anything else (a negative value, a surrogate, a value past
   * U+10FFFF) becomes U+FFFD.
   */
  function RuneToChar(r: int): (c: char)
    ensures (0 <= r < Surr1 || Surr3 <= r <= MaxRune) ==> c as int == r
    ensures !(0 <= r < Surr1 || Surr3 <= r <= MaxRune) ==> c == '\U{FFFD}'
  {
    if 0 <= r < Surr1 || Surr3 <= r <= MaxRune then r as char else '\U{FFFD}'
  }

  /** The outcome of readUnicode: a code unit, or ParseInt's error. */
  datatype UnitRead = UnitOk(unit: int) | UnitError(err: LexError)

  /**
   * readUnicode with the cursor on the 'u' at index u: the four runes after
   * it, read as a hexadecimal code unit. The slice input[u+1:u+5] exists only
   * when u + 5 <= |input| (Go panics otherwise).
   */
  function UnitAt(input: seq<char>, u: nat): (r: UnitRead)
    requires u + 5 <= |input|
    ensures r.UnitOk? <==> ParseHex(input[u + 1..u + 5]).Some?
  {
    var digits := input[u + 1..u + 5];
    match ParseHex(digits)
    case Some(v) => UnitOk(v)
    case None => UnitError(InvalidHex(digits))
  }

  // ---------------------------------------------------------------------
  // Strings (readString)
  // ---------------------------------------------------------------------

  /**
   * The outcome of readString: the decoded text and the index of the rune
   * that ended it (the closing quote, or a 0); an error and the index where
   * the cursor stopped; or a panic of the Go slice in readUnicode.
   */
  datatype StringScan =
    | Scanned(text: string, end: nat)
    | ScanError(err: LexError, at: nat)
    | ScanPanic

  /**
   * readString's loop, from the state where p is the index of the last rune
   * consumed and acc the text decoded so far. Each round reads the next rune:
   * a quote or a 0 ends the string; a backslash starts an escape; anything
   * else is kept.
   */
  function ScanString(input: seq<char>, p: nat, acc: string): (r: StringScan)
    ensures r.Scanned? ==> p < r.end
    ensures r.ScanError? ==> p < r.at
    ensures r.Scanned? ==> CharAt(input, r.end) == '"' || CharAt(input, r.end) == '\0'
    decreases |input| - p, 2
  {
    var q := p + 1;
    var c := CharAt(input, q);
    if c == '"' || c == '\0' then Scanned(acc, q)
    else if c != '\\' then ScanString(input, q, acc + [c])
    else ScanEscape(input, q, acc)
  }

  /**
   * The escape whose backslash is at index q: a letter among b, f, r, n, t
   * gives its control character, a 'u' starts a \u escape (whose four runes
   * Go slices out of the input), and any other rune is kept as it is.
   */
  function ScanEscape(input: seq<char>, q: nat, acc: string): (r: StringScan)
    requires q < |input|
    ensures r.Scanned? ==> q < r.end
    ensures r.ScanError? ==> q < r.at
    ensures r.Scanned? ==> CharAt(input, r.end) == '"' || CharAt(input, r.end) == '\0'
    decreases |input| - q, 1
  {
    var e := CharAt(input, q + 1);
    if e == 'b' then ScanString(input, q + 1, acc + ['\U{8}'])
    else if e == 'f' then ScanString(input, q + 1, acc + ['\U{C}'])
    else if e == 'r' then ScanString(input, q + 1, acc + ['\r'])
    else if e == 'n' then ScanString(input, q + 1, acc + ['\n'])
    else if e == 't' then ScanString(input, q + 1, acc + ['\t'])
    else if e != 'u' then ScanString(input, q + 1, acc + [e])
    else if |input| < q + 6 then ScanPanic
    else ScanUnicode(input, q + 1, acc)
  }

  /**
   * A \u escape whose 'u' is at index u: the code unit is kept, unless it is
   * a surrogate, which must be followed by a second \u escape that it is
   * decoded together with.
   */
  function ScanUnicode(input: seq<char>, u: nat, acc: string): (r: StringScan)
    requires u + 5 <= |input|
    ensures r.Scanned? ==> u < r.end
    ensures r.ScanError? ==> u < r.at
    ensures r.Scanned? ==> CharAt(input, r.end) == '"' || CharAt(input, r.end) == '\0'
    decreases |input| - u, 0
  {
    match UnitAt(input, u)
    case UnitError(err) => ScanError(err, u + 4)
    case UnitOk(r1) =>
      if !IsSurrogate(r1) then ScanString(input, u + 4, acc + [RuneToChar(r1)])
      else if !(CharAt(input, u + 5) == '\\' && CharAt(input, u + 6) == 'u') then
        ScanError(SurrogatePairWrong, u + 5)
      else if |input| < u + 11 then ScanPanic
      else
        match UnitAt(input, u + 6)
        case UnitError(err) => ScanError(err, u + 10)
        case UnitOk(r2) => ScanString(input, u + 10, acc + [RuneToChar(DecodeRune(r1, r2))])
  }

  // ---------------------------------------------------------------------
  // NextToken
  // ---------------------------------------------------------------------

  /**
   * The outcome of one NextToken call: a token and the cursor position after
   * it; an error and the position where the cursor stopped; a Go panic; or a
   * call that never returns.
   */
  datatype Lexed =
    | Emitted(tok: Token, next: nat)
    | Failed(err: LexError, next: nat)
    | Panics
    | Hangs

  /** NextToken returns to its caller (no panic, no endless loop). */
  predicate Returns(o: Lexed) {
    o.Emitted? || o.Failed?
  }

  /** NextToken with the cursor at pos. */
  function NextSpec(input: seq<char>, pos: nat): (o: Lexed)
    ensures Returns(o) ==> SkipEnd(input, pos) <= o.next
    ensures Returns(o) && o.next == SkipEnd(input, pos) ==> o == Emitted(Token(Number, []), o.next)
  {
    var p := SkipEnd(input, pos);
    var c := CharAt(input, p);
    if IsSymbol(c) then Emitted(NewToken(SymbolKind(c), c), p + 1)
    else if c == '-' then
      if IsDigit(CharAt(input, p + 1)) then
        var e := NumberEnd(input, p + 1);
        Emitted(Token(Number, ['-'] + input[p + 1..e]), e)
      else
        Failed(MinusWithoutNumber, p + 1)
    else if c == '\0' then Emitted(EofToken, p + 1)
    else if c == '"' then
      match ScanString(input, p, [])
      case Scanned(text, end) => Emitted(Token(String, text), end + 1)
      case ScanError(err, at) => Failed(err, at)
      case ScanPanic => Panics
    else if IsLetter(c) then
      if IdentEnds(input, p) then
        var e := IdentEnd(input, p);
        Emitted(Token(LookupIdent(input[p..e]), input[p..e]), e)
      else
        Hangs
    else if IsDigit(c) then
      var e := NumberEnd(input, p);
      Emitted(Token(Number, input[p..e]), e)
    else
      Emitted(NewToken(Illegal, c), p + 1)
  }

  /**
   * The first n tokens that successive NextToken calls from position pos hand
   * to a caller that, like the parser, keeps the token and drops the error
   * (after an error that token is the zero token); None when one of those
   * calls panics or never returns.
   */
  function Pull(input: seq<char>, pos: nat, n: nat): (r: Option<seq<Token>>)
    ensures r.Some? ==> |r.value| == n
    ensures r.Some? && n > 0 ==> Returns(NextSpec(input, pos))
    ensures r.Some? && n > 0 && NextSpec(input, pos).Emitted? ==> r.value[0] == NextSpec(input, pos).tok
    ensures r.Some? && n > 0 && NextSpec(input, pos).Failed? ==> r.value[0] == ZeroToken
    decreases n
  {
    if n == 0 then Some([])
    else
      match NextSpec(input, pos)
      case Emitted(tok, next) =>
        (match Pull(input, next, n - 1)
         case Some(rest) => Some([tok] + rest)
         case None => None)
      case Failed(_, next) =>
        (match Pull(input, next, n - 1)
         case Some(rest) => Some([ZeroToken] + rest)
         case None => None)
      case Panics => None
      case Hangs => None
  }

  // ---------------------------------------------------------------------
  // The cursor
  // ---------------------------------------------------------------------

  /**
   * The lexer's cursor over the input runes: position is the index of the
   * current rune ch, readPosition the index of the next one.
   */
  class Lexer {
    const input: seq<char>
    var position: nat
    var readPosition: nat
    var ch: char

    /** The cursor invariant readChar maintains. */
    ghost predicate Valid()
      reads this
    {
      readPosition == position + 1 && ch == CharAt(input, position)
    }

    /** New: a cursor on the first rune of s. */
    constructor (s: string)
      ensures Valid()
      ensures input == s && position == 0
    {
      input := s;
      position, readPosition, ch := 0, 0, '\0';
      new;
      ReadChar();
    }

    /** Moves the cursor one rune forward, loading 0 past the end. */
    method ReadChar()
      modifies this
      ensures Valid()
      ensures position == old(readPosition) && readPosition == old(readPosition) + 1
      ensures ch == CharAt(input, old(readPosition))
    {
      if readPosition >= |input| {
        ch := '\0';
      } else {
        ch := input[readPosition];
      }
      position := readPosition;
      readPosition := readPosition + 1;
    }

    /** The rune after the current one, without moving the cursor. */
    function PeekChar(): (c: char)
      reads this
      requires Valid()
      ensures c == CharAt(input, position + 1)
    {
      if readPosition >= |input| then '\0' else input[readPosition]
    }

    method SkipWhiteSpace()
      requires Valid()
      modifies this
      ensures Valid()
      ensures position == SkipEnd(input, old(position))
    {
      while IsWhiteSpace(ch)
        invariant Valid()
        invariant old(position) <= position <= SkipEnd(input, old(position))
        invariant SkipEnd(input, position) == SkipEnd(input, old(position))
        decreases |input| - position
      {
        ReadChar();
      }
    }

    /** Runs of digits, the loops `for isDigit(l.ch) { l.readChar() }`. */
    method SkipDigits()
      requires Valid()
      modifies this
      ensures Valid()
      ensures position == DigitsEnd(input, old(position))
    {
      while IsDigit(ch)
        invariant Valid()
        invariant old(position) <= position <= DigitsEnd(input, old(position))
        invariant DigitsEnd(input, position) == DigitsEnd(input, old(position))
        decreases |input| - position
      {
        ReadChar();
      }
    }

    /** The number lexeme starting at the cursor; the slice panics past the end. */
    method ReadNumber() returns (num: seq<char>)
      requires Valid() && position <= |input|
      modifies this
      ensures Valid()
      ensures position == NumberEnd(input, old(position)) && position <= |input|
      ensures num == input[old(position)..position]
    {
      var start := position;
      if IsDigit1to9(ch) {
        ReadChar();
        SkipDigits();
        SkipFraction();
        SkipExponent();
      }
      num := input[start..position];
    }

    /** readNumber's `if l.ch == '.'` block. */
    method SkipFraction()
      requires Valid()
      modifies this
      ensures Valid()
      ensures position == FractionEnd(input, old(position))
    {
      if ch == '.' {
        ReadChar();
        SkipDigits();
      }
    }

    /** readNumber's `if l.ch == 'e'` block. */
    method SkipExponent()
      requires Valid()
      modifies this
      ensures Valid()
      ensures position == ExponentEnd(input, old(position))
    {
      if ch == 'e' {
        ReadChar();
        if ch == '+' || ch == '-' || IsDigit(ch) {
          ReadChar();
          SkipDigits();
        }
      }
    }

    /** The identifier starting at the cursor; the loop ends only at a non-letter. */
    method ReadIdentifier() returns (ident: seq<char>)
      requires Valid() && IdentEnds(input, position)
      modifies this
      ensures Valid()
      ensures position == IdentEnd(input, old(position))
      ensures ident == input[old(position)..position]
    {
      var start := position;
      while IsLetter(ch)
        invariant Valid()
        invariant start <= position <= IdentEnd(input, start)
        invariant IdentEnds(input, position) && IdentEnd(input, position) == IdentEnd(input, start)
        decreases |input| - position
      {
        ReadChar();
      }
      ident := input[start..position];
    }

    /**
     * With the cursor on the 'u' of an escape: reads the next four runes and
     * decodes them as a hexadecimal code unit. Go slices those four runes out
     * of the input, which requires them to exist.
     */
    method ReadUnicode() returns (unit: int, err: Option<LexError>)
      requires Valid() && position + 5 <= |input|
      modifies this
      ensures Valid() && position == old(position) + 4
      ensures match UnitAt(input, old(position))
        case UnitOk(v) => unit == v && err == None
        case UnitError(e) => unit == 0 && err == Some(e)
    {
      var pos := position + 1;
      ReadChar();
      ReadChar();
      ReadChar();
      ReadChar();
      var digits := input[pos..pos + 4];
      match ParseHex(digits) {
        case Some(v) =>
          unit, err := v, None;
        case None =>
          unit, err := 0, Some(InvalidHex(digits));
      }
    }

    /**
     * With the cursor on the opening quote: reads and decodes the string up
     * to the closing quote or the end of input.
     */
    method ReadString() returns (text: string, err: Option<LexError>)
      requires Valid() && position < |input|
      requires !ScanString(input, position, []).ScanPanic?
      modifies this
      ensures Valid()
      ensures match ScanString(input, old(position), [])
        case Scanned(t, end) => text == t && err == None && position == end
        case ScanError(e, at) => text == "" && err == Some(e) && position == at
        case ScanPanic => false
    {
      var ret: string := [];
      while true
        invariant Valid() && position <= |input|
        invariant ScanString(input, position, ret) == ScanString(input, old(position), [])
        decreases |input| - position
      {
        ReadChar();
        if ch == '"' || ch == '\0' {
          break;
        }
        if ch == '\\' {
          assert ScanString(input, position - 1, ret) == ScanEscape(input, position, ret);
          var e;
          ret, e := ReadEscape(ret);
          if e.Some? {
            return "", e;
          }
        } else {
          ret := ret + [ch];
        }
      }
      return ret, None;
    }

    /**
     * readString's escape branch, with the cursor on the backslash and acc the
     * text so far: on success the text with the escape decoded, with the
     * cursor on the escape's last rune.
     */
    method ReadEscape(acc: string) returns (ret: string, err: Option<LexError>)
      requires Valid() && position < |input| && ch == '\\'
      requires !ScanEscape(input, position, acc).ScanPanic?
      modifies this
      ensures Valid() && old(position) < position <= |input|
      ensures err.None? ==> ScanString(input, position, ret) == ScanEscape(input, old(position), acc)
      ensures err.Some? ==> ret == "" && ScanEscape(input, old(position), acc) == ScanError(err.value, position)
    {
      ghost var q := position;
      ReadChar();
      err := None;
      if ch == 'b' {
        ret := acc + ['\U{8}'];
      } else if ch == 'f' {
        ret := acc + ['\U{C}'];
      } else if ch == 'r' {
        ret := acc + ['\r'];
      } else if ch == 'n' {
        ret := acc + ['\n'];
      } else if ch == 't' {
        ret := acc + ['\t'];
      } else if ch == 'u' {
        assert ScanEscape(input, q, acc) == ScanUnicode(input, q + 1, acc);
        ret, err := ReadUnicodeEscape(acc);
      } else {
        ret := acc + [ch];
      }
    }

    /**
     * readString's `case 'u'`, with the cursor on the 'u': one code unit, or
     * a surrogate and the \u escape that must follow it.
     */
    method ReadUnicodeEscape(acc: string) returns (ret: string, err: Option<LexError>)
      requires Valid() && position + 5 <= |input|
      requires !ScanUnicode(input, position, acc).ScanPanic?
      modifies this
      ensures Valid() && old(position) < position <= |input|
      ensures err.None? ==> ScanString(input, position, ret) == ScanUnicode(input, old(position), acc)
      ensures err.Some? ==> ret == "" && ScanUnicode(input, old(position), acc) == ScanError(err.value, position)
    {
      var r1, err1 := ReadUnicode();
      if err1.Some? {
        return "", err1;
      }
      if IsSurrogate(r1) {
        ReadChar();
        if ch == '\\' && PeekChar() == 'u' {
          ReadChar();
          var r2, err2 := ReadUnicode();
          if err2.Some? {
            return "", err2;
          }
          r1 := DecodeRune(r1, r2);
        } else {
          return "", Some(SurrogatePairWrong);
        }
      }
      ret, err := acc + [RuneToChar(r1)], None;
    }

    /**
     * The next token and the lexical error, if any; on an error the token is
     * the zero token. Go's call returns only when it neither panics nor loops
     * forever, which is what the precondition asks.
     */
    method NextToken() returns (tok: Token, err: Option<LexError>)
      requires Valid() && Returns(NextSpec(input, position))
      modifies this
      ensures Valid()
      ensures NextSpec(input, old(position)) ==
        if err.Some? then Failed(err.value, position) else Emitted(tok, position)
      ensures err.Some? ==> tok == ZeroToken
    {
      SkipWhiteSpace();
      match ch {
        case ':' => tok := NewToken(Colon, ch);
        case ',' => tok := NewToken(Comma, ch);
        case '[' => tok := NewToken(LBracket, ch);
        case ']' => tok := NewToken(RBracket, ch);
        case '{' => tok := NewToken(LBrace, ch);
        case '}' => tok := NewToken(RBrace, ch);
        case '-' =>
          ReadChar();
          if IsDigit(ch) {
            var num := ReadNumber();
            var lit := Negated(num);
            return Token(Number, lit), None;
          }
          return ZeroToken, Some(MinusWithoutNumber);
        case '\0' =>
          tok := EofToken;
        case '"' =>
          var text, e := ReadString();
          if e.Some? {
            return ZeroToken, e;
          }
          tok := Token(String, text);
        case _ =>
          if IsLetter(ch) {
            var ident := ReadIdentifier();
            return Token(LookupIdent(ident), ident), None;
          } else if IsDigit(ch) {
            var num := ReadNumber();
            return Token(Number, num), None;
          } else {
            tok := NewToken(Illegal, ch);
          }
      }
      ReadChar();
      err := None;
    }

    /** NextToken's copy of a number lexeme behind a '-' into a fresh rune slice. */
    static method Negated(num: seq<char>) returns (lit: seq<char>)
      ensures lit == ['-'] + num
    {
      var buf := new char[|num| + 1];
      buf[0] := '-';
      for i := 1 to buf.Length
        modifies buf
        invariant buf[0] == '-'
        invariant forall k :: 1 <= k < i ==> buf[k] == num[k - 1]
      {
        buf[i] := num[i - 1];
      }
      assert buf[..] == ['-'] + num;
      lit := buf[..];
    }
  }
}
