/**
 * The lexer and the parser together, as main.go wires them: the parser
 * pulls its tokens from a lexer over the input text.
 */
module Pipeline {
  import opened Options
  import opened Tokens
  import opened Lexing
  import opened Parsing
  import opened ParserFacts

  /** The first two tokens of "[1,true]". */
  lemma ArrayTextOpening()
    ensures NextSpec("[1,true]", 0) == Emitted(Token(LBracket, "["), 1)
    ensures NextSpec("[1,true]", 1) == Emitted(Token(Number, "1"), 2)
  {
  }

  /** The keyword of "[1,true]", which ends on the closing bracket. */
  lemma ArrayTextKeyword()
    ensures NextSpec("[1,true]", 3) == Emitted(Token(True, "true"), 7)
  {
    var text := "[1,true]";
    assert !IsLetter(text[7]);
    assert IdentEnds(text, 7);
    assert text[3..7] == "true";
  }

  /** The tokens of "[1,true]", one call of NextToken at a time. */
  lemma ArrayTextTokens()
    ensures NextSpec("[1,true]", 0) == Emitted(Token(LBracket, "["), 1)
    ensures NextSpec("[1,true]", 1) == Emitted(Token(Number, "1"), 2)
    ensures NextSpec("[1,true]", 2) == Emitted(Token(Comma, ","), 3)
    ensures NextSpec("[1,true]", 3) == Emitted(Token(True, "true"), 7)
    ensures NextSpec("[1,true]", 7) == Emitted(Token(RBracket, "]"), 8)
  {
    ArrayTextOpening();
    ArrayTextKeyword();
  }

  /** The document [1,true] as tokens. */
  lemma ArrayDocTokens()
    ensures Emit(DArray([DNumber("1"), DTrue], false)) ==
            [LBracketToken, Token(Number, "1"), CommaToken, Token(True, "true"), RBracketToken]
  {
    var es := [DNumber("1"), DTrue];
    assert ElementsText(es[1..], false) == [Token(True, "true"), RBracketToken];
    assert ElementsText(es, false) == [Token(Number, "1"), CommaToken, Token(True, "true"), RBracketToken];
  }

  /** One more token in front of the ones pulled after it. */
  lemma PullStep(input: seq<char>, pos: nat, tok: Token, next: nat, n: nat, rest: seq<Token>)
    requires NextSpec(input, pos) == Emitted(tok, next)
    requires Pull(input, next, n) == Some(rest)
    ensures Pull(input, pos, n + 1) == Some([tok] + rest)
  {
  }

  /** A call that fails hands the zero token to the caller, in front of the ones pulled after it. */
  lemma PullFailedStep(input: seq<char>, pos: nat, e: LexError, next: nat, n: nat, rest: seq<Token>)
    requires NextSpec(input, pos) == Failed(e, next)
    requires Pull(input, next, n) == Some(rest)
    ensures Pull(input, pos, n + 1) == Some([ZeroToken] + rest)
  {
  }

  /** "[-]" lexes, with the lexer's error dropped, to '[', the zero token and ']'. */
  lemma MinusTextLexes()
    ensures Pull("[-]", 0, 3) == Some([LBracketToken, ZeroToken, RBracketToken])
  {
    var text := "[-]";
    assert NextSpec(text, 2) == Emitted(RBracketToken, 3);
    assert NextSpec(text, 1) == Failed(MinusWithoutNumber, 2);
    assert NextSpec(text, 0) == Emitted(LBracketToken, 1);
    assert Pull(text, 3, 0) == Some([]);
    PullStep(text, 2, RBracketToken, 3, 0, []);
    assert [RBracketToken] + [] == [RBracketToken];
    PullFailedStep(text, 1, MinusWithoutNumber, 2, 1, [RBracketToken]);
    assert [ZeroToken] + [RBracketToken] == [ZeroToken, RBracketToken];
    PullStep(text, 0, LBracketToken, 1, 2, [ZeroToken, RBracketToken]);
    assert [LBracketToken] + [ZeroToken, RBracketToken] == [LBracketToken, ZeroToken, RBracketToken];
  }

  /** The zero token where an element belongs is read as nil, without a message. */
  lemma ZeroTokenElement()
    ensures ParseValue([LBracketToken, ZeroToken, RBracketToken], 0, []) == Parsed(Arr([Nil]), 2, [])
  {
    var ts := [LBracketToken, ZeroToken, RBracketToken];
    assert At(ts, 0) == LBracketToken && At(ts, 1) == ZeroToken && At(ts, 2) == RBracketToken;
    var val := ParseValue(ts, 1, []);
    assert val == Parsed(Nil, 1, []);
    assert ArrayLoop(ts, 1, [Nil], []) == Parsed(Arr([Nil]), 2, []);
    assert ArraySeparator(ts, 0, [Nil], val) == ArrayLoop(ts, 1, [Nil], []);
    assert [] + [Nil] == [Nil];
    assert ArrayLoop(ts, 0, [], []) == ArraySeparator(ts, 0, [Nil], val);
    assert ParseValue(ts, 0, []) == ParseArrayAt(ts, 0, []);
  }

  /**
   * "[-]": the lexer reports the '-' without a number, the parser drops that
   * error and reads the zero token in its place as nil, so the malformed
   * text parses to an array holding nil, with no message at all.
   */
  lemma DroppedLexError()
    ensures Pull("[-]", 0, 3).Some?
    ensures ParseValue(Pull("[-]", 0, 3).value, 0, []) == Parsed(Arr([Nil]), 2, [])
  {
    MinusTextLexes();
    ZeroTokenElement();
  }

  /** "[1,true]" lexes to the five tokens of the document [1,true]. */
  lemma ArrayTextLexes()
    ensures Pull("[1,true]", 0, 5) == Some(Emit(DArray([DNumber("1"), DTrue], false)))
  {
    var text := "[1,true]";
    ArrayTextTokens();
    ArrayDocTokens();
    var t4 := [RBracketToken];
    var t3 := [Token(True, "true")] + t4;
    var t2 := [CommaToken] + t3;
    var t1 := [Token(Number, "1")] + t2;
    var t0 := [LBracketToken] + t1;
    assert Pull(text, 8, 0) == Some([]);
    assert [RBracketToken] + [] == t4;
    PullStep(text, 7, RBracketToken, 8, 0, []);
    PullStep(text, 3, Token(True, "true"), 7, 1, t4);
    PullStep(text, 2, CommaToken, 3, 2, t3);
    PullStep(text, 1, Token(Number, "1"), 2, 3, t2);
    PullStep(text, 0, LBracketToken, 1, 4, t1);
    assert t0 == [LBracketToken, Token(Number, "1"), CommaToken, Token(True, "true"), RBracketToken];
  }

  /** The document [1,true] means the array [1, true]. */
  lemma ArrayMeaning()
    ensures Meaning(DArray([DNumber("1"), DTrue], false)) == Arr([Num("1"), Bool(true)])
  {
    var es := [DNumber("1"), DTrue];
    assert es[1..] == [DTrue] && es[1..][1..] == [];
    assert Meanings(es[1..]) == [Bool(true)];
  }

  /** "[1,true]" lexes and parses to the array [1, true] without errors. */
  lemma ArrayText()
    ensures Pull("[1,true]", 0, 5).Some?
    ensures ParseValue(Pull("[1,true]", 0, 5).value, 0, []) == Parsed(Arr([Num("1"), Bool(true)]), 4, [])
  {
    ArrayTextLexes();
    ArrayDocTokens();
    ParseDocument(DArray([DNumber("1"), DTrue], false));
    ArrayMeaning();
  }
}
