/**
 * What the parser of parser/parser.go does with the token streams that the
 * lexer hands it.
 *
 * A Doc is a well-formed document in the parser's token grammar: containers
 * whose members are separated by commas, optionally followed by one trailing
 * comma (which parseHash and parseArray accept). Emit writes a Doc as tokens
 * and Meaning says what value it stands for, a later key of an object
 * overriding an earlier one. The round trip says that the parser reads back
 * exactly that value, consumes exactly those tokens and records no error.
 * The remaining lemmas pin down the error paths and the odd inputs the
 * parser lets through.
 */
module ParserFacts {
  import opened Tokens
  import opened Parsing

  /** A well-formed document. */
  datatype Doc =
    | DObject(members: seq<Member>, trailing: bool)
    | DArray(elements: seq<Doc>, trailing: bool)
    | DNumber(lit: string)
    | DString(s: string)
    | DTrue
    | DFalse
    | DNull

  /** One key/value member of an object. */
  datatype Member = Member(key: string, value: Doc)

  const CommaToken: Token := Token(Comma, ",")
  const ColonToken: Token := Token(Colon, ":")
  const LBraceToken: Token := Token(LBrace, "{")
  const RBraceToken: Token := Token(RBrace, "}")
  const LBracketToken: Token := Token(LBracket, "[")
  const RBracketToken: Token := Token(RBracket, "]")

  /** The end of a list: an optional trailing comma, then the closing token. */
  function Close(t: bool, closing: Token): seq<Token> {
    if t then [CommaToken, closing] else [closing]
  }

  /** The tokens the lexer hands out for a document. */
  function Emit(d: Doc): seq<Token>
    decreases d, 2
  {
    match d
    case DObject(ms, t) => [LBraceToken] + MembersText(ms, t)
    case DArray(es, t) => [LBracketToken] + ElementsText(es, t)
    case DNumber(l) => [Token(Number, l)]
    case DString(s) => [Token(String, s)]
    case DTrue => [Token(True, "true")]
    case DFalse => [Token(False, "false")]
    case DNull => [Token(Null, "null")]
  }

  /**
   * The tokens of an object after its '{', up to and including its '}':
   * the members separated by commas and, when t holds and there is a
   * member, a trailing comma.
   */
  function MembersText(ms: seq<Member>, t: bool): seq<Token>
    decreases ms, 1
  {
    if |ms| == 0 then [RBraceToken]
    else [Token(String, ms[0].key)] + ([ColonToken] + (Emit(ms[0].value) + MembersRest(ms, t)))
  }

  /** What follows the first member's value. */
  function MembersRest(ms: seq<Member>, t: bool): seq<Token>
    requires |ms| > 0
    decreases ms, 0
  {
    if |ms| == 1 then Close(t, RBraceToken) else [CommaToken] + MembersText(ms[1..], t)
  }

  /** The tokens of an array after its '[', up to and including its ']'. */
  function ElementsText(es: seq<Doc>, t: bool): seq<Token>
    decreases es, 1
  {
    if |es| == 0 then [RBracketToken] else Emit(es[0]) + ElementsRest(es, t)
  }

  /** What follows the first element. */
  function ElementsRest(es: seq<Doc>, t: bool): seq<Token>
    requires |es| > 0
    decreases es, 0
  {
    if |es| == 1 then Close(t, RBracketToken) else [CommaToken] + ElementsText(es[1..], t)
  }

  /** The value a document stands for. */
  function Meaning(d: Doc): Value
    decreases d, 1
  {
    match d
    case DObject(ms, _) => Obj(Store(map[], ms))
    case DArray(es, _) => Arr(Meanings(es))
    case DNumber(l) => Num(l)
    case DString(s) => Str(s)
    case DTrue => Bool(true)
    case DFalse => Bool(false)
    case DNull => Nil
  }

  /** The map that storing the members one after another into data gives. */
  function Store(data: map<string, Value>, ms: seq<Member>): map<string, Value>
    decreases ms, 0
  {
    if |ms| == 0 then data
    else Store(data[ms[0].key := Meaning(ms[0].value)], ms[1..])
  }

  /** The values of a sequence of documents. */
  function Meanings(es: seq<Doc>): seq<Value>
    decreases es, 0
  {
    if |es| == 0 then [] else [Meaning(es[0])] + Meanings(es[1..])
  }

  /** The tokens w occur in the stream ts from index i on. */
  predicate Embeds(ts: seq<Token>, i: nat, w: seq<Token>)
    decreases |w|
  {
    i + |w| <= |ts| && (|w| == 0 || (ts[i] == w[0] && Embeds(ts, i + 1, w[1..])))
  }

  /** The k-th token of an embedded sequence. */
  lemma {:induction false} EmbedsAt(ts: seq<Token>, i: nat, w: seq<Token>, k: nat)
    requires Embeds(ts, i, w) && k < |w|
    ensures i + k < |ts| && ts[i + k] == w[k]
    decreases k
  {
    if k > 0 {
      EmbedsAt(ts, i + 1, w[1..], k - 1);
    }
  }

  /** Every suffix of a stream is embedded in it where it starts. */
  lemma {:induction false} EmbedsSuffix(ts: seq<Token>, i: nat)
    requires i <= |ts|
    ensures Embeds(ts, i, ts[i..])
    decreases |ts| - i
  {
    if i < |ts| {
      assert ts[i..][1..] == ts[i + 1..];
      EmbedsSuffix(ts, i + 1);
    }
  }

  /** A stream holding one token and then w holds that token at i and w after it. */
  lemma EmbedsTail(ts: seq<Token>, i: nat, tok: Token, w: seq<Token>)
    requires Embeds(ts, i, [tok] + w)
    ensures i < |ts| && ts[i] == tok && Embeds(ts, i + 1, w)
  {
    assert ([tok] + w)[1..] == w;
  }

  /** A stream holding a + b holds a at i and b at j, where a ends. */
  lemma {:induction false} EmbedsSplit(ts: seq<Token>, i: nat, a: seq<Token>, b: seq<Token>, j: nat)
    requires Embeds(ts, i, a + b) && j == i + |a|
    ensures Embeds(ts, i, a) && Embeds(ts, j, b)
    decreases |a|
  {
    if |a| == 0 {
      assert a + b == b;
    } else {
      assert (a + b)[0] == a[0];
      assert (a + b)[1..] == a[1..] + b;
      EmbedsSplit(ts, i + 1, a[1..], b, j);
    }
  }

  // ---------------------------------------------------------------------
  // Objects: the meaning of a member list
  // ---------------------------------------------------------------------

  /** Storing a list is storing its first member and then the rest. */
  lemma StoreCons(data: map<string, Value>, ms: seq<Member>)
    requires |ms| > 0
    ensures Store(data, ms) == Store(data[ms[0].key := Meaning(ms[0].value)], ms[1..])
  {
  }

  /** Storing one more member updates the map with it. */
  lemma {:induction false} StoreLast(data: map<string, Value>, ms: seq<Member>, m: Member)
    ensures Store(data, ms + [m]) == Store(data, ms)[m.key := Meaning(m.value)]
    decreases |ms|
  {
    if |ms| == 0 {
      assert ms + [m] == [m];
      assert [m][1..] == [];
    } else {
      assert (ms + [m])[0] == ms[0];
      assert (ms + [m])[1..] == ms[1..] + [m];
      StoreLast(data[ms[0].key := Meaning(ms[0].value)], ms[1..], m);
    }
  }

  /**
   * Duplicate keys: the last member with a given key decides its value, and
   * the keys of the object are the stored keys plus those of the members.
   */
  lemma {:induction false} StoreKeys(data: map<string, Value>, ms: seq<Member>, key: string)
    ensures key in Store(data, ms) <==> key in data || exists j :: 0 <= j < |ms| && ms[j].key == key
    decreases |ms|
  {
    if |ms| > 0 {
      StoreKeys(data[ms[0].key := Meaning(ms[0].value)], ms[1..], key);
      if exists j :: 0 <= j < |ms[1..]| && ms[1..][j].key == key {
        var j :| 0 <= j < |ms[1..]| && ms[1..][j].key == key;
        assert ms[j + 1].key == key;
      }
      if exists j :: 0 <= j < |ms| && ms[j].key == key {
        var j :| 0 <= j < |ms| && ms[j].key == key;
        if j > 0 {
          assert ms[1..][j - 1].key == key;
        }
      }
    }
  }

  /** A member stored after every other member with its key wins. */
  lemma LastWins(data: map<string, Value>, ms: seq<Member>, j: nat)
    requires j < |ms|
    requires forall k :: j < k < |ms| ==> ms[k].key != ms[j].key
    ensures ms[j].key in Store(data, ms)
    ensures Store(data, ms)[ms[j].key] == Meaning(ms[j].value)
    decreases |ms|
  {
    if j == |ms| - 1 {
      assert ms == ms[..j] + [ms[j]];
      StoreLast(data, ms[..j], ms[j]);
    } else {
      var n := |ms| - 1;
      assert ms == ms[..n] + [ms[n]];
      StoreLast(data, ms[..n], ms[n]);
      LastWins(data, ms[..n], j);
    }
  }

  // ---------------------------------------------------------------------
  // The round trip
  // ---------------------------------------------------------------------

  /**
   * A well-formed document embedded in a stream from index i parses to its
   * meaning, leaves the parser on its last token and adds no error.
   */
  lemma {:induction false} RoundTrip(ts: seq<Token>, i: nat, d: Doc, errs: seq<string>)
    requires Embeds(ts, i, Emit(d))
    ensures ParseValue(ts, i, errs) == Parsed(Meaning(d), i + |Emit(d)| - 1, errs)
    decreases d, 1
  {
    EmbedsAt(ts, i, Emit(d), 0);
    match d
    case DObject(ms, t) =>
      EmbedsTail(ts, i, LBraceToken, MembersText(ms, t));
      MembersRoundTrip(ts, i, ms, t, map[], errs);
      assert ParseValue(ts, i, errs) == HashLoop(ts, i, map[], errs);
    case DArray(es, t) =>
      EmbedsTail(ts, i, LBracketToken, ElementsText(es, t));
      ElementsRoundTrip(ts, i, es, t, [], errs);
      assert ParseValue(ts, i, errs) == ArrayLoop(ts, i, [], errs);
      assert [] + Meanings(es) == Meanings(es);
    case _ =>
  }

  /** A round of parseHash's loop that meets a string key and a colon. */
  lemma MemberStep(ts: seq<Token>, i: nat, key: string, data: map<string, Value>, errs: seq<string>)
    requires i < |ts| && At(ts, i + 1) == Token(String, key) && At(ts, i + 2).kind == Colon
    ensures var val := ParseValue(ts, i + 3, errs);
            HashLoop(ts, i, data, errs) == HashSeparator(ts, i, data[key := val.value], val)
  {
    assert ParseValue(ts, i + 1, errs) == Parsed(Str(key), i + 1, errs);
  }

  /** The end of a round of parseHash's loop: '}' closes, ',' goes round again. */
  lemma MemberSeparatorStep(ts: seq<Token>, i: nat, data: map<string, Value>, val: Parsed)
    requires i < |ts| && i < val.cur
    ensures At(ts, val.cur + 1).kind == RBrace ==>
              HashSeparator(ts, i, data, val) == Parsed(Obj(data), val.cur + 1, val.errs)
    ensures At(ts, val.cur + 1).kind == Comma ==>
              HashSeparator(ts, i, data, val) == HashLoop(ts, val.cur + 1, data, val.errs)
  {
  }

  /** The end of a round of parseArray's loop: ']' closes, ',' goes round again. */
  lemma ElementSeparatorStep(ts: seq<Token>, i: nat, data: seq<Value>, val: Parsed)
    requires i < |ts| && i < val.cur
    ensures At(ts, val.cur + 1).kind == RBracket ==>
              ArraySeparator(ts, i, data, val) == Parsed(Arr(data), val.cur + 1, val.errs)
    ensures At(ts, val.cur + 1).kind == Comma ==>
              ArraySeparator(ts, i, data, val) == ArrayLoop(ts, val.cur + 1, data, val.errs)
  {
  }

  /**
   * parseHash's loop, entered on the token before a member list, reads the
   * members and the closing '}'.
   */
  lemma {:induction false} MembersRoundTrip(ts: seq<Token>, i: nat, ms: seq<Member>, t: bool,
                                            data: map<string, Value>, errs: seq<string>)
    requires Embeds(ts, i + 1, MembersText(ms, t))
    ensures HashLoop(ts, i, data, errs) == Parsed(Obj(Store(data, ms)), i + |MembersText(ms, t)|, errs)
    decreases ms, 2
  {
    if |ms| == 0 {
      EmptyObject(ts, i, ms, t, data, errs);
    } else {
      MemberText(ts, i, ms, t);
      MembersCons(ts, i, ms, t, data, errs);
    }
  }

  /** A round of parseHash's loop over the first member, and the rounds after it. */
  lemma {:induction false} MembersCons(ts: seq<Token>, i: nat, ms: seq<Member>, t: bool,
                                       data: map<string, Value>, errs: seq<string>)
    requires |ms| > 0
    requires At(ts, i + 1) == Token(String, ms[0].key) && At(ts, i + 2) == ColonToken
    requires Embeds(ts, i + 3, Emit(ms[0].value))
    requires Embeds(ts, i + 3 + |Emit(ms[0].value)|, MembersRest(ms, t))
    ensures HashLoop(ts, i, data, errs) ==
            Parsed(Obj(Store(data, ms)), i + 2 + |Emit(ms[0].value)| + |MembersRest(ms, t)|, errs)
    decreases ms, 1
  {
    MemberValue(ts, i, ms[0].key, ms[0].value, data, errs);
    MembersEnd(ts, i, ms, t, data, errs);
  }

  /** A round of parseHash's loop over a member key, its colon and a well-formed value. */
  lemma MemberValue(ts: seq<Token>, i: nat, key: string, v: Doc, data: map<string, Value>, errs: seq<string>)
    requires At(ts, i + 1) == Token(String, key) && At(ts, i + 2) == ColonToken
    requires Embeds(ts, i + 3, Emit(v))
    ensures HashLoop(ts, i, data, errs) ==
            HashSeparator(ts, i, data[key := Meaning(v)], Parsed(Meaning(v), i + 2 + |Emit(v)|, errs))
    decreases v, 2
  {
    MemberStep(ts, i, key, data, errs);
    RoundTrip(ts, i + 3, v, errs);
  }

  /** An object with no members: '{' is followed by '}'. */
  lemma EmptyObject(ts: seq<Token>, i: nat, ms: seq<Member>, t: bool, data: map<string, Value>, errs: seq<string>)
    requires |ms| == 0 && Embeds(ts, i + 1, MembersText(ms, t))
    ensures HashLoop(ts, i, data, errs) == Parsed(Obj(Store(data, ms)), i + |MembersText(ms, t)|, errs)
  {
    assert MembersText(ms, t) == [RBraceToken];
    EmbedsAt(ts, i + 1, [RBraceToken], 0);
  }

  /** Where the parts of a member list lie in the stream. */
  lemma MemberText(ts: seq<Token>, i: nat, ms: seq<Member>, t: bool)
    requires |ms| > 0 && Embeds(ts, i + 1, MembersText(ms, t))
    ensures At(ts, i + 1) == Token(String, ms[0].key) && At(ts, i + 2) == ColonToken
    ensures Embeds(ts, i + 3, Emit(ms[0].value))
    ensures Embeds(ts, i + 3 + |Emit(ms[0].value)|, MembersRest(ms, t))
    ensures |MembersText(ms, t)| == 2 + |Emit(ms[0].value)| + |MembersRest(ms, t)|
  {
    var v := Emit(ms[0].value);
    EmbedsTail(ts, i + 1, Token(String, ms[0].key), [ColonToken] + (v + MembersRest(ms, t)));
    EmbedsTail(ts, i + 2, ColonToken, v + MembersRest(ms, t));
    EmbedsSplit(ts, i + 3, v, MembersRest(ms, t), i + 3 + |v|);
  }

  /**
   * The end of a round of parseHash's loop, on the last token of a member
   * value: a '}' ends the object, a ',' leads to the next member or to the
   * '}' after a trailing comma.
   */
  lemma {:induction false} MembersEnd(ts: seq<Token>, i: nat, ms: seq<Member>, t: bool,
                                      data: map<string, Value>, errs: seq<string>)
    requires |ms| > 0
    requires Embeds(ts, i + 3 + |Emit(ms[0].value)|, MembersRest(ms, t))
    ensures HashSeparator(ts, i, data[ms[0].key := Meaning(ms[0].value)],
                          Parsed(Meaning(ms[0].value), i + 2 + |Emit(ms[0].value)|, errs)) ==
            Parsed(Obj(Store(data, ms)), i + 2 + |Emit(ms[0].value)| + |MembersRest(ms, t)|, errs)
    decreases ms, 0
  {
    var c := i + 2 + |Emit(ms[0].value)|;
    var data' := data[ms[0].key := Meaning(ms[0].value)];
    var val := Parsed(Meaning(ms[0].value), c, errs);
    StoreCons(data, ms);
    if |ms| > 1 {
      var more := MembersText(ms[1..], t);
      assert MembersRest(ms, t) == [CommaToken] + more;
      EmbedsTail(ts, c + 1, CommaToken, more);
      MemberSeparatorStep(ts, i, data', val);
      MembersRoundTrip(ts, c + 1, ms[1..], t, data', errs);
    } else {
      assert MembersRest(ms, t) == Close(t, RBraceToken);
      assert ms[1..] == [];
      MembersClose(ts, i, t, data', val.value, c, errs);
    }
  }

  /** The '}' that ends an object, after an optional trailing comma. */
  lemma MembersClose(ts: seq<Token>, i: nat, t: bool, data: map<string, Value>, x: Value, c: nat, errs: seq<string>)
    requires i < c && Embeds(ts, c + 1, Close(t, RBraceToken))
    ensures HashSeparator(ts, i, data, Parsed(x, c, errs)) == Parsed(Obj(data), c + |Close(t, RBraceToken)|, errs)
  {
    EmbedsAt(ts, c + 1, Close(t, RBraceToken), 0);
    if t {
      EmbedsAt(ts, c + 1, Close(t, RBraceToken), 1);
      assert HashLoop(ts, c + 1, data, errs) == Parsed(Obj(data), c + 2, errs);
    }
  }

  /**
   * parseArray's loop, entered on the token before an element list, reads
   * the elements and the closing ']'.
   */
  lemma {:induction false} ElementsRoundTrip(ts: seq<Token>, i: nat, es: seq<Doc>, t: bool,
                                             data: seq<Value>, errs: seq<string>)
    requires Embeds(ts, i + 1, ElementsText(es, t))
    ensures ArrayLoop(ts, i, data, errs) == Parsed(Arr(data + Meanings(es)), i + |ElementsText(es, t)|, errs)
    decreases es, 1
  {
    if |es| == 0 {
      EmbedsAt(ts, i + 1, ElementsText(es, t), 0);
      assert data + Meanings(es) == data;
    } else {
      var e := es[0];
      var n := |Emit(e)|;
      ElementText(ts, i, es, t);
      RoundTrip(ts, i + 1, e, errs);
      var val := Parsed(Meaning(e), i + n, errs);
      assert ParseValue(ts, i + 1, errs) == val;
      var data' := data + [Meaning(e)];
      ElementStep(ts, i, data, errs);
      assert ArrayLoop(ts, i, data, errs) == ArraySeparator(ts, i, data', val);
      ElementsEnd(ts, i, es, t, data', Meaning(e), i + n, errs);
      MeaningsCons(data, es);
    }
  }

  /** Appending the values of a list is appending the first and then the rest. */
  lemma MeaningsCons(data: seq<Value>, es: seq<Doc>)
    requires |es| > 0
    ensures data + Meanings(es) == (data + [Meaning(es[0])]) + Meanings(es[1..])
  {
    assert Meanings(es) == [Meaning(es[0])] + Meanings(es[1..]);
  }

  /** Where the parts of an element list lie in the stream. */
  lemma ElementText(ts: seq<Token>, i: nat, es: seq<Doc>, t: bool)
    requires |es| > 0 && Embeds(ts, i + 1, ElementsText(es, t))
    ensures Embeds(ts, i + 1, Emit(es[0])) && At(ts, i + 1).kind != RBracket
    ensures Embeds(ts, i + 1 + |Emit(es[0])|, ElementsRest(es, t))
    ensures |ElementsText(es, t)| == |Emit(es[0])| + |ElementsRest(es, t)|
  {
    EmbedsSplit(ts, i + 1, Emit(es[0]), ElementsRest(es, t), i + 1 + |Emit(es[0])|);
    EmbedsAt(ts, i + 1, Emit(es[0]), 0);
  }

  /** A round of parseArray's loop that does not meet a ']'. */
  lemma ElementStep(ts: seq<Token>, i: nat, data: seq<Value>, errs: seq<string>)
    requires i < |ts| && At(ts, i + 1).kind != RBracket
    ensures var val := ParseValue(ts, i + 1, errs);
            ArrayLoop(ts, i, data, errs) == ArraySeparator(ts, i, data + [val.value], val)
  {
  }

  /**
   * The end of a round of parseArray's loop, on the last token of an
   * element: a ']' ends the array, a ',' leads to the next element or to
   * the ']' after a trailing comma.
   */
  lemma {:induction false} ElementsEnd(ts: seq<Token>, i: nat, es: seq<Doc>, t: bool,
                                       data: seq<Value>, x: Value, c: nat, errs: seq<string>)
    requires |es| > 0 && i < c
    requires Embeds(ts, c + 1, ElementsRest(es, t))
    ensures ArraySeparator(ts, i, data, Parsed(x, c, errs)) ==
            Parsed(Arr(data + Meanings(es[1..])), c + |ElementsRest(es, t)|, errs)
    decreases es, 0
  {
    if |es| > 1 {
      var more := ElementsText(es[1..], t);
      assert ElementsRest(es, t) == [CommaToken] + more;
      EmbedsTail(ts, c + 1, CommaToken, more);
      ElementSeparatorStep(ts, i, data, Parsed(x, c, errs));
      ElementsRoundTrip(ts, c + 1, es[1..], t, data, errs);
    } else {
      assert ElementsRest(es, t) == Close(t, RBracketToken);
      assert data + Meanings(es[1..]) == data;
      ElementsClose(ts, i, t, data, x, c, errs);
    }
  }

  /** The ']' that ends an array, after an optional trailing comma. */
  lemma ElementsClose(ts: seq<Token>, i: nat, t: bool, data: seq<Value>, x: Value, c: nat, errs: seq<string>)
    requires i < c && Embeds(ts, c + 1, Close(t, RBracketToken))
    ensures ArraySeparator(ts, i, data, Parsed(x, c, errs)) == Parsed(Arr(data), c + |Close(t, RBracketToken)|, errs)
  {
    EmbedsAt(ts, c + 1, Close(t, RBracketToken), 0);
    if t {
      EmbedsAt(ts, c + 1, Close(t, RBracketToken), 1);
      assert ArrayLoop(ts, c + 1, data, errs) == Parsed(Arr(data), c + 2, errs);
    }
  }

  /** A whole stream that is one document parses to its meaning without errors. */
  lemma ParseDocument(d: Doc)
    ensures ParseValue(Emit(d), 0, []) == Parsed(Meaning(d), |Emit(d)| - 1, [])
  {
    EmbedsSuffix(Emit(d), 0);
    assert Emit(d)[0..] == Emit(d);
    RoundTrip(Emit(d), 0, d, []);
  }

  // ---------------------------------------------------------------------
  // The parser never reads its own error list
  // ---------------------------------------------------------------------

  /** An outcome with the messages errs recorded before it. */
  function Shift(r: Parsed, errs: seq<string>): Parsed {
    Parsed(r.value, r.cur, errs + r.errs)
  }

  lemma ShiftShift(r: Parsed, a: seq<string>, b: seq<string>)
    ensures Shift(Shift(r, b), a) == Shift(r, a + b)
  {
    assert a + (b + r.errs) == (a + b) + r.errs;
  }

  /**
   * What parse returns, where it stops and which messages it adds do not
   * depend on the messages recorded before it.
   */
  lemma {:induction false} ErrorsIgnored(ts: seq<Token>, i: nat, errs: seq<string>)
    ensures ParseValue(ts, i, errs) == Shift(ParseValue(ts, i, []), errs)
    decreases |ts| - i, 4
  {
    match At(ts, i).kind
    case LBrace => HashLoopIgnores(ts, i, map[], errs);
    case LBracket => ArrayLoopIgnores(ts, i, [], errs);
    case _ =>
  }

  lemma {:induction false} HashLoopIgnores(ts: seq<Token>, i: nat, data: map<string, Value>, errs: seq<string>)
    requires i < |ts|
    ensures HashLoop(ts, i, data, errs) == Shift(HashLoop(ts, i, data, []), errs)
    decreases |ts| - i, 2
  {
    if At(ts, i + 1).kind != RBrace {
      ErrorsIgnored(ts, i + 1, errs);
      HashMemberIgnores(ts, i, data, ParseValue(ts, i + 1, []), errs);
    }
  }

  lemma {:induction false} HashMemberIgnores(ts: seq<Token>, i: nat, data: map<string, Value>, key: Parsed, errs: seq<string>)
    requires i < |ts| && i < key.cur
    ensures HashMember(ts, i, data, Shift(key, errs)) == Shift(HashMember(ts, i, data, key), errs)
    decreases |ts| - i, 1
  {
    if !key.value.Str? {
      assert errs + (key.errs + [KeyNotString]) == (errs + key.errs) + [KeyNotString];
    } else if At(ts, key.cur + 1).kind != Colon {
      assert errs + (key.errs + [SeparatorNotColon]) == (errs + key.errs) + [SeparatorNotColon];
    } else {
      var j := key.cur + 2;
      ErrorsIgnored(ts, j, errs + key.errs);
      ErrorsIgnored(ts, j, key.errs);
      ShiftShift(ParseValue(ts, j, []), errs, key.errs);
      var data' := data[key.value.s := ParseValue(ts, j, key.errs).value];
      HashSeparatorIgnores(ts, i, data', ParseValue(ts, j, key.errs), errs);
    }
  }

  lemma {:induction false} HashSeparatorIgnores(ts: seq<Token>, i: nat, data: map<string, Value>, val: Parsed, errs: seq<string>)
    requires i < |ts| && i < val.cur
    ensures HashSeparator(ts, i, data, Shift(val, errs)) == Shift(HashSeparator(ts, i, data, val), errs)
    decreases |ts| - i, 0
  {
    var k := At(ts, val.cur + 1).kind;
    if k == RBrace || k == Comma {
      var j := if k == RBrace then val.cur else val.cur + 1;
      HashLoopIgnores(ts, j, data, errs + val.errs);
      HashLoopIgnores(ts, j, data, val.errs);
      ShiftShift(HashLoop(ts, j, data, []), errs, val.errs);
    }
  }

  lemma {:induction false} ArrayLoopIgnores(ts: seq<Token>, i: nat, data: seq<Value>, errs: seq<string>)
    requires i < |ts|
    ensures ArrayLoop(ts, i, data, errs) == Shift(ArrayLoop(ts, i, data, []), errs)
    decreases |ts| - i, 2
  {
    if At(ts, i + 1).kind != RBracket {
      ErrorsIgnored(ts, i + 1, errs);
      var val := ParseValue(ts, i + 1, []);
      ArraySeparatorIgnores(ts, i, data + [val.value], val, errs);
    }
  }

  lemma {:induction false} ArraySeparatorIgnores(ts: seq<Token>, i: nat, data: seq<Value>, val: Parsed, errs: seq<string>)
    requires i < |ts| && i < val.cur
    ensures ArraySeparator(ts, i, data, Shift(val, errs)) == Shift(ArraySeparator(ts, i, data, val), errs)
    decreases |ts| - i, 1
  {
    var k := At(ts, val.cur + 1).kind;
    if k == RBracket || k == Comma {
      var j := if k == RBracket then val.cur else val.cur + 1;
      ArrayLoopIgnores(ts, j, data, errs + val.errs);
      ArrayLoopIgnores(ts, j, data, val.errs);
      ShiftShift(ArrayLoop(ts, j, data, []), errs, val.errs);
    }
  }

  /**
   * A parse only ever appends to the error list: the messages recorded
   * before it are kept, in front of the ones it adds.
   */
  lemma ErrorsGrow(ts: seq<Token>, i: nat, errs: seq<string>)
    ensures var r := ParseValue(ts, i, errs);
      |errs| <= |r.errs| && r.errs[..|errs|] == errs
  {
    ErrorsIgnored(ts, i, errs);
    var added := ParseValue(ts, i, []).errs;
    assert (errs + added)[..|errs|] == errs;
  }

  // ---------------------------------------------------------------------
  // Where a container that is read whole leaves the parser
  // ---------------------------------------------------------------------

  /** parseArray's loop, when it yields an array, leaves the parser on a ']'. */
  lemma {:induction false} ArrayEndsOnBracket(ts: seq<Token>, i: nat, data: seq<Value>, errs: seq<string>)
    requires i < |ts|
    ensures var r := ArrayLoop(ts, i, data, errs);
      r.value.Arr? ==> r.cur < |ts| && ts[r.cur].kind == RBracket
    decreases |ts| - i
  {
    if At(ts, i + 1).kind != RBracket {
      var val := ParseValue(ts, i + 1, errs);
      var k := At(ts, val.cur + 1).kind;
      if k == RBracket {
        ArrayEndsOnBracket(ts, val.cur, data + [val.value], val.errs);
      } else if k == Comma {
        ArrayEndsOnBracket(ts, val.cur + 1, data + [val.value], val.errs);
      }
    }
  }

  /** parseHash's loop, when it yields an object, leaves the parser on a '}'. */
  lemma {:induction false} HashEndsOnBrace(ts: seq<Token>, i: nat, data: map<string, Value>, errs: seq<string>)
    requires i < |ts|
    ensures var r := HashLoop(ts, i, data, errs);
      r.value.Obj? ==> r.cur < |ts| && ts[r.cur].kind == RBrace
    decreases |ts| - i, 1
  {
    if At(ts, i + 1).kind != RBrace {
      var key := ParseValue(ts, i + 1, errs);
      assert HashLoop(ts, i, data, errs) == HashMember(ts, i, data, key);
      if key.value.Str? && At(ts, key.cur + 1).kind == Colon {
        var val := ParseValue(ts, key.cur + 2, key.errs);
        SeparatorEndsOnBrace(ts, i, data[key.value.s := val.value], val);
      }
    }
  }

  /** The end of a round of parseHash's loop, when the object is read whole, is a '}'. */
  lemma {:induction false} SeparatorEndsOnBrace(ts: seq<Token>, i: nat, data: map<string, Value>, val: Parsed)
    requires i < |ts| && i < val.cur
    ensures var r := HashSeparator(ts, i, data, val);
      r.value.Obj? ==> r.cur < |ts| && ts[r.cur].kind == RBrace
    decreases |ts| - i, 0
  {
    var k := At(ts, val.cur + 1).kind;
    if k == RBrace {
      HashEndsOnBrace(ts, val.cur, data, val.errs);
    } else if k == Comma {
      HashEndsOnBrace(ts, val.cur + 1, data, val.errs);
    }
  }

  // ---------------------------------------------------------------------
  // Error paths and odd inputs
  // ---------------------------------------------------------------------

  /** A token kind that parse turns into a value without moving. */
  predicate Scalar(k: TokenType) {
    k != LBrace && k != LBracket
  }

  /**
   * In any round of parseHash's loop, a key that is not a string abandons
   * the object: whatever the key parsed to (a scalar or a whole container),
   * the result is the nil map, the parser stays where the key ended, and
   * KeyNotString is added to the messages the key left.
   */
  lemma KeyNotStringAbandons(ts: seq<Token>, i: nat, data: map<string, Value>, errs: seq<string>)
    requires i < |ts| && At(ts, i + 1).kind != RBrace && At(ts, i + 1).kind != String
    ensures var key := ParseValue(ts, i + 1, errs);
      HashLoop(ts, i, data, errs) == Parsed(NilObj, key.cur, key.errs + [KeyNotString])
  {
  }

  /**
   * In any round of parseHash's loop, a string key not followed by a colon
   * abandons the object with SeparatorNotColon; the parser stays on the key.
   */
  lemma MissingColonAbandons(ts: seq<Token>, i: nat, data: map<string, Value>, errs: seq<string>)
    requires i < |ts| && At(ts, i + 1).kind == String && At(ts, i + 2).kind != Colon
    ensures HashLoop(ts, i, data, errs) == Parsed(NilObj, i + 1, errs + [SeparatorNotColon])
  {
    assert ParseValue(ts, i + 1, errs) == Parsed(Str(At(ts, i + 1).literal), i + 1, errs);
  }

  /**
   * In any round of parseHash's loop, when the token after a member's value
   * (any value, a container included) is neither ',' nor '}', the object is
   * abandoned with the nil map, the parser left on the value's last token,
   * and no message: expectPeek reports nothing.
   */
  lemma BadMemberSeparatorSilent(ts: seq<Token>, i: nat, data: map<string, Value>, errs: seq<string>)
    requires i < |ts| && At(ts, i + 1).kind == String && At(ts, i + 2).kind == Colon
    requires var val := ParseValue(ts, i + 3, errs);
      At(ts, val.cur + 1).kind != Comma && At(ts, val.cur + 1).kind != RBrace
    ensures var val := ParseValue(ts, i + 3, errs);
      HashLoop(ts, i, data, errs) == Parsed(NilObj, val.cur, val.errs)
  {
    MemberStep(ts, i, At(ts, i + 1).literal, data, errs);
  }

  /**
   * In any round of parseArray's loop, when the token after an element (any
   * element, a container included) is neither ',' nor ']', the array is
   * abandoned with the nil slice, the parser left on the element's last
   * token, and no message.
   */
  lemma BadElementSeparatorSilent(ts: seq<Token>, i: nat, data: seq<Value>, errs: seq<string>)
    requires i < |ts| && At(ts, i + 1).kind != RBracket
    requires var val := ParseValue(ts, i + 1, errs);
      At(ts, val.cur + 1).kind != Comma && At(ts, val.cur + 1).kind != RBracket
    ensures var val := ParseValue(ts, i + 1, errs);
      ArrayLoop(ts, i, data, errs) == Parsed(NilArr, val.cur, val.errs)
  {
  }

  /** The first key of an object, a scalar that is not a string: parse stays on it. */
  lemma FirstKeyNotString(ts: seq<Token>, i: nat, errs: seq<string>)
    requires At(ts, i).kind == LBrace
    requires Scalar(At(ts, i + 1).kind) && At(ts, i + 1).kind != String && At(ts, i + 1).kind != RBrace
    ensures ParseValue(ts, i, errs) == Parsed(NilObj, i + 1, errs + [KeyNotString])
  {
    assert i < |ts|;
    KeyNotStringAbandons(ts, i, map[], errs);
  }

  /** The first key of an object without its colon. */
  lemma FirstColonMissing(ts: seq<Token>, i: nat, errs: seq<string>)
    requires At(ts, i).kind == LBrace && At(ts, i + 1).kind == String && At(ts, i + 2).kind != Colon
    ensures ParseValue(ts, i, errs) == Parsed(NilObj, i + 1, errs + [SeparatorNotColon])
  {
    assert i < |ts|;
    MissingColonAbandons(ts, i, map[], errs);
  }

  /** An array's first element, a scalar, followed by neither ',' nor ']'. */
  lemma FirstElementSeparatorBad(ts: seq<Token>, i: nat, errs: seq<string>)
    requires At(ts, i).kind == LBracket
    requires Scalar(At(ts, i + 1).kind) && At(ts, i + 1).kind != RBracket
    requires At(ts, i + 2).kind != Comma && At(ts, i + 2).kind != RBracket
    ensures ParseValue(ts, i, errs) == Parsed(NilArr, i + 1, errs)
  {
    assert i < |ts|;
    BadElementSeparatorSilent(ts, i, [], errs);
  }

  /** "[" alone: the array is abandoned when the input runs out. */
  lemma UnclosedArray()
    ensures ParseValue([LBracketToken], 0, []) == Parsed(NilArr, 1, [])
  {
    FirstElementSeparatorBad([LBracketToken], 0, []);
  }

  /** "[,]": a comma where an element belongs reads as a nil element. */
  lemma EmptyElement()
    ensures ParseValue([LBracketToken, CommaToken, RBracketToken], 0, []) == Parsed(Arr([Nil]), 2, [])
  {
    var ts := [LBracketToken, CommaToken, RBracketToken];
    var val := ParseValue(ts, 1, []);
    assert val == Parsed(Nil, 1, []);
    assert [] + [Nil] == [Nil];
    assert ArrayLoop(ts, 0, [], []) == ArraySeparator(ts, 0, [Nil], val);
    assert ArraySeparator(ts, 0, [Nil], val) == ArrayLoop(ts, 1, [Nil], []);
  }

  /**
   * "[{"a",1]": the array keeps the abandoned object as a nil map and goes on
   * from the comma after its key, so the element 1 is read as well and the
   * only trace of the broken object is its message.
   */
  lemma BrokenObjectInArray()
    ensures var ts := [LBracketToken, LBraceToken, Token(String, "a"), CommaToken, Token(Number, "1"), RBracketToken];
            ParseValue(ts, 0, []) == Parsed(Arr([NilObj, Num("1")]), 5, [SeparatorNotColon])
  {
    var ts := [LBracketToken, LBraceToken, Token(String, "a"), CommaToken, Token(Number, "1"), RBracketToken];
    FirstColonMissing(ts, 1, []);
    var obj := ParseValue(ts, 1, []);
    assert obj == Parsed(NilObj, 2, [SeparatorNotColon]);
    assert [] + [NilObj] == [NilObj];
    assert [NilObj] + [Num("1")] == [NilObj, Num("1")];
    assert ArrayLoop(ts, 0, [], []) == ArraySeparator(ts, 0, [NilObj], obj);
    assert ArraySeparator(ts, 0, [NilObj], obj) == ArrayLoop(ts, 3, [NilObj], [SeparatorNotColon]);
    var one := ParseValue(ts, 4, [SeparatorNotColon]);
    assert one == Parsed(Num("1"), 4, [SeparatorNotColon]);
    assert ArrayLoop(ts, 3, [NilObj], [SeparatorNotColon]) == ArraySeparator(ts, 3, [NilObj, Num("1")], one);
    assert ArraySeparator(ts, 3, [NilObj, Num("1")], one) == ArrayLoop(ts, 4, [NilObj, Num("1")], [SeparatorNotColon]);
  }

  /** {"a":1,"a":2}: the later member with a key wins. */
  lemma DuplicateKey()
    ensures var d := DObject([Member("a", DNumber("1")), Member("a", DNumber("2"))], false);
            ParseValue(Emit(d), 0, []).value == Obj(map["a" := Num("2")])
  {
    var d := DObject([Member("a", DNumber("1")), Member("a", DNumber("2"))], false);
    ParseDocument(d);
    assert Store(map[], d.members) == map["a" := Num("2")] by {
      assert d.members[1..][1..] == [];
    }
  }
}
