/**
 * The recursive-descent parser (parser/parser.go).
 *
 * The parser reads a stream of tokens through a window of two slots, the
 * current token and the one after it, and builds a value tree. Here the
 * stream is a finite sequence of tokens followed, as the lexer's stream is
 * at end of input, by EOF tokens for ever.
 *
 * ParseValue, ParseHashAt and ParseArrayAt below are the parser as functions of
 * the stream and the index of the current token; the class Parser is the
 * source's object, whose methods run its loops and are proved to agree with
 * those functions.
 */
module Parsing {
  import opened Tokens

  /**
   * What the parser returns. Obj, Arr, Num, Str, Bool and Nil stand for the
   * Go values map[string]interface{}, []interface{}, float64 (kept here as
   * the literal text it would be converted from), string, bool and nil.
   * NilObj and NilArr are the nil map and the nil slice that a container
   * returns when it gives up: inside an interface{} they are typed values
   * that differ from nil and from an empty container.
   */
  datatype Value =
    | Obj(fields: map<string, Value>)
    | NilObj
    | Arr(items: seq<Value>)
    | NilArr
    | Num(lit: string)
    | Str(s: string)
    | Bool(b: bool)
    | Nil

  /** The message AddError records for a key that is not a string (%T of "" is "string"). */
  const KeyNotString: string := "key is not *ast.String got=string"

  /** The message AddError records when no colon follows a key. */
  const SeparatorNotColon: string := "separator is not COLON, got=token.Token"

  /** The token at index i of the stream: EOF past the end. */
  function At(ts: seq<Token>, i: nat): Token {
    if i < |ts| then ts[i] else EofToken
  }

  /**
   * The outcome of parsing from some token: the value, the index of the
   * token the parser is left on (its last token), and the parser's error
   * list at that point.
   */
  datatype Parsed = Parsed(value: Value, cur: nat, errs: seq<string>)

  /**
   * parse with the current token at index i and the error list errs: a
   * container is handed to its parser; a scalar token gives its value and
   * the parser stays on it; any other kind gives nil without an error.
   */
  function ParseValue(ts: seq<Token>, i: nat, errs: seq<string>): (r: Parsed)
    ensures i <= r.cur
    ensures r.value.Str? <==> At(ts, i).kind == String
    decreases |ts| - i, 4
  {
    var t := At(ts, i);
    if t.kind == LBrace then ParseHashAt(ts, i, errs)
    else if t.kind == LBracket then ParseArrayAt(ts, i, errs)
    else Parsed(ScalarValue(t), i, errs)
  }

  /**
   * The value parse gives for a token that does not open a container:
   * NUMBER, STRING, TRUE, FALSE and NULL give their values, every other kind
   * gives nil.
   */
  function ScalarValue(t: Token): (v: Value)
    ensures v.Num? <==> t.kind == Number
    ensures v.Str? <==> t.kind == String
    ensures v.Bool? <==> t.kind == True || t.kind == False
    ensures v == Nil <==> t.kind !in {Number, String, True, False}
    ensures v.Num? ==> v.lit == t.literal
    ensures v.Str? ==> v.s == t.literal
    ensures v.Bool? ==> v.b == (t.kind == True)
  {
    match t.kind
    case Number => Num(t.literal)
    case String => Str(t.literal)
    case True => Bool(true)
    case False => Bool(false)
    case Null => Nil
    case _ => Nil
  }

  /** parseHash with the current token, at index i, a '{'. */
  function ParseHashAt(ts: seq<Token>, i: nat, errs: seq<string>): (r: Parsed)
    requires At(ts, i).kind == LBrace
    ensures i < r.cur
    ensures r.value.Obj? || r.value == NilObj
    decreases |ts| - i, 3
  {
    HashLoop(ts, i, map[], errs)
  }

  /**
   * One round of parseHash's loop, entered with the current token at index i
   * (a real token of the stream), the members read so far in data and the
   * error list errs: the loop ends at a '}' in the peek slot, and otherwise
   * a key is parsed from the next token.
   */
  function HashLoop(ts: seq<Token>, i: nat, data: map<string, Value>, errs: seq<string>): (r: Parsed)
    requires i < |ts|
    ensures i < r.cur
    ensures r.value.Obj? || r.value == NilObj
    decreases |ts| - i, 2
  {
    if At(ts, i + 1).kind == RBrace then
      // expectPeek(RBRACE) after the loop moves onto the '}'
      Parsed(Obj(data), i + 1, errs)
    else
      HashMember(ts, i, data, ParseValue(ts, i + 1, errs))
  }

  /**
   * The rest of a round once the key has been parsed: the key must be a
   * string and be followed by a colon; then the value is parsed.
   */
  function HashMember(ts: seq<Token>, i: nat, data: map<string, Value>, key: Parsed): (r: Parsed)
    requires i < |ts| && i < key.cur
    ensures i < r.cur
    ensures r.value.Obj? || r.value == NilObj
    decreases |ts| - i, 1
  {
    if !key.value.Str? then
      Parsed(NilObj, key.cur, key.errs + [KeyNotString])
    else if At(ts, key.cur + 1).kind != Colon then
      Parsed(NilObj, key.cur, key.errs + [SeparatorNotColon])
    else
      HashSeparator(ts, i, data[key.value.s := ParseValue(ts, key.cur + 2, key.errs).value],
                    ParseValue(ts, key.cur + 2, key.errs))
  }

  /**
   * The end of a round once the member is stored in data: the token after
   * the value must be a '}' or a ',', and a ',' is stepped over.
   */
  function HashSeparator(ts: seq<Token>, i: nat, data: map<string, Value>, val: Parsed): (r: Parsed)
    requires i < |ts| && i < val.cur
    ensures i < r.cur
    ensures r.value.Obj? || r.value == NilObj
    decreases |ts| - i, 0
  {
    var peek := At(ts, val.cur + 1).kind;
    if peek == RBrace then HashLoop(ts, val.cur, data, val.errs)
    else if peek == Comma then HashLoop(ts, val.cur + 1, data, val.errs)
    else Parsed(NilObj, val.cur, val.errs)
  }

  /** parseArray with the current token, at index i, a '['. */
  function ParseArrayAt(ts: seq<Token>, i: nat, errs: seq<string>): (r: Parsed)
    requires At(ts, i).kind == LBracket
    ensures i < r.cur
    ensures r.value.Arr? || r.value == NilArr
    decreases |ts| - i, 3
  {
    ArrayLoop(ts, i, [], errs)
  }

  /**
   * One round of parseArray's loop, entered with the current token at index
   * i (a real token of the stream), the elements read so far in data and
   * the error list errs: the loop ends at a ']' in the peek slot, and
   * otherwise an element is parsed from the next token.
   */
  function ArrayLoop(ts: seq<Token>, i: nat, data: seq<Value>, errs: seq<string>): (r: Parsed)
    requires i < |ts|
    ensures i < r.cur
    ensures r.value.Arr? || r.value == NilArr
    decreases |ts| - i, 2
  {
    if At(ts, i + 1).kind == RBracket then
      Parsed(Arr(data), i + 1, errs)
    else
      var val := ParseValue(ts, i + 1, errs);
      ArraySeparator(ts, i, data + [val.value], val)
  }

  /**
   * The end of a round once the element is appended to data: the token
   * after it must be a ']' or a ',', and a ',' is stepped over.
   */
  function ArraySeparator(ts: seq<Token>, i: nat, data: seq<Value>, val: Parsed): (r: Parsed)
    requires i < |ts| && i < val.cur
    ensures i < r.cur
    ensures r.value.Arr? || r.value == NilArr
    decreases |ts| - i, 1
  {
    var peek := At(ts, val.cur + 1).kind;
    if peek == RBracket then ArrayLoop(ts, val.cur, data, val.errs)
    else if peek == Comma then ArrayLoop(ts, val.cur + 1, data, val.errs)
    else Parsed(NilArr, val.cur, val.errs)
  }

  /**
   * The parser object. The source's lexer field becomes the token stream
   * and the count next of tokens pulled from it so far; the ghost field
   * index is where in the stream the current token stands.
   */
  class Parser {
    const tokens: seq<Token>
    var next: nat
    var curToken: Token
    var peekToken: Token
    var errors: seq<string>
    ghost var index: int

    /** The window holds the last two tokens pulled. */
    ghost predicate Valid()
      reads this
    {
      0 <= index && next == index + 2 &&
      curToken == At(tokens, index) && peekToken == At(tokens, index + 1)
    }

    /** New: fills both slots of the window, with no errors. */
    constructor (ts: seq<Token>)
      ensures Valid()
      ensures tokens == ts && index == 0 && errors == []
    {
      tokens := ts;
      next := 0;
      index := -2;
      curToken, peekToken := ZeroToken, ZeroToken;
      errors := [];
      new;
      NextToken();
      NextToken();
    }

    /** Errors: the messages recorded so far, oldest first. */
    function Errors(): (es: seq<string>)
      reads this
      ensures es == errors
    {
      errors
    }

    /** Records one more message, keeping the earlier ones. */
    method AddError(msg: string)
      modifies this
      ensures errors == old(errors) + [msg]
      ensures next == old(next) && index == old(index)
      ensures curToken == old(curToken) && peekToken == old(peekToken)
    {
      errors := errors + [msg];
    }

    /** Shifts the window: the peeked token becomes current and a new one is pulled. */
    method NextToken()
      requires next == index + 2
      modifies this
      ensures next == index + 2 && index == old(index) + 1
      ensures curToken == old(peekToken) && peekToken == At(tokens, index + 1)
      ensures errors == old(errors)
    {
      curToken := peekToken;
      peekToken := At(tokens, next);
      next := next + 1;
      index := index + 1;
    }

    /** peekTokenIs: whether the token after the current one in the stream has kind t. */
    function PeekTokenIs(t: TokenType): (b: bool)
      reads this
      ensures Valid() ==> (b <==> At(tokens, index + 1).kind == t)
    {
      peekToken.kind == t
    }

    /** Advances only if the peeked token has kind t, and says whether it did. */
    method ExpectPeek(t: TokenType) returns (ok: bool)
      requires Valid()
      modifies this
      ensures Valid()
      ensures ok == (old(peekToken).kind == t)
      ensures ok ==> index == old(index) + 1 && errors == old(errors)
      ensures !ok ==> unchanged(this)
    {
      if PeekTokenIs(t) {
        NextToken();
        return true;
      }
      return false;
    }

    /** parse: the value that starts at the current token. */
    method Parse() returns (v: Value)
      requires Valid()
      modifies this
      ensures Valid()
      ensures var r := ParseValue(tokens, old(index), old(errors));
        v == r.value && index == r.cur && errors == r.errs
      decreases |tokens| - index, 3
    {
      match curToken.kind {
        case LBrace => v := ParseHash();
        case LBracket => v := ParseArray();
        case Number => v := Num(curToken.literal);
        case String => v := Str(curToken.literal);
        case True => v := Bool(true);
        case False => v := Bool(false);
        case Null => v := Nil;
        case _ => v := Nil;
      }
    }

    /** parseHash: reads members until a '}' and moves onto it. */
    method ParseHash() returns (v: Value)
      requires Valid() && curToken.kind == LBrace
      modifies this
      ensures Valid()
      ensures var r := ParseHashAt(tokens, old(index), old(errors));
        v == r.value && index == r.cur && errors == r.errs
      decreases |tokens| - index, 2
    {
      var data: map<string, Value> := map[];
      while !PeekTokenIs(RBrace)
        invariant Valid() && old(index) <= index < |tokens|
        invariant HashLoop(tokens, index, data, errors) == ParseHashAt(tokens, old(index), old(errors))
        decreases |tokens| - index
      {
        var failed;
        data, failed := HashRound(data);
        if failed {
          return NilObj;
        }
      }
      var ok := ExpectPeek(RBrace);
      assert ok; // the loop only ends with '}' in the peek slot
      return Obj(data);
    }

    /**
     * One round of parseHash's loop, with '}' not in the peek slot: reads a
     * key, a colon and a value into data, then expects a '}' or steps over
     * a ','. failed says the round ended parseHash with a nil map.
     */
    method HashRound(data0: map<string, Value>) returns (data: map<string, Value>, failed: bool)
      requires Valid() && index < |tokens| && peekToken.kind != RBrace
      modifies this
      ensures Valid() && old(index) < index
      ensures var r := HashLoop(tokens, old(index), data0, old(errors));
        if failed then r == Parsed(NilObj, index, errors)
        else index < |tokens| && r == HashLoop(tokens, index, data, errors)
      decreases |tokens| - index, 1
    {
      ghost var i := index;
      NextToken();
      var key := Parse();
      ghost var k := ParseValue(tokens, i + 1, old(errors));
      if !key.Str? {
        AddError(KeyNotString);
        return data0, true;
      }
      if !PeekTokenIs(Colon) {
        AddError(SeparatorNotColon);
        return data0, true;
      }
      data, failed := HashValue(i, data0, key.s);
    }

    /**
     * The rest of a round of parseHash's loop, with the key (the current
     * token, which entered the round at index i) followed by a colon: reads
     * the value into data, then expects a '}' or steps over a ','.
     */
    method HashValue(ghost i: nat, data0: map<string, Value>, key: string) returns (data: map<string, Value>, failed: bool)
      requires Valid() && i < index < |tokens| && peekToken.kind == Colon
      modifies this
      ensures Valid() && old(index) < index
      ensures var w := ParseValue(tokens, old(index) + 2, old(errors));
        data == data0[key := w.value] &&
        var r := HashSeparator(tokens, i, data, w);
        if failed then r == Parsed(NilObj, index, errors)
        else index < |tokens| && r == HashLoop(tokens, index, data, errors)
      decreases |tokens| - index, 0
    {
      NextToken();
      NextToken();
      var val := Parse();
      data := data0[key := val];
      failed := false;
      if !PeekTokenIs(RBrace) {
        var ok := ExpectPeek(Comma);
        failed := !ok;
      }
    }

    /** parseArray: reads elements until a ']' and moves onto it. */
    method ParseArray() returns (v: Value)
      requires Valid() && curToken.kind == LBracket
      modifies this
      ensures Valid()
      ensures var r := ParseArrayAt(tokens, old(index), old(errors));
        v == r.value && index == r.cur && errors == r.errs
      decreases |tokens| - index, 2
    {
      var data: seq<Value> := [];
      while !PeekTokenIs(RBracket)
        invariant Valid() && old(index) <= index < |tokens|
        invariant ArrayLoop(tokens, index, data, errors) == ParseArrayAt(tokens, old(index), old(errors))
        decreases |tokens| - index
      {
        var failed;
        data, failed := ArrayRound(data);
        if failed {
          return NilArr;
        }
      }
      var ok := ExpectPeek(RBracket);
      assert ok; // the loop only ends with ']' in the peek slot
      return Arr(data);
    }

    /**
     * One round of parseArray's loop, with ']' not in the peek slot: reads an
     * element into data, then expects a ']' or steps over a ','. failed says
     * the round ended parseArray with a nil slice.
     */
    method ArrayRound(data0: seq<Value>) returns (data: seq<Value>, failed: bool)
      requires Valid() && index < |tokens| && peekToken.kind != RBracket
      modifies this
      ensures Valid() && old(index) < index
      ensures var r := ArrayLoop(tokens, old(index), data0, old(errors));
        if failed then r == Parsed(NilArr, index, errors)
        else index < |tokens| && r == ArrayLoop(tokens, index, data, errors)
      decreases |tokens| - index, 1
    {
      ghost var i := index;
      NextToken();
      var val := Parse();
      data := data0 + [val];
      failed := false;
      if !PeekTokenIs(RBracket) {
        var ok := ExpectPeek(Comma);
        failed := !ok;
      }
    }
  }
}
