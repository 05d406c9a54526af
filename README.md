# json_parser in Dafny

A model of the JSON reader of bamchoh/json_parser: the character lexer of
`lexer/lexer.go` and the recursive-descent parser of `parser/parser.go`,
with the token vocabulary they share.

- **Lexer.** The lexer is a cursor over the input runes (`position`,
  `readPosition`, `ch`). Each call of `NextToken` skips whitespace and
  yields one token and possibly a lexical error. Module `Lexing` holds two
  parts:
  - Pure functions: `SkipEnd`, `DigitsEnd`, `NumberEnd`, `IdentEnd`,
    `ScanString`, `NextSpec` and others. Each says, for an input and a
    cursor position, where one of the source's loops stops and what it
    yields.
  - The class `Lexer`. Its methods run the source's loops, and each is
    proved to agree with those functions.
- **Lexer facts.** Module `LexerFacts` proves what the lexer does, stated
  about those functions:
  - The number lexeme is the longest match of a small automaton.
  - Structural characters become their tokens.
  - End of input yields EOF forever.
  - A leading `0` stalls the lexer.
  - `-` handling; no ILLEGAL token is ever produced; keywords.
  - String escapes, `\u` escapes with digits of either case, and
    surrogate pairs.
  - A round trip: quoting any text and lexing the literal gives back that
    text.
- **Parser.** The parser keeps a window of two tokens (`curToken`,
  `peekToken`) and a list of error messages. Module `Parsing` holds two
  parts:
  - The parser as functions of a token stream and an index: `ParseValue`,
    `HashLoop` and `ArrayLoop`, together with their helper functions.
  - The class `Parser`, whose `Parse`, `ParseHash` and `ParseArray`
    methods run the source's loops and are proved to agree with those
    functions.
- **Parser facts.** Module `ParserFacts` proves:
  - A round trip: a well-formed document, written out as tokens (with or
    without trailing commas), parses to its meaning with no error. A later
    duplicate key wins.
  - The error list is never read, only appended to.
  - A container read whole leaves the parser on its closing token.
  - Each error path: what it returns, where it stops and which message it
    records, if any.
- **Pipeline.** Module `Pipeline` composes the two functions on concrete
  texts: what the parser makes of the tokens the lexer gives for `[1,true]`
  and for `[-]`.

Go's `rune` becomes `char`. The rune 0 that `readChar` loads past the end
of the input is `CharAt`'s `'\0'`. A JSON number stays as the literal text
it would be converted from.

## Departures from RFC 8259

The lexer and the parser accept or reject some texts differently from the
JSON grammar of RFC 8259. The model states each behaviour as the code has it:

- **Numbers after a `-`.** Section 6 of RFC 8259 allows `-0`. Here `-0`
  yields the literal `"-"` and leaves the cursor on the `0`. A number that
  starts with `0` is never consumed: it yields a NUMBER with an empty
  literal and does not move the cursor (`LexerFacts.ZeroStalls`,
  `LexerFacts.MinusSign`).
- **Exponent.** Section 6 allows `E` as well as `e`. Only `e` starts an
  exponent here (`Lexing.ExponentEnd`).
- **Escapes.** Section 7 defines eight two-character escapes and `\u`. Here a backslash before any
  other rune stands for that rune, so `\q` reads as `q`
  (`LexerFacts.OtherEscapeKept`).
- **Surrogate pairs.** A surrogate `\u` escape only has to be followed by
  another `\u` escape. A pair that is not a high and a low surrogate decodes
  to U+FFFD without an error (`LexerFacts.SurrogatePair`).
- **Unterminated strings.** A string with no quote, backslash or 0 rune
  after its opening quote runs to the end of the input and yields its text
  without an error
  (`LexerFacts.UnterminatedString`).
- **Failed containers.** Only the innermost container that fails becomes
  nil. Its enclosing container stores that nil and carries on
  (`ParserFacts.BrokenObjectInArray`).
- **Separators and closers.** A bad separator or a missing closer records
  no message, because `expectPeek` records none
  (`ParserFacts.BadMemberSeparatorSilent`,
  `ParserFacts.BadElementSeparatorSilent`).
- **Lexical errors.** The parser drops them. After an error the lexer's
  token is the zero token, which parses as nil, so `[-]` parses to an array
  holding nil with no message (`Pipeline.DroppedLexError`).
- **Trailing commas.** A comma before `]` or `}` is accepted
  (`ParserFacts.MembersClose`, `ParserFacts.ElementsClose`).
- **Typed nils.** The nil map and the nil slice that `parseHash` and
  `parseArray` return are typed nils. Inside an `interface{}` they differ
  from `nil`, so they are the values `NilObj` and `NilArr`.

## Model

| member | source | states |
|---|---|---|
| Tokens.LookupIdent | lexer/lexer_test.go:78-83 | exactly "true", "false" and "null" get the kinds TRUE, FALSE and NULL (each an if-and-only-if); every other word is IDENT |
| Utf16.DecodeRune | lexer/lexer.go:166-174 | a high surrogate followed by a low one decodes to a supplementary code point; any other pair gives U+FFFD |
| Utf16.EncodeRune | lexer/lexer.go:174 | every supplementary code point has a pair of a high and a low surrogate (the inverse of DecodeRune) |
| Utf16.DecodeEncode | lexer/lexer.go:174 | decoding the pair that encodes a code point gives that code point back |
| Utf16.EncodeDecode | lexer/lexer.go:174 | every well-formed surrogate pair is the encoding of what it decodes to |
| Lexing.CharAt | lexer/lexer.go:96-104 | the rune readChar loads is the input's rune at the index, or 0 past the end |
| Lexing.NewToken | lexer/lexer.go:24-26 | newToken gives a token of the given kind whose literal is the one rune |
| Lexing.Message | lexer/lexer.go:197 | the message of a refused \u escape is ParseInt's syntax error: its prefix and then the four runes as strconv.Quote writes them |
| Lexing.QuoteRune | lexer/lexer.go:197 | strconv.Quote writes a rune as it is exactly when it is printable ASCII or beyond ASCII, and neither a quote nor a backslash, and otherwise as an escape of at most four runes |
| Lexing.QuoteBody | lexer/lexer.go:197 | strconv.Quote writes each rune with at least one and at most four runes |
| Lexing.GoQuote | lexer/lexer.go:197 | strconv.Quote's literal is enclosed in quotes |
| Lexing.SkipEnd | lexer/lexer.go:204-208 | skipWhiteSpace stops at the first non-whitespace rune (or the 0 past the end), having passed only whitespace |
| Lexing.DigitsEnd | lexer/lexer.go:110-112 | a digit loop stops at the first non-digit, having passed only digits, never beyond the input |
| Lexing.IdentEnd | lexer/lexer.go:210-220 | when a non-letter follows, readIdentifier stops at the first one, having passed only letters |
| Lexing.NumberEnd | lexer/lexer.go:106-130 | readNumber moves if and only if the first rune is 1-9; when it moves it stops inside the input on a non-digit |
| Lexing.FractionEnd | lexer/lexer.go:113-118 | the fraction is present if and only if a '.' comes next, and when present ends on a non-digit |
| Lexing.ExponentEnd | lexer/lexer.go:119-127 | the exponent is present if and only if a lowercase 'e' comes next; an 'e' without a sign or digit after it is taken alone; otherwise it ends on a non-digit |
| Lexing.HexDigit | lexer/lexer.go:197 | a hexadecimal digit of either case is recognised, and only those, with a value below 16 (which value: HexDigitValue) |
| Lexing.HexValue | lexer/lexer.go:197 | a run has a value if and only if it is non-empty and all hexadecimal digits (its value: HexValueSnoc) |
| Lexing.ParseHex | lexer/lexer.go:197 | strconv.ParseInt(s, 16, 32) on four runes succeeds exactly when they are one optional sign and hexadecimal digits; without a '-' the value is not negative |
| Lexing.RuneToChar | lexer/lexer.go:179-188 | a Unicode scalar value is kept; a negative value, a surrogate or one past U+10FFFF becomes U+FFFD |
| Lexing.UnitAt | lexer/lexer.go:191-202 | the four runes after the 'u' give a code unit exactly when ParseInt accepts them |
| Lexing.ScanString | lexer/lexer.go:135-187 | a string that ends successfully ends after where the scan started, on a closing quote or on a 0 rune (in the input or past its end) |
| Lexing.ScanEscape | lexer/lexer.go:142-183 | a string that ends successfully after an escape ends after its backslash, on a closing quote or on a 0 rune (in the input or past its end) |
| Lexing.ScanUnicode | lexer/lexer.go:160-180 | a string that ends successfully after a \u escape ends after its 'u', on a closing quote or on a 0 rune (in the input or past its end) |
| Lexing.Pull | parser/parser.go:122-125 | n calls of NextToken that all return give n tokens; the first is the first call's token, or the zero token when that call fails, its error dropped |
| Lexing.Lexer.constructor | lexer/lexer.go:18-22 | New leaves the cursor on the first rune of the input with the cursor invariant established |
| Lexing.Lexer.ReadChar | lexer/lexer.go:96-104 | readChar moves position to the old readPosition, keeps readPosition == position + 1, and loads input[position] or 0 past the end |
| Lexing.Lexer.PeekChar | lexer/lexer.go:88-94 | peekChar is the rune after the current one, or 0 past the end, and changes nothing |
| Lexing.Lexer.SkipWhiteSpace | lexer/lexer.go:204-208 | the loop leaves the cursor at SkipEnd of where it started |
| Lexing.Lexer.SkipDigits | lexer/lexer.go:110-112 | the loop leaves the cursor at DigitsEnd of where it started |
| Lexing.Lexer.ReadNumber | lexer/lexer.go:106-130 | readNumber returns the slice from the start to where it stops, which is NumberEnd |
| Lexing.Lexer.SkipFraction | lexer/lexer.go:113-118 | the block leaves the cursor at FractionEnd |
| Lexing.Lexer.SkipExponent | lexer/lexer.go:119-127 | the block leaves the cursor at ExponentEnd |
| Lexing.Lexer.ReadIdentifier | lexer/lexer.go:210-216 | readIdentifier returns the run of letters at the cursor and stops at IdentEnd |
| Lexing.Lexer.ReadUnicode | lexer/lexer.go:191-202 | readUnicode moves four runes on and returns UnitAt's code unit, or 0 and ParseInt's error |
| Lexing.Lexer.ReadString | lexer/lexer.go:132-189 | readString returns ScanString's text and stops on the closing quote or on a 0 rune (in the input or past its end), or returns "" and its error where the cursor stopped |
| Lexing.Lexer.ReadEscape | lexer/lexer.go:142-183 | one escape decoded into the text, agreeing with ScanEscape, or the escape's error |
| Lexing.Lexer.ReadUnicodeEscape | lexer/lexer.go:160-180 | one \u escape, or a surrogate and the \u escape after it, decoded into the text, agreeing with ScanUnicode, or the error |
| Lexing.NextSpec | lexer/lexer.go:28-86 | a NextToken call that returns leaves the cursor at or after the end of the whitespace it skips, and stays exactly there only when it emits a NUMBER with an empty literal, the stall on a leading '0' |
| Lexing.Lexer.NextToken | lexer/lexer.go:28-86 | NextToken yields NextSpec's token and position, or its error with the zero token and the position where the cursor stopped |
| Lexing.Lexer.Negated | lexer/lexer.go:51-56 | the copy loop produces "-" followed by the number lexeme |
| LexerFacts.LexemeState | lexer/lexer.go:106-130 | the automaton accepts readNumber's lexeme unless it is empty, and the rune after it kills the automaton |
| LexerFacts.NumberLongestMatch | lexer/lexer.go:106-130 | readNumber takes the longest match: its lexeme is accepted and every longer slice from the same start is rejected |
| LexerFacts.WhiteSpaceRunes | lexer/lexer.go:231-233 | isWhiteSpace holds for exactly space, tab, newline and carriage return, all below '!' |
| LexerFacts.DigitRunes | lexer/lexer.go:235-237 | isDigit holds for exactly the ten decimal digits |
| LexerFacts.NonZeroDigitRunes | lexer/lexer.go:239-241 | isDigit1to9 holds for exactly the digits other than 0 |
| LexerFacts.SymbolRunes | lexer/lexer.go:222-229 | isSymbol holds for exactly the six structural characters |
| LexerFacts.ClassesPartition | lexer/lexer.go:218-220 | every rune is in exactly one of letter, digit, whitespace and symbol; the 0 rune, the quote, '-' and '.' are letters |
| Lexing.SymbolKind | lexer/lexer.go:34-45 | a structural character gets one of the six structural kinds, the one written with that character, so no two characters share a kind |
| LexerFacts.SymbolToken | lexer/lexer.go:24-84 | after whitespace a structural character yields its kind, with itself as literal, and the cursor moves exactly one past it |
| LexerFacts.EofForever | lexer/lexer.go:60-98 | from a position with only whitespace after it, every later call yields EOF with literal "" |
| LexerFacts.ZeroStalls | lexer/lexer.go:75-129 | a number starting with '0' is never consumed: every later call yields a NUMBER with an empty literal |
| LexerFacts.MinusSign | lexer/lexer.go:46-59 | '-' and a digit 1-9 give "-" in front of the number the digits give; "-0" gives "-"; '-' and a non-digit give the minus error |
| LexerFacts.IllegalUnreachable | lexer/lexer.go:70-81 | no call ever yields an ILLEGAL token |
| LexerFacts.IdentifierToken | lexer/lexer.go:70-74 | a letter starts an identifier that returns if and only if a non-letter follows; its literal is the run of letters and its kind LookupIdent's |
| LexerFacts.SemicolonIsIdent | lexer/lexer.go:218-229 | ";" lexes as an IDENT |
| LexerFacts.KeywordToken | lexer/lexer.go:70-74 | "true" and "null" before a structural character lex as TRUE and NULL |
| LexerFacts.BareKeywordHangs | lexer/lexer.go:210-220 | the document "false" never finishes lexing, because the 0 past the end counts as a letter |
| LexerFacts.PlainRun | lexer/lexer.go:135-186 | runes other than a quote, a backslash or a 0 are copied unchanged up to the closing quote or 0 |
| LexerFacts.UnterminatedString | lexer/lexer.go:132-141 | a string with no quote, backslash or 0 rune after its opening quote runs to the end of input and yields that text without an error |
| LexerFacts.Hex4Parses | lexer/lexer.go:197 | ParseInt reads the four hex digits of any 16-bit unit back as that unit |
| LexerFacts.HexDigitValue | lexer/lexer.go:197 | a digit's value is its place in "0123456789abcdef", upper-case digits counting as their lower-case forms |
| LexerFacts.HexValueSnoc | lexer/lexer.go:197 | one more hexadecimal digit multiplies the value by 16 and adds the digit's value |
| LexerFacts.HexValue4 | lexer/lexer.go:197 | four hexadecimal digits have the value d0*16^3 + d1*16^2 + d2*16 + d3, written with PushDigit |
| LexerFacts.SameHexDigits4 | lexer/lexer.go:197 | four runes whose digit values agree place by place are the same digits, whatever their case |
| LexerFacts.Hex4Digits | lexer/lexer.go:197 | the four lower-case digits of a 16-bit unit have its base-16 place values |
| LexerFacts.SameDigitsParse | lexer/lexer.go:197 | four runes with the digit values of a unit, in either case, parse to that unit and do not start with a sign |
| LexerFacts.ParseGivesDigits | lexer/lexer.go:197 | four unsigned runes that parse to a unit are digits with that unit's place values |
| LexerFacts.ParseHexDigits | lexer/lexer.go:197 | four runes parse to v without a sign if and only if they are v's four hex digits in either case |
| LexerFacts.ExactUnitText | lexer/lexer.go:191-202 | the lower-case text \uXXXX of a unit is an escape of that unit |
| LexerFacts.UnitTextParses | lexer/lexer.go:191-202 | readUnicode reads a \u escape with a unit's digits, in either case, as that unit |
| LexerFacts.UpperCaseHigh | lexer/lexer.go:197 | the upper-case digits "D83D" parse to 0xD83D |
| LexerFacts.UpperCaseLow | lexer/lexer.go:197 | the upper-case digits "DE28" parse to 0xDE28 |
| LexerFacts.UpperCaseUnits | lexer/lexer.go:160-180 | the escapes with the upper-case digits D83D and DE28 are the units 0xD83D and 0xDE28, which decode together to U+1F628 |
| LexerFacts.UnitEscape | lexer/lexer.go:160-179 | a \u escape of a non-surrogate unit, its digits in either case, decodes to that code point and is consumed whole |
| LexerFacts.LoneSurrogate | lexer/lexer.go:166-177 | a surrogate escape, its digits in either case, not followed by "\u" is the surrogate-pair error, with the cursor after its digits |
| LexerFacts.SurrogatePair | lexer/lexer.go:166-179 | a high and a low surrogate escape, their digits in either case, decode to the code point they encode; any other pair starting with a surrogate gives U+FFFD without an error |
| LexerFacts.EscapeStep | lexer/lexer.go:142-183 | every escape a JSON writer produces for a character decodes to that character, and the scan moves past it |
| LexerFacts.OtherEscapeKept | lexer/lexer.go:182-183 | a backslash before any rune other than b, f, r, n, t and u stands for that rune, and the scan goes on after it |
| LexerFacts.SolidusAndUnknownEscapes | lexer/lexer.go:182-183 | "\/\q" reads as "/q" |
| LexerFacts.ScanQuoted | lexer/lexer.go:132-189 | any text, quoted with escapes and closed by a quote, is read back exactly, ending on the closing quote |
| LexerFacts.StringToken | lexer/lexer.go:63-69 | a quoted literal yields the STRING token of the quoted text, with the cursor after the closing quote |
| LexerFacts.QuoteRoundTrip | lexer/lexer.go:132-189 | the document made of one quoted text lexes as that text and then EOF |
| LexerFacts.SignedUnitEscape | lexer/lexer.go:197 | ParseInt accepts a sign: "\u+041" is 'A' and "\u-041" is U+FFFD |
| LexerFacts.InvalidUnitEscape | lexer/lexer.go:191-202 | four runes that are not hexadecimal give an error that names them |
| LexerFacts.UnquoteRune | lexer/lexer.go:197 | strconv.Unquote reads each rune strconv.Quote writes back as that rune |
| LexerFacts.UnquoteQuoteBody | lexer/lexer.go:197 | strconv.Unquote gives back every text strconv.Quote wrote |
| LexerFacts.InvalidHexMessageNamesRunes | lexer/lexer.go:197 | two refused \u escapes have the same message only if their four runes are the same |
| LexerFacts.MessageEnd | lexer/lexer.go:59-197 | the minus error, the surrogate error and ParseInt's error end in different runes |
| LexerFacts.MessageInjective | lexer/lexer.go:59-197 | different lexical errors never have the same message |
| LexerFacts.QuotedRunes | lexer/lexer.go:197 | strconv.Quote writes the four runes `"abc` with the quote escaped |
| LexerFacts.QuotedRunesMessage | lexer/lexer.go:191-202 | the escape \u"abc gives the message strconv.ParseInt: parsing "\"abc": invalid syntax |
| Parsing.ScalarValue | parser/parser.go:55-67 | NUMBER, STRING, TRUE and FALSE give their values (each an if-and-only-if); NULL and every other kind give nil |
| Parsing.ParseValue | parser/parser.go:49-68 | parse never moves the parser back, and yields a string exactly when the current token is a STRING |
| Parsing.ParseHashAt | parser/parser.go:70-100 | parseHash always moves the parser forward and yields a map or the nil map |
| Parsing.HashLoop | parser/parser.go:72-97 | each round of parseHash's loop moves the parser forward, and the loop yields a map or the nil map |
| Parsing.HashMember | parser/parser.go:73-88 | the rest of a round after the key moves the parser forward and yields a map or the nil map |
| Parsing.HashSeparator | parser/parser.go:90-92 | the separator check moves the parser forward and yields a map or the nil map |
| Parsing.ParseArrayAt | parser/parser.go:102-120 | parseArray always moves the parser forward and yields an array or the nil slice |
| Parsing.ArrayLoop | parser/parser.go:104-117 | each round of parseArray's loop moves the parser forward, and the loop yields an array or the nil slice |
| Parsing.ArraySeparator | parser/parser.go:110-112 | the separator check moves the parser forward and yields an array or the nil slice |
| Parsing.Parser.constructor | parser/parser.go:25-35 | New fills both slots from the first two tokens and starts with no errors |
| Parsing.Parser.Errors | parser/parser.go:41-43 | Errors gives the messages recorded so far |
| Parsing.Parser.AddError | parser/parser.go:45-47 | exactly one message is appended, the earlier ones kept, and nothing else changes |
| Parsing.Parser.NextToken | parser/parser.go:122-125 | the peeked token becomes current, the next token of the stream is peeked, and the errors are untouched |
| Parsing.Parser.PeekTokenIs | parser/parser.go:127-129 | peekTokenIs holds exactly when the token after the current one in the stream has the given kind |
| Parsing.Parser.ExpectPeek | parser/parser.go:127-138 | it advances exactly when the peeked token has the expected kind, says whether it did, and otherwise changes nothing |
| Parsing.Parser.Parse | parser/parser.go:49-68 | the value, the final position and the error list are those of ParseValue |
| Parsing.Parser.ParseHash | parser/parser.go:70-100 | the value, the final position and the error list are those of ParseHashAt |
| Parsing.Parser.HashRound | parser/parser.go:72-93 | one round either ends parseHash with the nil map where the loop function ends, or leaves data and position where the loop function goes on |
| Parsing.Parser.HashValue | parser/parser.go:84-92 | the value is stored under its key, and the round ends or goes on as the separator function says |
| Parsing.Parser.ParseArray | parser/parser.go:102-120 | the value, the final position and the error list are those of ParseArrayAt |
| Parsing.Parser.ArrayRound | parser/parser.go:104-113 | one round either ends parseArray with the nil slice where the loop function ends, or appends the element and goes on |
| ParserFacts.StoreLast | parser/parser.go:88 | storing one more member updates the map with it |
| ParserFacts.StoreKeys | parser/parser.go:88 | the object's keys are the earlier keys plus the keys of its members |
| ParserFacts.LastWins | parser/parser.go:88 | with duplicate keys, the last member with a key decides its value |
| ParserFacts.RoundTrip | parser/parser.go:49-120 | a well-formed document embedded in the stream parses to its meaning, ends on its last token and adds no error |
| ParserFacts.MembersRoundTrip | parser/parser.go:72-99 | parseHash's loop reads a member list, with or without a trailing comma, and its '}' into the map of its members |
| ParserFacts.ElementsRoundTrip | parser/parser.go:104-119 | parseArray's loop reads an element list, with or without a trailing comma, and its ']' into their values in order |
| ParserFacts.MembersClose | parser/parser.go:90-97 | a '}' after an optional trailing comma ends the object |
| ParserFacts.ElementsClose | parser/parser.go:110-117 | a ']' after an optional trailing comma ends the array |
| ParserFacts.ParseDocument | parser/parser.go:49-120 | a stream that is one well-formed document parses to its meaning without errors |
| ParserFacts.ErrorsIgnored | parser/parser.go:45-47 | the value, the position and the messages added do not depend on the messages recorded before |
| ParserFacts.ErrorsGrow | parser/parser.go:41-47 | a parse keeps every earlier message, in front of the ones it adds |
| ParserFacts.ArrayEndsOnBracket | parser/parser.go:102-120 | whenever parseArray yields an array, the parser stands on a ']' |
| ParserFacts.HashEndsOnBrace | parser/parser.go:70-100 | whenever parseHash yields a map, the parser stands on a '}' |
| ParserFacts.KeyNotStringAbandons | parser/parser.go:72-78 | in any round, after any members, a key that is not a string (of any kind, a container included) ends parseHash with the nil map where the key's parse ended, recording the key message after the key's own |
| ParserFacts.MissingColonAbandons | parser/parser.go:72-83 | in any round, after any members, a string key without a colon ends parseHash with the nil map, the parser on the key and the separator message recorded |
| ParserFacts.BadMemberSeparatorSilent | parser/parser.go:72-92 | in any round, after any members and any value, a token other than ',' or '}' after the member ends parseHash with the nil map and no message of its own |
| ParserFacts.BadElementSeparatorSilent | parser/parser.go:104-111 | in any round, after any elements and any element value, a token other than ',' or ']' after it ends parseArray with the nil slice and no message of its own |
| ParserFacts.FirstKeyNotString | parser/parser.go:74-78 | a scalar first key gives the nil map, leaves the parser on the key and records the key message |
| ParserFacts.FirstColonMissing | parser/parser.go:80-83 | a first string key without a colon gives the nil map, leaves the parser on the key and records the separator message |
| ParserFacts.FirstElementSeparatorBad | parser/parser.go:110-111 | a token other than ',' or ']' after the first element gives the nil slice and no message |
| ParserFacts.UnclosedArray | parser/parser.go:104-113 | "[" alone gives the nil slice and no message |
| ParserFacts.EmptyElement | parser/parser.go:102-113 | "[,]" gives an array holding one nil |
| ParserFacts.BrokenObjectInArray | parser/parser.go:102-113 | in [{"a",1] the failed object is stored as a nil map, the 1 after it is read too, and one message is recorded |
| ParserFacts.DuplicateKey | parser/parser.go:88 | {"a":1,"a":2} parses to the map holding only "a" = 2 |
| Pipeline.ArrayTextTokens | lexer/lexer.go:28-86 | the text [1,true] lexes, call by call, to '[', 1, ',', true and ']' |
| Pipeline.PullStep | parser/parser.go:122-125 | a call that yields a token puts it in front of the tokens the later calls yield |
| Pipeline.PullFailedStep | parser/parser.go:122-125 | a call that fails puts the zero token, with no error, in front of the tokens the later calls yield |
| Pipeline.MinusTextLexes | lexer/lexer.go:46-59 | the text [-] gives the parser '[', the zero token in place of the minus error, and ']' |
| Pipeline.ZeroTokenElement | parser/parser.go:102-113 | the zero token where an element belongs is read as nil, with no message |
| Pipeline.DroppedLexError | parser/parser.go:122-125 | the malformed text [-] parses to an array holding nil, with no message at all |
| Pipeline.ArrayTextLexes | parser/parser.go:122-125 | the tokens the parser pulls from [1,true] are those of the document [1,true] |
| Pipeline.ArrayText | parser/parser.go:49-120 | the text [1,true] lexes and parses to the array [1, true] with no errors |

## Left out

- The program's entry point `cmd/json_parser/main.go` is not part of this model. It reads a file and prints a dump, which is I/O and depends on Go's map iteration order.
- `ast/ast.go` is not part of this model: the parser never builds its types.
- The float64 conversion of a number is not modelled: `strconv.ParseFloat`, whose error the parser ignores. A number stays as its literal text (`Num`).
- `fmt.Sprintf` is not modelled. Each error message is the text its `%T` verb produces for its argument: "string" for the key, "token.Token" for the peeked token.
- Parsing.Parser: the parser is fed a finite sequence of tokens, followed by EOF for ever, rather than a live `*lexer.Lexer`. `Lexing.Pull` gives the sequence a lexer produces. It keeps tokens and drops errors, as `nextToken` does. The `Pipeline` lemmas connect the two on a concrete text.
- Parsing.Parser.ParseHash: requires the current token to be a '{'; parse is the only caller and calls it only then. The same holds for `Parsing.Parser.ParseArray` and '['.
- Lexing.Lexer.NextToken: requires that the call returns. When NextSpec is Panics or Hangs, the Go call panics on the slice in readUnicode, or loops forever in readIdentifier at the end of input. Both outcomes are stated by NextSpec and by `LexerFacts.BareKeywordHangs`.
- Lexing.Lexer.ReadUnicode: requires the four runes after the 'u' to exist; Go's slice `input[pos:pos+4]` panics otherwise.
- Lexing.Lexer.ReadIdentifier: requires a non-letter to follow, because otherwise the Go loop never ends.
- Lexing.Lexer.ReadNumber: requires the cursor to be within the input. Its only callers call it on a digit.
- The panic model ignores spare capacity. A `[]rune` made from a string may have capacity beyond its length, and then Go's slice may read past the end without panicking. The model treats every slice past the length as a panic.
- Split loop bodies: `Parsing.Parser.HashRound`, `HashValue` and `ArrayRound`, and the lexer's `ReadEscape`, `ReadUnicodeEscape`, `SkipFraction`, `SkipExponent` and `Negated`. Each is one part of a loop or branch of the source, made a method of its own. They do what the source does in place, in the same order.
- Parsing.Parser: has a ghost field `index` for the position of the current token in the stream. The source has no such field; it only serves the proofs.
- Lexing.Lexer.Negated: copies into an array of runes as the source does. Go's string conversion of the result is the sequence itself.
- Lexing.QuoteRune: writes every rune from U+0080 on as it is. strconv.Quote writes the ones that unicode.IsPrint rejects as \u or \U escapes; Unicode's printability tables are not modelled. For ASCII runes the model writes what strconv.Quote writes.
- Call-stack depth is unbounded in the model; Go's stack limit on deeply nested input is not modelled.
