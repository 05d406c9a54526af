/**
 * The token vocabulary shared by the lexer and the parser (token/token.go).
 */
module Tokens {

  /**
   * The kinds of token. Illegal through RBrace are the constants that
   * token/token.go declares (Semicolon is declared there but the lexer never
   * produces it). Number, String, True, False and Null are the further kinds
   * the lexer hands out. Unset is Go's zero TokenType, the empty string: it is
   * the kind of the token that NextToken returns beside a lexical error.
   */
  datatype TokenType =
    | Illegal | Eof | Ident | Comma | Semicolon | Colon
    | LBracket | RBracket | LBrace | RBrace
    | Number | String | True | False | Null
    | Unset

  /** A token: its kind and its literal text (decoded, for strings). */
  datatype Token = Token(kind: TokenType, literal: string)

  /** Go's zero-valued token.Token{}. */
  const ZeroToken: Token := Token(Unset, "")

  /** The token the lexer hands out at end of input. */
  const EofToken: Token := Token(Eof, "")

  /**
   * Classifies an identifier: the three keywords of JSON get their own kinds,
   * every other word is an Ident.
   */
  function LookupIdent(ident: string): (t: TokenType)
    ensures t == True <==> ident == "true"
    ensures t == False <==> ident == "false"
    ensures t == Null <==> ident == "null"
    ensures t == Ident <==> ident !in {"true", "false", "null"}
  {
    if ident == "true" then True
    else if ident == "false" then False
    else if ident == "null" then Null
    else Ident
  }
}
