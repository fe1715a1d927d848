/** Token kinds, tokens and the errors the pipeline raises (main.py:1-22, 53-54, 117-118). */
module Tokens {

  import opened Wrappers

  /** `Tokentype`: the eight kinds of token. */
  datatype TokenType = Integer | Plus | Minus | Mul | Div | Eof | LParen | RParen

  /** What a token carries: the integer of an INTEGER token, the character of an
      operator or parenthesis, nothing (Python `None`) for EOF. */
  datatype TokenValue = IntValue(n: nat) | CharValue(c: char) | NoValue

  datatype Token = Token(kind: TokenType, value: TokenValue)

  const EofToken := Token(Eof, NoValue)

  /** The exceptions raised along the pipeline.  The source raises plain
      `Exception`s with a message and no further payload. */
  datatype Error =
    | InvalidCharacter   // Lexer.error
    | InvalidSyntax      // Parser.error
    | NoVisitMethod      // NodeVisitor.generic_visit, reached only by a missing (None) node
    | ZeroDivision       // Python's ZeroDivisionError from `/`

  /** The character a one-character token is spelled with. */
  function SymbolOf(k: TokenType): (c: char)
    requires k != Integer && k != Eof
  {
    match k
    case Plus => '+'
    case Minus => '-'
    case Mul => '*'
    case Div => '/'
    case LParen => '('
    case RParen => ')'
  }

  /** The one-character token kind a character stands for, if any. */
  function SymbolKind(c: char): (k: Option<TokenType>)
    ensures k.Some? ==> k.value != Integer && k.value != Eof && SymbolOf(k.value) == c
    ensures k.None? ==> c !in {'+', '-', '*', '/', '(', ')'}
  {
    if c == '+' then Some(Plus)
    else if c == '-' then Some(Minus)
    else if c == '*' then Some(Mul)
    else if c == '/' then Some(Div)
    else if c == '(' then Some(LParen)
    else if c == ')' then Some(RParen)
    else None
  }

  /** SymbolKind undoes SymbolOf: every one-character kind is recognised from its spelling. */
  lemma SymbolRoundTrip(k: TokenType)
    requires k != Integer && k != Eof
    ensures SymbolKind(SymbolOf(k)) == Some(k)
  {
  }

  /** A token as the lexer builds it: INTEGER tokens carry their integer, the
      one-character kinds their character, EOF nothing. */
  predicate WellFormed(t: Token) {
    match t.kind
    case Integer => t.value.IntValue?
    case Eof => t.value == NoValue
    case _ => t.value == CharValue(SymbolOf(t.kind))
  }

  /** Tokens the lexer can hand out before EOF. */
  predicate Printable(p: seq<Token>) {
    forall k :: 0 <= k < |p| ==> WellFormed(p[k]) && p[k].kind != Eof
  }

  /** What the lexer yields from some position on: the tokens before EOF, and
      whether the text then ends (AtEof) or an invalid character stops it (BadChar). */
  datatype StreamEnd = AtEof | BadChar

  datatype TokenStream = TokenStream(tokens: seq<Token>, end: StreamEnd)
}
