/** What the recursive-descent parser computes (main.py:112-168), as functions
    over the token stream the lexer would hand out.  A parser state is the index
    of the look-ahead token `current_token` in that stream. */
module ParseSpec {

  import opened Wrappers
  import opened Tokens
  import opened Ast

  /** Every INTEGER token carries its integer. */
  predicate WellFormedStream(s: TokenStream) {
    forall k :: 0 <= k < |s.tokens| ==> WellFormed(s.tokens[k])
  }

  /** Index `i` names a token the lexer hands out without raising: one of the
      tokens, or the EOF after them. */
  predicate HasLookahead(s: TokenStream, i: nat) {
    i < |s.tokens| || (i == |s.tokens| && s.end == AtEof)
  }

  /** The look-ahead token at index `i`. */
  function Current(s: TokenStream, i: nat): Token
    requires HasLookahead(s, i)
  {
    if i < |s.tokens| then s.tokens[i] else EofToken
  }

  /** The index of the token pulled after index `i` (EOF is pulled again and again). */
  function Following(s: TokenStream, i: nat): nat
    requires HasLookahead(s, i)
  {
    if i < |s.tokens| then i + 1 else i
  }

  /** `eat(kind)`: advance exactly when the look-ahead has that kind; otherwise
      "Invalid syntax".  Pulling the next token may itself raise "Invalid character". */
  function Eat(s: TokenStream, i: nat, kind: TokenType): (r: Result<nat, Error>)
    requires HasLookahead(s, i)
    ensures r.Ok? <==> Current(s, i).kind == kind && HasLookahead(s, Following(s, i))
    ensures r.Ok? ==> r.value == Following(s, i)
    ensures r.Err? ==> r.error == if Current(s, i).kind == kind then InvalidCharacter else InvalidSyntax
  {
    if Current(s, i).kind != kind then Err(InvalidSyntax)
    else if HasLookahead(s, Following(s, i)) then Ok(Following(s, i))
    else Err(InvalidCharacter)
  }

  /** The two exceptions parsing can raise: the lexer's, when a token is pulled,
      and the parser's own. */
  predicate ParserError(e: Error) {
    e == InvalidCharacter || e == InvalidSyntax
  }

  /** A parsed (possibly missing) node and the index of the look-ahead after it. */
  datatype Parsed = Parsed(node: Option<Node>, next: nat)

  /** `factor`: a unary sign applied to a factor, an integer, or a parenthesised
      expression; any other token gives no node (`None`) and consumes nothing. */
  function Factor(s: TokenStream, i: nat): (r: Result<Parsed, Error>)
    requires WellFormedStream(s) && HasLookahead(s, i)
    ensures r.Ok? ==> i <= r.value.next && HasLookahead(s, r.value.next)
    ensures r.Err? ==> ParserError(r.error)
    decreases |s.tokens| - i, 0
  {
    var token := Current(s, i);
    if token.kind == Plus || token.kind == Minus then
      var j :- Eat(s, i, token.kind);
      var p :- Factor(s, j);
      Ok(Parsed(Some(UnaryOp(token.kind, p.node)), p.next))
    else if token.kind == Integer then
      var j :- Eat(s, i, Integer);
      Ok(Parsed(Some(Num(token.value.n)), j))
    else if token.kind == LParen then
      var j :- Eat(s, i, LParen);
      var p :- Expr(s, j);
      var k :- Eat(s, p.next, RParen);
      Ok(Parsed(p.node, k))
    else
      Ok(Parsed(None, i))
  }

  /** `term`: a factor, then any number of `* factor` or `/ factor`, folded to the left. */
  function Term(s: TokenStream, i: nat): (r: Result<Parsed, Error>)
    requires WellFormedStream(s) && HasLookahead(s, i)
    ensures r.Ok? ==> i <= r.value.next && HasLookahead(s, r.value.next)
    ensures r.Err? ==> ParserError(r.error)
    decreases |s.tokens| - i, 2
  {
    var p :- Factor(s, i);
    TermLoop(s, p.node, p.next)
  }

  /** The `while` loop of `term`, with `node` the tree folded so far. */
  function TermLoop(s: TokenStream, node: Option<Node>, i: nat): (r: Result<Parsed, Error>)
    requires WellFormedStream(s) && HasLookahead(s, i)
    ensures r.Ok? ==> i <= r.value.next && HasLookahead(s, r.value.next)
    ensures r.Err? ==> ParserError(r.error)
    ensures r.Ok? ==> Current(s, r.value.next).kind != Mul && Current(s, r.value.next).kind != Div
    decreases |s.tokens| - i, 1
  {
    var token := Current(s, i);
    if token.kind == Mul || token.kind == Div then
      var j :- Eat(s, i, token.kind);
      var p :- Factor(s, j);
      TermLoop(s, Some(BinOp(node, token.kind, p.node)), p.next)
    else
      Ok(Parsed(node, i))
  }

  /** `expr`: a term, then any number of `+ term` or `- term`, folded to the left. */
  function Expr(s: TokenStream, i: nat): (r: Result<Parsed, Error>)
    requires WellFormedStream(s) && HasLookahead(s, i)
    ensures r.Ok? ==> i <= r.value.next && HasLookahead(s, r.value.next)
    ensures r.Err? ==> ParserError(r.error)
    decreases |s.tokens| - i, 3
  {
    var p :- Term(s, i);
    ExprLoop(s, p.node, p.next)
  }

  /** The `while` loop of `expr`, with `node` the tree folded so far. */
  function ExprLoop(s: TokenStream, node: Option<Node>, i: nat): (r: Result<Parsed, Error>)
    requires WellFormedStream(s) && HasLookahead(s, i)
    ensures r.Ok? ==> i <= r.value.next && HasLookahead(s, r.value.next)
    ensures r.Err? ==> ParserError(r.error)
    ensures r.Ok? ==> Current(s, r.value.next).kind != Plus && Current(s, r.value.next).kind != Minus
    decreases |s.tokens| - i, 1
  {
    var token := Current(s, i);
    if token.kind == Plus || token.kind == Minus then
      var j :- Eat(s, i, token.kind);
      var p :- Term(s, j);
      ExprLoop(s, Some(BinOp(node, token.kind, p.node)), p.next)
    else
      Ok(Parsed(node, i))
  }

  /** The node of a parse, or its error. */
  function NodeOf(r: Result<Parsed, Error>): Result<Option<Node>, Error> {
    match r
    case Ok(p) => Ok(p.node)
    case Err(e) => Err(e)
  }

  /** `Parser(lexer).parse()`: pull the first look-ahead token, then one `expr`.
      Nothing checks that EOF follows. */
  function Parse(s: TokenStream): (r: Result<Option<Node>, Error>)
    requires WellFormedStream(s)
    ensures !HasLookahead(s, 0) ==> r == Err(InvalidCharacter)
    ensures r.Err? ==> ParserError(r.error)
  {
    if !HasLookahead(s, 0) then Err(InvalidCharacter) else NodeOf(Expr(s, 0))
  }

  // ---- One step of each production, for proofs about printed token sequences ----

  /** `factor` at a sign: the sign, then the factor that follows it. */
  lemma FactorSigned(s: TokenStream, i: nat, operand: Parsed)
    requires WellFormedStream(s) && HasLookahead(s, i) && HasLookahead(s, i + 1)
    requires Current(s, i).kind == Plus || Current(s, i).kind == Minus
    requires Factor(s, i + 1) == Ok(operand)
    ensures Factor(s, i) == Ok(Parsed(Some(UnaryOp(Current(s, i).kind, operand.node)), operand.next))
  {
  }

  /** `factor` at an integer: a leaf, and the look-ahead moves past it. */
  lemma FactorInteger(s: TokenStream, i: nat)
    requires WellFormedStream(s) && HasLookahead(s, i) && HasLookahead(s, i + 1)
    requires Current(s, i).kind == Integer
    ensures Factor(s, i) == Ok(Parsed(Some(Num(Current(s, i).value.n)), i + 1))
  {
  }

  /** `factor` at `(`: the expression inside, then the `)` that closes it. */
  lemma FactorParenthesised(s: TokenStream, i: nat, inner: Parsed)
    requires WellFormedStream(s) && HasLookahead(s, i) && HasLookahead(s, i + 1)
    requires Current(s, i).kind == LParen && Expr(s, i + 1) == Ok(inner)
    requires HasLookahead(s, inner.next) && HasLookahead(s, inner.next + 1)
    requires Current(s, inner.next).kind == RParen
    ensures Factor(s, i) == Ok(Parsed(inner.node, inner.next + 1))
  {
  }

  /** `factor` at a `(` whose expression is not followed by `)`: "Invalid syntax". */
  lemma FactorUnclosed(s: TokenStream, i: nat, inner: Parsed)
    requires WellFormedStream(s) && HasLookahead(s, i) && HasLookahead(s, i + 1)
    requires Current(s, i).kind == LParen && Expr(s, i + 1) == Ok(inner)
    requires HasLookahead(s, inner.next) && Current(s, inner.next).kind != RParen
    ensures Factor(s, i) == Err(InvalidSyntax)
  {
  }

  /** `factor` at a token that cannot start one: no node, and nothing consumed. */
  lemma FactorMissing(s: TokenStream, i: nat)
    requires WellFormedStream(s) && HasLookahead(s, i)
    requires Current(s, i).kind !in {Plus, Minus, Integer, LParen}
    ensures Factor(s, i) == Ok(Parsed(None, i))
  {
  }

  /** `term` enters its loop with the first factor's tree. */
  lemma TermEntry(s: TokenStream, i: nat, first: Parsed)
    requires WellFormedStream(s) && HasLookahead(s, i) && Factor(s, i) == Ok(first)
    ensures Term(s, i) == TermLoop(s, first.node, first.next)
  {
  }

  /** `expr` enters its loop with the first term's tree. */
  lemma ExprEntry(s: TokenStream, i: nat, first: Parsed)
    requires WellFormedStream(s) && HasLookahead(s, i) && Term(s, i) == Ok(first)
    ensures Expr(s, i) == ExprLoop(s, first.node, first.next)
  {
  }

  /** An error in the first factor is the error of `term` and of `expr`. */
  lemma FirstFactorFails(s: TokenStream, i: nat)
    requires WellFormedStream(s) && HasLookahead(s, i) && Factor(s, i).Err?
    ensures Term(s, i) == Err(Factor(s, i).error)
    ensures Expr(s, i) == Err(Factor(s, i).error)
  {
  }

  /** The loop of `term` stops at any look-ahead other than `*` and `/`. */
  lemma TermLoopStops(s: TokenStream, node: Option<Node>, i: nat)
    requires WellFormedStream(s) && HasLookahead(s, i)
    requires Current(s, i).kind != Mul && Current(s, i).kind != Div
    ensures TermLoop(s, node, i) == Ok(Parsed(node, i))
  {
  }

  /** The loop of `expr` stops at any look-ahead other than `+` and `-`. */
  lemma ExprLoopStops(s: TokenStream, node: Option<Node>, i: nat)
    requires WellFormedStream(s) && HasLookahead(s, i)
    requires Current(s, i).kind != Plus && Current(s, i).kind != Minus
    ensures ExprLoop(s, node, i) == Ok(Parsed(node, i))
  {
  }

  /** One turn of the loop of `term`: after a `*` or `/` at `i` and the factor
      that follows it, the loop goes on with the tree folded one level deeper. */
  lemma TermLoopTurn(s: TokenStream, node: Option<Node>, i: nat, right: Parsed)
    requires WellFormedStream(s) && HasLookahead(s, i) && HasLookahead(s, i + 1)
    requires Current(s, i).kind == Mul || Current(s, i).kind == Div
    requires Factor(s, i + 1) == Ok(right)
    ensures TermLoop(s, node, i) == TermLoop(s, Some(BinOp(node, Current(s, i).kind, right.node)), right.next)
  {
  }

  /** One turn of the loop of `expr`: after a `+` or `-` at `i` and the term
      that follows it, the loop goes on with the tree folded one level deeper. */
  lemma ExprLoopTurn(s: TokenStream, node: Option<Node>, i: nat, right: Parsed)
    requires WellFormedStream(s) && HasLookahead(s, i) && HasLookahead(s, i + 1)
    requires Current(s, i).kind == Plus || Current(s, i).kind == Minus
    requires Term(s, i + 1) == Ok(right)
    ensures ExprLoop(s, node, i) == ExprLoop(s, Some(BinOp(node, Current(s, i).kind, right.node)), right.next)
  {
  }
}
