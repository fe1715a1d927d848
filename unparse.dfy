/** A printer for complete trees that writes only the parentheses precedence and
    left associativity require, and the proof that lexing and parsing its output
    gives back the tree: the tree `parse` builds is fully determined by
    precedence and associativity. */
module Unparse {

  import opened Wrappers
  import opened Tokens
  import opened LexSpec
  import opened Ast
  import PS = ParseSpec
  import opened Interpreting
  import opened Spelling

  predicate Additive(t: Node) {
    t.BinOp? && (t.op == Plus || t.op == Minus)
  }

  predicate Multiplicative(t: Node) {
    t.BinOp? && (t.op == Mul || t.op == Div)
  }

  /** The token the lexer makes of the spelling of an operator or parenthesis. */
  function Symbol(k: TokenType): Token
    requires k != Integer && k != Eof
  {
    Token(k, CharValue(SymbolOf(k)))
  }

  /** `expr` level: a chain of `+`/`-` is written without parentheses on the left. */
  function ExprTokens(t: Node): (p: seq<Token>)
    requires CompleteNode(t)
    ensures p != []
    decreases t, if Additive(t) then 0 else if t.BinOp? then 1 else 3
  {
    if Additive(t) then ExprTokens(t.left.value) + [Symbol(t.op)] + TermTokens(t.right.value)
    else TermTokens(t)
  }

  /** `term` level: a chain of `*`/`/` is written without parentheses on the left. */
  function TermTokens(t: Node): (p: seq<Token>)
    requires CompleteNode(t)
    ensures p != []
    decreases t, if Multiplicative(t) then 0 else if t.BinOp? then 4 else 2
  {
    if Multiplicative(t) then TermTokens(t.left.value) + [Symbol(t.op)] + FactorTokens(t.right.value)
    else FactorTokens(t)
  }

  /** `factor` level: numbers, signs, and any binary operation in parentheses. */
  function FactorTokens(t: Node): (p: seq<Token>)
    requires CompleteNode(t)
    ensures p != []
    decreases t, if Additive(t) then 1 else if t.BinOp? then 2 else 0
  {
    match t
    case Num(v) => [Token(Integer, IntValue(v))]
    case UnaryOp(sign, x) => [Symbol(sign)] + FactorTokens(x.value)
    case BinOp(_, _, _) => Parenthesised(ExprTokens(t))
  }

  /** The tokens of stream `s` from index `i` on start with `p`. */
  predicate At(s: TokenStream, i: nat, p: seq<Token>)
    decreases |p|
  {
    if p == [] then i <= |s.tokens|
    else i < |s.tokens| && s.tokens[i] == p[0] && At(s, i + 1, p[1..])
  }

  /** A stream holding `a + b` at `i` holds `a` at `i` and `b` right after it. */
  lemma {:induction false} AtSplit(s: TokenStream, i: nat, a: seq<Token>, b: seq<Token>)
    requires At(s, i, a + b)
    ensures At(s, i, a) && At(s, i + |a|, b)
    decreases |a|
  {
    if a == [] {
      assert a + b == b;
      if b != [] {
        assert i < |s.tokens|;
      }
    } else {
      assert (a + b)[0] == a[0];
      assert (a + b)[1..] == a[1..] + b;
      AtSplit(s, i + 1, a[1..], b);
    }
  }

  /** The look-ahead at the start of a non-empty `p` is its first token. */
  lemma HeadAt(s: TokenStream, i: nat, p: seq<Token>)
    requires At(s, i, p) && p != []
    ensures PS.HasLookahead(s, i) && PS.Current(s, i) == p[0]
  {
  }

  /** A stream that holds `a`, then `op`, then `b` from index `i` has `op` as
      its look-ahead right after `a`. */
  lemma OperatorAt(s: TokenStream, i: nat, a: seq<Token>, op: Token, b: seq<Token>)
    requires At(s, i, a + [op] + b)
    ensures At(s, i, a) && At(s, i + |a| + 1, b)
    ensures PS.HasLookahead(s, i + |a|) && PS.Current(s, i + |a|) == op
  {
    AtSplit(s, i, a + [op], b);
    AtSplit(s, i, a, [op]);
    HeadAt(s, i + |a|, [op]);
  }

  /** Parsing a printed factor that ends at `e` gives back its tree, with the
      look-ahead at `e`. */
  lemma {:induction false} FactorParses(s: TokenStream, i: nat, t: Node, e: nat)
    requires PS.WellFormedStream(s) && CompleteNode(t)
    requires At(s, i, FactorTokens(t)) && e == i + |FactorTokens(t)| && PS.HasLookahead(s, e)
    ensures PS.Factor(s, i) == Ok(PS.Parsed(Some(t), e))
    decreases t, if Additive(t) then 4 else if t.BinOp? then 5 else 1
  {
    match t
    case Num(v) =>
      HeadAt(s, i, FactorTokens(t));
      PS.FactorInteger(s, i);
    case UnaryOp(_, _) =>
      SignedParses(s, i, t, e);
    case BinOp(_, _, _) =>
      assert FactorTokens(t) == Parenthesised(ExprTokens(t));
      ParenthesisedParses(s, i, t, e);
  }

  /** The sign case of FactorParses. */
  lemma {:induction false} SignedParses(s: TokenStream, i: nat, t: Node, e: nat)
    requires PS.WellFormedStream(s) && CompleteNode(t) && t.UnaryOp?
    requires At(s, i, FactorTokens(t)) && e == i + |FactorTokens(t)| && PS.HasLookahead(s, e)
    ensures PS.Factor(s, i) == Ok(PS.Parsed(Some(t), e))
    decreases t, 0
  {
    var x := t.right.value;
    AtSplit(s, i, [Symbol(t.sign)], FactorTokens(x));
    HeadAt(s, i, [Symbol(t.sign)]);
    FactorParses(s, i + 1, x, e);
    PS.FactorSigned(s, i, PS.Parsed(Some(x), e));
  }

  /** Parsing a parenthesised printed expression that ends at `e` gives back
      its tree as one factor; this is the parenthesis case of FactorParses. */
  lemma {:induction false} ParenthesisedParses(s: TokenStream, i: nat, t: Node, e: nat)
    requires PS.WellFormedStream(s) && CompleteNode(t)
    requires At(s, i, Parenthesised(ExprTokens(t))) && e == i + |ExprTokens(t)| + 2
    requires PS.HasLookahead(s, e)
    ensures PS.Factor(s, i) == Ok(PS.Parsed(Some(t), e))
    decreases t, if Additive(t) then 3 else 4
  {
    var inner := ExprTokens(t);
    var open, close := Token(LParen, CharValue('(')), Token(RParen, CharValue(')'));
    AtSplit(s, i, [open] + inner, [close]);
    AtSplit(s, i, [open], inner);
    var j := i + 1 + |inner|;
    HeadAt(s, i, [open]);
    HeadAt(s, j, [close]);
    ExprParses(s, i + 1, t, j);
    PS.ExprLoopStops(s, Some(t), j);
    PS.FactorParenthesised(s, i, PS.Parsed(Some(t), j));
  }

  /** How the tokens of a `*`/`/` node lie in the stream: its left operand's
      term, the operator as look-ahead, then its right operand's factor. */
  lemma TermLayout(s: TokenStream, i: nat, t: Node)
    requires CompleteNode(t) && Multiplicative(t) && At(s, i, TermTokens(t))
    ensures var j := i + |TermTokens(t.left.value)|;
            && At(s, i, TermTokens(t.left.value))
            && PS.HasLookahead(s, j) && PS.Current(s, j) == Symbol(t.op)
            && At(s, j + 1, FactorTokens(t.right.value))
            && |TermTokens(t)| == |TermTokens(t.left.value)| + 1 + |FactorTokens(t.right.value)|
  {
    OperatorAt(s, i, TermTokens(t.left.value), Symbol(t.op), FactorTokens(t.right.value));
  }

  /** Parsing a printed term that ends at `e` reaches the loop of `term` at `e`
      with its tree folded. */
  lemma {:induction false} TermParses(s: TokenStream, i: nat, t: Node, e: nat)
    requires PS.WellFormedStream(s) && CompleteNode(t)
    requires At(s, i, TermTokens(t)) && e == i + |TermTokens(t)| && PS.HasLookahead(s, e)
    ensures PS.Term(s, i) == PS.TermLoop(s, Some(t), e)
    decreases t, if Multiplicative(t) then 2 else if t.BinOp? then 5 else 2
  {
    if Multiplicative(t) {
      TermLayout(s, i, t);
      TermStep(s, i, t, i + |TermTokens(t.left.value)|, e);
    } else {
      assert TermTokens(t) == FactorTokens(t);
      FactorParses(s, i, t, e);
      PS.TermEntry(s, i, PS.Parsed(Some(t), e));
    }
  }

  /** The `*`/`/` case of TermParses, with the operator at `j`: the left
      operand's term, then one more turn of the loop of `term`. */
  lemma {:induction false} TermStep(s: TokenStream, i: nat, t: Node, j: nat, e: nat)
    requires PS.WellFormedStream(s) && CompleteNode(t) && Multiplicative(t)
    requires At(s, i, TermTokens(t.left.value)) && j == i + |TermTokens(t.left.value)|
    requires PS.HasLookahead(s, j) && PS.Current(s, j) == Symbol(t.op)
    requires At(s, j + 1, FactorTokens(t.right.value)) && e == j + 1 + |FactorTokens(t.right.value)|
    requires PS.HasLookahead(s, e)
    ensures PS.Term(s, i) == PS.TermLoop(s, Some(t), e)
    decreases t, 1
  {
    TermParses(s, i, t.left.value, j);
    TermTurn(s, j, t, e);
  }

  /** One turn of the loop of `term` over the operator at `j` and the right
      operand of a `*`/`/` node folds the left operand into that node. */
  lemma {:induction false} TermTurn(s: TokenStream, j: nat, t: Node, e: nat)
    requires PS.WellFormedStream(s) && CompleteNode(t) && Multiplicative(t)
    requires PS.HasLookahead(s, j) && PS.Current(s, j) == Symbol(t.op)
    requires At(s, j + 1, FactorTokens(t.right.value)) && e == j + 1 + |FactorTokens(t.right.value)|
    requires PS.HasLookahead(s, e)
    ensures PS.TermLoop(s, t.left, j) == PS.TermLoop(s, Some(t), e)
    decreases t, 0
  {
    var r := t.right.value;
    FactorParses(s, j + 1, r, e);
    PS.TermLoopTurn(s, t.left, j, PS.Parsed(Some(r), e));
  }

  /** Parsing a printed expression that ends at `e`, followed by anything but
      `*` or `/`, reaches the loop of `expr` at `e` with its tree folded. */
  lemma {:induction false} ExprParses(s: TokenStream, i: nat, t: Node, e: nat)
    requires PS.WellFormedStream(s) && CompleteNode(t)
    requires At(s, i, ExprTokens(t)) && e == i + |ExprTokens(t)| && PS.HasLookahead(s, e)
    requires PS.Current(s, e).kind != Mul && PS.Current(s, e).kind != Div
    ensures PS.Expr(s, i) == PS.ExprLoop(s, Some(t), e)
    decreases t, if Additive(t) then 2 else 3
  {
    if Additive(t) {
      ExprLayout(s, i, t);
      ExprStep(s, i, t, i + |ExprTokens(t.left.value)|, e);
    } else {
      assert ExprTokens(t) == TermTokens(t);
      TermParses(s, i, t, e);
      PS.TermLoopStops(s, Some(t), e);
      PS.ExprEntry(s, i, PS.Parsed(Some(t), e));
    }
  }

  /** How the tokens of a `+`/`-` node lie in the stream: its left operand's
      expression, the operator as look-ahead, then its right operand's term. */
  lemma ExprLayout(s: TokenStream, i: nat, t: Node)
    requires CompleteNode(t) && Additive(t) && At(s, i, ExprTokens(t))
    ensures var j := i + |ExprTokens(t.left.value)|;
            && At(s, i, ExprTokens(t.left.value))
            && PS.HasLookahead(s, j) && PS.Current(s, j) == Symbol(t.op)
            && At(s, j + 1, TermTokens(t.right.value))
            && |ExprTokens(t)| == |ExprTokens(t.left.value)| + 1 + |TermTokens(t.right.value)|
  {
    OperatorAt(s, i, ExprTokens(t.left.value), Symbol(t.op), TermTokens(t.right.value));
  }

  /** The `+`/`-` case of ExprParses, with the operator at `j`: the left
      operand's expression, then one more turn of the loop of `expr`. */
  lemma {:induction false} ExprStep(s: TokenStream, i: nat, t: Node, j: nat, e: nat)
    requires PS.WellFormedStream(s) && CompleteNode(t) && Additive(t)
    requires At(s, i, ExprTokens(t.left.value)) && j == i + |ExprTokens(t.left.value)|
    requires PS.HasLookahead(s, j) && PS.Current(s, j) == Symbol(t.op)
    requires At(s, j + 1, TermTokens(t.right.value)) && e == j + 1 + |TermTokens(t.right.value)|
    requires PS.HasLookahead(s, e) && PS.Current(s, e).kind != Mul && PS.Current(s, e).kind != Div
    ensures PS.Expr(s, i) == PS.ExprLoop(s, Some(t), e)
    decreases t, 1
  {
    ExprParses(s, i, t.left.value, j);
    ExprTurn(s, j, t, e);
  }

  /** One turn of the loop of `expr` over the operator at `j` and the right
      operand of a `+`/`-` node folds the left operand into that node. */
  lemma {:induction false} ExprTurn(s: TokenStream, j: nat, t: Node, e: nat)
    requires PS.WellFormedStream(s) && CompleteNode(t) && Additive(t)
    requires PS.HasLookahead(s, j) && PS.Current(s, j) == Symbol(t.op)
    requires At(s, j + 1, TermTokens(t.right.value)) && e == j + 1 + |TermTokens(t.right.value)|
    requires PS.HasLookahead(s, e) && PS.Current(s, e).kind != Mul && PS.Current(s, e).kind != Div
    ensures PS.ExprLoop(s, t.left, j) == PS.ExprLoop(s, Some(t), e)
    decreases t, 0
  {
    var r := t.right.value;
    TermParses(s, j + 1, r, e);
    PS.TermLoopStops(s, Some(r), e);
    PS.ExprLoopTurn(s, t.left, j, PS.Parsed(Some(r), e));
  }

  // ---- Printed tokens are tokens the lexer hands out ----

  lemma PrintableConcat(a: seq<Token>, b: seq<Token>)
    requires Printable(a) && Printable(b)
    ensures Printable(a + b)
  {
    forall k | 0 <= k < |a + b|
      ensures WellFormed((a + b)[k]) && (a + b)[k].kind != Eof
    {
      if k < |a| {
        assert (a + b)[k] == a[k];
      } else {
        assert (a + b)[k] == b[k - |a|];
      }
    }
  }

  lemma {:induction false} ExprPrintable(t: Node)
    requires CompleteNode(t)
    ensures Printable(ExprTokens(t))
    decreases t, if Additive(t) then 0 else if t.BinOp? then 1 else 3
  {
    if Additive(t) {
      ExprPrintable(t.left.value);
      TermPrintable(t.right.value);
      PrintableConcat(ExprTokens(t.left.value), [Symbol(t.op)]);
      PrintableConcat(ExprTokens(t.left.value) + [Symbol(t.op)], TermTokens(t.right.value));
    } else {
      TermPrintable(t);
    }
  }

  lemma {:induction false} TermPrintable(t: Node)
    requires CompleteNode(t)
    ensures Printable(TermTokens(t))
    decreases t, if Multiplicative(t) then 0 else if t.BinOp? then 4 else 2
  {
    if Multiplicative(t) {
      TermPrintable(t.left.value);
      FactorPrintable(t.right.value);
      PrintableConcat(TermTokens(t.left.value), [Symbol(t.op)]);
      PrintableConcat(TermTokens(t.left.value) + [Symbol(t.op)], FactorTokens(t.right.value));
    } else {
      FactorPrintable(t);
    }
  }

  lemma {:induction false} FactorPrintable(t: Node)
    requires CompleteNode(t)
    ensures Printable(FactorTokens(t))
    decreases t, if Additive(t) then 1 else if t.BinOp? then 2 else 0
  {
    match t
    case Num(_) =>
    case UnaryOp(sign, x) =>
      FactorPrintable(x.value);
      PrintableConcat([Symbol(sign)], FactorTokens(x.value));
    case BinOp(_, _, _) =>
      var open, close := Token(LParen, CharValue('(')), Token(RParen, CharValue(')'));
      ExprPrintable(t);
      PrintableConcat([open], ExprTokens(t));
      PrintableConcat([open] + ExprTokens(t), [close]);
  }

  // ---- Parsing a whole printed expression ----

  /** A stream holds its own tokens between any two indices. */
  lemma {:induction false} AtSlice(s: TokenStream, i: nat, j: nat)
    requires i <= j <= |s.tokens|
    ensures At(s, i, s.tokens[i..j])
    decreases j - i
  {
    if i < j {
      assert s.tokens[i..j][0] == s.tokens[i];
      assert s.tokens[i..j][1..] == s.tokens[i + 1..j];
      AtSlice(s, i + 1, j);
    }
  }

  /** What may follow a printed expression without changing its parse: the end
      of the text, or a token that neither `term` nor `expr` would continue with. */
  predicate Stops(rest: seq<Token>, end: StreamEnd) {
    if rest == [] then end == AtEof
    else rest[0].kind !in {Plus, Minus, Mul, Div}
  }

  /** Printed tokens in front of a well-formed stream: the stream stays
      well-formed, holds them from index 0, and its look-ahead after them is
      what followed. */
  lemma InFront(p: seq<Token>, rest: seq<Token>, end: StreamEnd)
    requires Printable(p) && PS.WellFormedStream(TokenStream(rest, end)) && Stops(rest, end)
    ensures var s := TokenStream(p + rest, end);
            && PS.WellFormedStream(s) && At(s, 0, p)
            && PS.HasLookahead(s, |p|)
            && PS.Current(s, |p|).kind !in {Plus, Minus, Mul, Div}
  {
    var s := TokenStream(p + rest, end);
    forall k | 0 <= k < |s.tokens|
      ensures WellFormed(s.tokens[k])
    {
      if k < |p| { assert s.tokens[k] == p[k]; } else { assert s.tokens[k] == rest[k - |p|]; }
    }
    AtSlice(s, 0, |p|);
    assert s.tokens[0..|p|] == p;
    if rest != [] {
      assert s.tokens[|p|] == rest[0];
    }
  }

  /** `parse` gives back every complete tree from its printed tokens, and ignores
      whatever follows them when that cannot continue the expression. */
  lemma ParsePrinted(t: Node, rest: seq<Token>, end: StreamEnd)
    requires CompleteNode(t) && PS.WellFormedStream(TokenStream(rest, end)) && Stops(rest, end)
    ensures PS.WellFormedStream(TokenStream(ExprTokens(t) + rest, end))
    ensures PS.Parse(TokenStream(ExprTokens(t) + rest, end)) == Ok(Some(t))
  {
    var p := ExprTokens(t);
    var s := TokenStream(p + rest, end);
    ExprPrintable(t);
    InFront(p, rest, end);
    HeadAt(s, 0, p);
    ExprParses(s, 0, t, |p|);
    PS.ExprLoopStops(s, Some(t), |p|);
  }

  /** The tokens of a parenthesised expression. */
  function Parenthesised(p: seq<Token>): (q: seq<Token>)
    ensures |q| == |p| + 2 && q[0].kind == LParen && q[|q| - 1].kind == RParen
  {
    [Token(LParen, CharValue('('))] + p + [Token(RParen, CharValue(')'))]
  }

  /** A parenthesised printed expression at the front of a stream is one
      factor, one term and one expression. */
  lemma ParenthesisedExpr(s: TokenStream, t: Node)
    requires PS.WellFormedStream(s) && CompleteNode(t)
    requires At(s, 0, Parenthesised(ExprTokens(t)))
    requires PS.HasLookahead(s, |ExprTokens(t)| + 2)
    requires PS.Current(s, |ExprTokens(t)| + 2).kind !in {Plus, Minus, Mul, Div}
    ensures PS.Expr(s, 0) == Ok(PS.Parsed(Some(t), |ExprTokens(t)| + 2))
  {
    var e := |ExprTokens(t)| + 2;
    ParenthesisedParses(s, 0, t, e);
    PS.TermEntry(s, 0, PS.Parsed(Some(t), e));
    PS.TermLoopStops(s, Some(t), e);
    PS.ExprEntry(s, 0, PS.Parsed(Some(t), e));
    PS.ExprLoopStops(s, Some(t), e);
  }

  /** Wrapping a printed expression in parentheses does not change its parse. */
  lemma ParenthesesTransparent(t: Node, rest: seq<Token>, end: StreamEnd)
    requires CompleteNode(t) && PS.WellFormedStream(TokenStream(rest, end)) && Stops(rest, end)
    ensures PS.WellFormedStream(TokenStream(Parenthesised(ExprTokens(t)) + rest, end))
    ensures PS.Parse(TokenStream(Parenthesised(ExprTokens(t)) + rest, end)) == Ok(Some(t))
  {
    var p := ExprTokens(t);
    var open, close := Token(LParen, CharValue('(')), Token(RParen, CharValue(')'));
    ExprPrintable(t);
    PrintableConcat([open], p);
    PrintableConcat([open] + p, [close]);
    InFront(Parenthesised(p), rest, end);
    ParenthesisedExpr(TokenStream(Parenthesised(p) + rest, end), t);
  }

  /** An opened parenthesis that the text never closes is "Invalid syntax",
      whatever complete expression it holds. */
  lemma UnclosedParenthesis(t: Node)
    requires CompleteNode(t)
    ensures var p := [Token(LParen, CharValue('('))] + ExprTokens(t);
            && PS.WellFormedStream(TokenStream(p, AtEof))
            && PS.Parse(TokenStream(p, AtEof)) == Err(InvalidSyntax)
  {
    var open := Token(LParen, CharValue('('));
    var inner := ExprTokens(t);
    var p := [open] + inner;
    var s := TokenStream(p, AtEof);
    ExprPrintable(t);
    PrintableConcat([open], inner);
    assert p + [] == p;
    InFront(p, [], AtEof);
    AtSplit(s, 0, [open], inner);
    HeadAt(s, 0, [open]);
    ExprParses(s, 1, t, |p|);
    PS.ExprLoopStops(s, Some(t), |p|);
    PS.FactorUnclosed(s, 0, PS.Parsed(Some(t), |p|));
    PS.FirstFactorFails(s, 0);
  }

  /** The whole pipeline: lexing, parsing and evaluating the text of a printed
      complete tree evaluates that tree. */
  lemma RunPrinted(t: Node)
    requires CompleteNode(t)
    ensures Printable(ExprTokens(t))
    ensures Run(Render(ExprTokens(t))) == Visit(Some(t))
  {
    var p := ExprTokens(t);
    ExprPrintable(t);
    var text := Render(p);
    assert text[0..] == text;
    LexRendered(text, 0, 0, p);
    ParsePrinted(t, [], AtEof);
    assert p + [] == p;
  }

  /** The text of a printed complete tree evaluates to its arithmetic meaning:
      successfully exactly when that meaning is defined, and then to that number,
      an int exactly when the tree has no division. */
  lemma RunPrintedDenotes(t: Node)
    requires CompleteNode(t)
    ensures Printable(ExprTokens(t))
    ensures Run(Render(ExprTokens(t))).Ok? <==> Denote(Some(t)).Some?
    ensures Run(Render(ExprTokens(t))).Ok? ==>
              && Run(Render(ExprTokens(t))).value.ToReal() == Denote(Some(t)).value
              && (Run(Render(ExprTokens(t))).value.Int? <==> DivFree(Some(t)))
  {
    RunPrinted(t);
    VisitComputesDenote(Some(t));
    if Visit(Some(t)).Ok? {
      IntExactlyWithoutDivision(Some(t));
    }
  }
}
