/** Worked examples of the whole pipeline on short lines of text, and the
    grammar facts they rest on: operators of one level fold to the left, `*`
    and `/` bind tighter than `+` and `-`, a missing operand is a `None` child
    that only evaluation rejects, and an unread invalid character is harmless. */
module Examples {

  import opened Wrappers
  import opened Tokens
  import opened LexSpec
  import opened Ast
  import PS = ParseSpec
  import opened Interpreting
  import opened Unparse
  import opened Spelling

  function Lit(n: nat): Token {
    Token(Integer, IntValue(n))
  }

  predicate SameLevel(o: BinaryKind, p: BinaryKind) {
    (o == Plus || o == Minus) == (p == Plus || p == Minus)
  }

  // ---- Grammar ----

  /** A number prints as its one INTEGER token at every level. */
  lemma Leaf(n: nat)
    ensures CompleteNode(Num(n))
    ensures FactorTokens(Num(n)) == TermTokens(Num(n)) == ExprTokens(Num(n)) == [Lit(n)]
  {
  }

  /** Two operators of the same level fold to the left: `a o b p c` is `(a o b) p c`. */
  lemma SameLevelFoldsLeft(a: nat, b: nat, c: nat, o: BinaryKind, p: BinaryKind)
    requires SameLevel(o, p)
    ensures PS.Parse(TokenStream([Lit(a), Symbol(o), Lit(b), Symbol(p), Lit(c)], AtEof))
            == Ok(Some(BinOp(Some(BinOp(Some(Num(a)), o, Some(Num(b)))), p, Some(Num(c)))))
  {
    var ts := [Lit(a), Symbol(o), Lit(b), Symbol(p), Lit(c)];
    var l := BinOp(Some(Num(a)), o, Some(Num(b)));
    var t := BinOp(Some(l), p, Some(Num(c)));
    Leaf(a);
    Leaf(b);
    Leaf(c);
    if o == Plus || o == Minus {
      assert ExprTokens(l) == [Lit(a), Symbol(o), Lit(b)];
    } else {
      assert TermTokens(l) == [Lit(a), Symbol(o), Lit(b)];
    }
    assert ExprTokens(t) == ts;
    assert ts + [] == ts;
    ParsePrinted(t, [], AtEof);
  }

  /** `*` and `/` bind tighter than `+` and `-` on their right: `a + b * c` is `a + (b * c)`. */
  lemma ProductBindsTighterRight(a: nat, b: nat, c: nat, add: BinaryKind, mul: BinaryKind)
    requires (add == Plus || add == Minus) && (mul == Mul || mul == Div)
    ensures PS.Parse(TokenStream([Lit(a), Symbol(add), Lit(b), Symbol(mul), Lit(c)], AtEof))
            == Ok(Some(BinOp(Some(Num(a)), add, Some(BinOp(Some(Num(b)), mul, Some(Num(c)))))))
  {
    var r := BinOp(Some(Num(b)), mul, Some(Num(c)));
    var t := BinOp(Some(Num(a)), add, Some(r));
    var ts := [Lit(a), Symbol(add), Lit(b), Symbol(mul), Lit(c)];
    Leaf(a);
    Leaf(b);
    Leaf(c);
    assert TermTokens(r) == [Lit(b), Symbol(mul), Lit(c)];
    assert ExprTokens(t) == ts;
    assert ts + [] == ts;
    ParsePrinted(t, [], AtEof);
  }

  /** `*` and `/` bind tighter than `+` and `-` on their left: `a * b + c` is `(a * b) + c`. */
  lemma ProductBindsTighterLeft(a: nat, b: nat, c: nat, add: BinaryKind, mul: BinaryKind)
    requires (add == Plus || add == Minus) && (mul == Mul || mul == Div)
    ensures PS.Parse(TokenStream([Lit(a), Symbol(mul), Lit(b), Symbol(add), Lit(c)], AtEof))
            == Ok(Some(BinOp(Some(BinOp(Some(Num(a)), mul, Some(Num(b)))), add, Some(Num(c)))))
  {
    var l := BinOp(Some(Num(a)), mul, Some(Num(b)));
    var u := BinOp(Some(l), add, Some(Num(c)));
    var us := [Lit(a), Symbol(mul), Lit(b), Symbol(add), Lit(c)];
    Leaf(a);
    Leaf(b);
    Leaf(c);
    assert ExprTokens(l) == [Lit(a), Symbol(mul), Lit(b)];
    assert ExprTokens(u) == us;
    assert us + [] == us;
    ParsePrinted(u, [], AtEof);
  }

  /** An operator with nothing after it gets a `None` right child: `parse`
      accepts the line, and only evaluation fails, with no visit method. */
  lemma MissingOperand(a: nat, o: BinaryKind)
    ensures PS.Parse(TokenStream([Lit(a), Symbol(o)], AtEof)) == Ok(Some(BinOp(Some(Num(a)), o, None)))
    ensures Visit(Some(BinOp(Some(Num(a)), o, None))) == Err(NoVisitMethod)
  {
    var s := TokenStream([Lit(a), Symbol(o)], AtEof);
    var first := PS.Parsed(Some(Num(a)), 1);
    var t := Some(BinOp(Some(Num(a)), o, None));
    PS.FactorInteger(s, 0);
    PS.FactorMissing(s, 2);
    PS.TermEntry(s, 0, first);
    if o == Plus || o == Minus {
      PS.TermLoopStops(s, Some(Num(a)), 1);
      PS.ExprEntry(s, 0, first);
      PS.TermEntry(s, 2, PS.Parsed(None, 2));
      PS.TermLoopStops(s, None, 2);
      PS.ExprLoopTurn(s, Some(Num(a)), 1, PS.Parsed(None, 2));
    } else {
      PS.TermLoopTurn(s, Some(Num(a)), 1, PS.Parsed(None, 2));
      PS.TermLoopStops(s, t, 2);
      PS.ExprEntry(s, 0, PS.Parsed(t, 2));
    }
    PS.ExprLoopStops(s, t, 2);
  }

  // ---- Lexing the example lines, one token at a time ----

  /** A one-digit number with no whitespace before it. */
  lemma LexDigit(text: string, pos: nat)
    requires pos < |text| && IsDigit(text[pos])
    requires pos + 1 == |text| || !IsDigit(text[pos + 1])
    ensures NextToken(text, pos) == Ok(Lexed(Lit(DigitValue(text[pos])), pos + 1))
  {
    assert SkipSpaces(text, pos) == pos;
    assert DigitRunEnd(text, pos + 1) == pos + 1;
    assert text[pos..pos + 1] == [text[pos]];
    assert [text[pos]][..0] == [];
    IntegerToken(text, pos);
  }

  /** An operator or parenthesis with no whitespace before it. */
  lemma LexSymbol(text: string, pos: nat, k: TokenType)
    requires k != Integer && k != Eof
    requires pos < |text| && text[pos] == SymbolOf(k)
    ensures NextToken(text, pos) == Ok(Lexed(Symbol(k), pos + 1))
  {
    SymbolToken(text, pos, k);
  }

  lemma Lex842(text: string)
    requires text == "8-4-2"
    ensures Tokenize(text, 0) == TokenStream([Lit(8), Symbol(Minus), Lit(4), Symbol(Minus), Lit(2)], AtEof)
  {
    assert NextToken(text, 5) == Ok(Lexed(EofToken, 5));
    LexDigit(text, 4);
    TokenizeStep(text, 4, Lit(2), 5);
    LexSymbol(text, 3, Minus);
    TokenizeStep(text, 3, Symbol(Minus), 4);
    LexDigit(text, 2);
    TokenizeStep(text, 2, Lit(4), 3);
    LexSymbol(text, 1, Minus);
    TokenizeStep(text, 1, Symbol(Minus), 2);
    LexDigit(text, 0);
    TokenizeStep(text, 0, Lit(8), 1);
  }

  lemma Lex2Plus3Times4(text: string)
    requires text == "2+3*4"
    ensures Tokenize(text, 0) == TokenStream([Lit(2), Symbol(Plus), Lit(3), Symbol(Mul), Lit(4)], AtEof)
  {
    assert NextToken(text, 5) == Ok(Lexed(EofToken, 5));
    LexDigit(text, 4);
    TokenizeStep(text, 4, Lit(4), 5);
    LexSymbol(text, 3, Mul);
    TokenizeStep(text, 3, Symbol(Mul), 4);
    LexDigit(text, 2);
    TokenizeStep(text, 2, Lit(3), 3);
    LexSymbol(text, 1, Plus);
    TokenizeStep(text, 1, Symbol(Plus), 2);
    LexDigit(text, 0);
    TokenizeStep(text, 0, Lit(2), 1);
  }

  lemma LexMinusMinus5(text: string)
    requires text == "--5"
    ensures Tokenize(text, 0) == TokenStream([Symbol(Minus), Symbol(Minus), Lit(5)], AtEof)
  {
    assert NextToken(text, 3) == Ok(Lexed(EofToken, 3));
    LexDigit(text, 2);
    TokenizeStep(text, 2, Lit(5), 3);
    LexSymbol(text, 1, Minus);
    TokenizeStep(text, 1, Symbol(Minus), 2);
    LexSymbol(text, 0, Minus);
    TokenizeStep(text, 0, Symbol(Minus), 1);
  }

  /** Lexing `a/b` for one-digit `a` and `b`. */
  lemma LexQuotient(x: char, y: char)
    requires IsDigit(x) && IsDigit(y)
    ensures Tokenize([x, '/', y], 0) == TokenStream([Lit(DigitValue(x)), Symbol(Div), Lit(DigitValue(y))], AtEof)
  {
    var text := [x, '/', y];
    assert text[0..1] == [x] && text[2..3] == [y];
    assert DecimalValue([x]) == DigitValue(x) by { assert [x][..0] == []; }
    assert DecimalValue([y]) == DigitValue(y) by { assert [y][..0] == []; }
    assert NextToken(text, 3) == Ok(Lexed(EofToken, 3));
    assert NextToken(text, 2) == Ok(Lexed(Lit(DigitValue(y)), 3));
    TokenizeStep(text, 2, Lit(DigitValue(y)), 3);
    LexSymbol(text, 1, Div);
    TokenizeStep(text, 1, Symbol(Div), 2);
    assert NextToken(text, 0) == Ok(Lexed(Lit(DigitValue(x)), 1));
    TokenizeStep(text, 0, Lit(DigitValue(x)), 1);
  }

  lemma Lex1PlusAt(text: string)
    requires text == "1+@"
    ensures Tokenize(text, 0) == TokenStream([Lit(1), Symbol(Plus)], BadChar)
  {
    assert NextToken(text, 2) == Err(InvalidCharacter);
    LexSymbol(text, 1, Plus);
    TokenizeStep(text, 1, Symbol(Plus), 2);
    LexDigit(text, 0);
    TokenizeStep(text, 0, Lit(1), 1);
  }

  lemma Lex1Space2At(text: string)
    requires text == "1 2@"
    ensures Tokenize(text, 0) == TokenStream([Lit(1), Lit(2)], BadChar)
  {
    assert NextToken(text, 3) == Err(InvalidCharacter);
    assert SkipSpaces(text, 1) == 2;
    WhitespaceSkipped(text, 1);
    LexDigit(text, 2);
    TokenizeStep(text, 1, Lit(2), 3);
    LexDigit(text, 0);
    TokenizeStep(text, 0, Lit(1), 1);
  }

  lemma LexUnclosed(text: string)
    requires text == "(1+2"
    ensures Tokenize(text, 0) == TokenStream([Symbol(LParen), Lit(1), Symbol(Plus), Lit(2)], AtEof)
  {
    assert NextToken(text, 4) == Ok(Lexed(EofToken, 4));
    LexDigit(text, 3);
    TokenizeStep(text, 3, Lit(2), 4);
    LexSymbol(text, 2, Plus);
    TokenizeStep(text, 2, Symbol(Plus), 3);
    LexDigit(text, 1);
    TokenizeStep(text, 1, Lit(1), 2);
    LexSymbol(text, 0, LParen);
    TokenizeStep(text, 0, Symbol(LParen), 1);
  }

  lemma Lex1Plus(text: string)
    requires text == "1+"
    ensures Tokenize(text, 0) == TokenStream([Lit(1), Symbol(Plus)], AtEof)
  {
    assert NextToken(text, 2) == Ok(Lexed(EofToken, 2));
    LexSymbol(text, 1, Plus);
    TokenizeStep(text, 1, Symbol(Plus), 2);
    LexDigit(text, 0);
    TokenizeStep(text, 0, Lit(1), 1);
  }

  lemma Lex1Plus2(text: string)
    requires text == "1+2"
    ensures Tokenize(text, 0) == TokenStream([Lit(1), Symbol(Plus), Lit(2)], AtEof)
  {
    assert NextToken(text, 3) == Ok(Lexed(EofToken, 3));
    LexDigit(text, 2);
    TokenizeStep(text, 2, Lit(2), 3);
    LexSymbol(text, 1, Plus);
    TokenizeStep(text, 1, Symbol(Plus), 2);
    LexDigit(text, 0);
    TokenizeStep(text, 0, Lit(1), 1);
  }

  lemma LexSpaced1Plus2(text: string)
    requires text == "1 +    2"
    ensures Tokenize(text, 0) == TokenStream([Lit(1), Symbol(Plus), Lit(2)], AtEof)
  {
    assert NextToken(text, 8) == Ok(Lexed(EofToken, 8));
    SkipSpacesTo(text, 3, 7);
    WhitespaceSkipped(text, 3);
    LexDigit(text, 7);
    TokenizeStep(text, 3, Lit(2), 8);
    assert SkipSpaces(text, 1) == 2;
    WhitespaceSkipped(text, 1);
    LexSymbol(text, 2, Plus);
    TokenizeStep(text, 1, Symbol(Plus), 3);
    LexDigit(text, 0);
    TokenizeStep(text, 0, Lit(1), 1);
  }

  lemma Lex1PlusTimes2(text: string)
    requires text == "1+*2"
    ensures Tokenize(text, 0) == TokenStream([Lit(1), Symbol(Plus), Symbol(Mul), Lit(2)], AtEof)
  {
    assert NextToken(text, 4) == Ok(Lexed(EofToken, 4));
    LexDigit(text, 3);
    TokenizeStep(text, 3, Lit(2), 4);
    LexSymbol(text, 2, Mul);
    TokenizeStep(text, 2, Symbol(Mul), 3);
    LexSymbol(text, 1, Plus);
    TokenizeStep(text, 1, Symbol(Plus), 2);
    LexDigit(text, 0);
    TokenizeStep(text, 0, Lit(1), 1);
  }

  lemma LexEmptyParentheses(text: string)
    requires text == "()"
    ensures Tokenize(text, 0) == TokenStream([Symbol(LParen), Symbol(RParen)], AtEof)
  {
    assert NextToken(text, 2) == Ok(Lexed(EofToken, 2));
    LexSymbol(text, 1, RParen);
    TokenizeStep(text, 1, Symbol(RParen), 2);
    LexSymbol(text, 0, LParen);
    TokenizeStep(text, 0, Symbol(LParen), 1);
  }

  // ---- Whole lines ----

  // Each line is a parameter fixed by `requires text == "..."` rather than a
  // literal argument: the verifier unfolds a call on a literal string in full,
  // which costs far more than the proof steps below.

  /** `8-4-2` is `(8-4)-2`, which is 2. */
  lemma RunLeftFold(text: string)
    requires text == "8-4-2"
    ensures Run(text) == Ok(Int(2))
  {
    Lex842(text);
    SameLevelFoldsLeft(8, 4, 2, Minus, Minus);
  }

  /** `2+3*4` is `2+(3*4)`, which is 14. */
  lemma RunPrecedence(text: string)
    requires text == "2+3*4"
    ensures Run(text) == Ok(Int(14))
  {
    Lex2Plus3Times4(text);
    ProductBindsTighterRight(2, 3, 4, Plus, Mul);
  }

  /** `--5` is the negation of the negation of 5. */
  lemma RunDoubleMinus(text: string)
    requires text == "--5"
    ensures Run(text) == Ok(Int(5))
  {
    LexMinusMinus5(text);
    var t := UnaryOp(Minus, Some(UnaryOp(Minus, Some(Num(5)))));
    var ts := [Symbol(Minus), Symbol(Minus), Lit(5)];
    Leaf(5);
    assert ExprTokens(t) == ts;
    assert ts + [] == ts;
    ParsePrinted(t, [], AtEof);
    DoubleNegation(Some(Num(5)));
  }

  /** `a/b` on two digits is a float, or raises ZeroDivisionError when `b` is 0. */
  lemma RunQuotient(x: char, y: char)
    requires IsDigit(x) && IsDigit(y)
    ensures var a, b := DigitValue(x), DigitValue(y);
            Run([x, '/', y]) == if b == 0 then Err(ZeroDivision) else Ok(Float(a as real / b as real))
  {
    var a, b := DigitValue(x), DigitValue(y);
    LexQuotient(x, y);
    var t := BinOp(Some(Num(a)), Div, Some(Num(b)));
    var ts := [Lit(a), Symbol(Div), Lit(b)];
    Leaf(a);
    Leaf(b);
    assert ExprTokens(t) == ts;
    assert ts + [] == ts;
    ParsePrinted(t, [], AtEof);
    assert Visit(Some(t)) == Quotient(Int(a), Int(b));
  }

  /** `1+@`: the invalid character is reached when `+` is eaten, so the lexer raises. */
  lemma RunInvalidCharacter(text: string)
    requires text == "1+@"
    ensures Run(text) == Err(InvalidCharacter)
  {
    Lex1PlusAt(text);
    var s := TokenStream([Lit(1), Symbol(Plus)], BadChar);
    var first := PS.Parsed(Some(Num(1)), 1);
    PS.FactorInteger(s, 0);
    PS.TermEntry(s, 0, first);
    PS.TermLoopStops(s, Some(Num(1)), 1);
    PS.ExprEntry(s, 0, first);
    assert PS.Eat(s, 1, Plus) == Err(InvalidCharacter);
  }

  /** `1 2@`: `parse` stops after one expression, and the lexer never reaches `@`. */
  lemma RunTrailingIgnored(text: string)
    requires text == "1 2@"
    ensures Run(text) == Ok(Int(1))
  {
    Lex1Space2At(text);
    var s := TokenStream([Lit(1), Lit(2)], BadChar);
    var first := PS.Parsed(Some(Num(1)), 1);
    PS.FactorInteger(s, 0);
    PS.TermEntry(s, 0, first);
    PS.TermLoopStops(s, Some(Num(1)), 1);
    PS.ExprEntry(s, 0, first);
    PS.ExprLoopStops(s, Some(Num(1)), 1);
  }

  /** `(1+2`: the missing `)` is "Invalid syntax". */
  lemma RunUnclosed(text: string)
    requires text == "(1+2"
    ensures Run(text) == Err(InvalidSyntax)
  {
    LexUnclosed(text);
    var t := BinOp(Some(Num(1)), Plus, Some(Num(2)));
    var ts := [Lit(1), Symbol(Plus), Lit(2)];
    assert ExprTokens(t) == ts by {
      Leaf(1);
      Leaf(2);
    }
    assert [Symbol(LParen)] + ts == [Symbol(LParen), Lit(1), Symbol(Plus), Lit(2)];
    UnclosedParenthesis(t);
  }

  /** `1+`: parsed with a missing right operand, which has no visit method. */
  lemma RunMissingOperand(text: string)
    requires text == "1+"
    ensures Run(text) == Err(NoVisitMethod)
  {
    Lex1Plus(text);
    MissingOperand(1, Plus);
  }

  /** `1+2` and `1 +    2` both evaluate to 3: whitespace between tokens does not matter. */
  lemma RunWhitespaceInsensitive(plain: string, spaced: string)
    requires plain == "1+2" && spaced == "1 +    2"
    ensures Run(plain) == Run(spaced) == Ok(Int(3))
  {
    Lex1Plus2(plain);
    LexSpaced1Plus2(spaced);
    var t := BinOp(Some(Num(1)), Plus, Some(Num(2)));
    var ts := [Lit(1), Symbol(Plus), Lit(2)];
    Leaf(1);
    Leaf(2);
    assert ExprTokens(t) == ts;
    assert ts + [] == ts;
    ParsePrinted(t, [], AtEof);
  }

  /** `1+*2`: `factor` gives `None` at `*`, so `parse` builds `1 + (None * 2)`,
      and evaluation fails with no visit method. */
  lemma RunMisplacedOperator(text: string)
    requires text == "1+*2"
    ensures Run(text) == Err(NoVisitMethod)
  {
    Lex1PlusTimes2(text);
    var s := TokenStream([Lit(1), Symbol(Plus), Symbol(Mul), Lit(2)], AtEof);
    var first := PS.Parsed(Some(Num(1)), 1);
    var r := BinOp(None, Mul, Some(Num(2)));
    PS.FactorInteger(s, 0);
    PS.TermEntry(s, 0, first);
    PS.TermLoopStops(s, Some(Num(1)), 1);
    PS.ExprEntry(s, 0, first);
    PS.FactorMissing(s, 2);
    PS.TermEntry(s, 2, PS.Parsed(None, 2));
    PS.FactorInteger(s, 3);
    PS.TermLoopTurn(s, None, 2, PS.Parsed(Some(Num(2)), 4));
    PS.TermLoopStops(s, Some(r), 4);
    PS.ExprLoopTurn(s, Some(Num(1)), 1, PS.Parsed(Some(r), 4));
    PS.ExprLoopStops(s, Some(BinOp(Some(Num(1)), Plus, Some(r))), 4);
  }

  /** `()`: `factor` gives `None` at `)`, so the parenthesised expression is
      `None` and `parse` returns `None` itself, which has no visit method. */
  lemma RunEmptyParentheses(text: string)
    requires text == "()"
    ensures Run(text) == Err(NoVisitMethod)
  {
    LexEmptyParentheses(text);
    var s := TokenStream([Symbol(LParen), Symbol(RParen)], AtEof);
    var inner := PS.Parsed(None, 1);
    PS.FactorMissing(s, 1);
    PS.TermEntry(s, 1, inner);
    PS.TermLoopStops(s, None, 1);
    PS.ExprEntry(s, 1, inner);
    PS.ExprLoopStops(s, None, 1);
    PS.FactorParenthesised(s, 0, inner);
    var outer := PS.Parsed(None, 2);
    PS.TermEntry(s, 0, outer);
    PS.TermLoopStops(s, None, 2);
    PS.ExprEntry(s, 0, outer);
    PS.ExprLoopStops(s, None, 2);
  }
}
