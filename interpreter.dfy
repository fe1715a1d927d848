/** The tree-walking `Interpreter` (main.py:172-206) and the whole pipeline
    text -> tokens -> tree -> number. */
module Interpreting {

  import opened Wrappers
  import opened Tokens
  import opened LexSpec
  import opened Lexing
  import opened Ast
  import PS = ParseSpec
  import opened Parsing

  /** A Python number as the interpreter produces it: an `int`, or a `float` once
      a true division `/` is involved.  Floats are kept as exact reals. */
  datatype Number = Int(i: int) | Float(f: real) {
    function ToReal(): real {
      match this
      case Int(i) => i as real
      case Float(f) => f
    }
  }

  // Python's `+`, `-`, `*` give an int on two ints and a float otherwise;
  // `/` always gives a float and raises ZeroDivisionError on a zero divisor.

  function Sum(a: Number, b: Number): (c: Number)
    ensures c.ToReal() == a.ToReal() + b.ToReal()
    ensures c.Int? <==> a.Int? && b.Int?
  {
    if a.Int? && b.Int? then Int(a.i + b.i) else Float(a.ToReal() + b.ToReal())
  }

  function Difference(a: Number, b: Number): (c: Number)
    ensures c.ToReal() == a.ToReal() - b.ToReal()
    ensures c.Int? <==> a.Int? && b.Int?
  {
    if a.Int? && b.Int? then Int(a.i - b.i) else Float(a.ToReal() - b.ToReal())
  }

  function Product(a: Number, b: Number): (c: Number)
    ensures c.ToReal() == a.ToReal() * b.ToReal()
    ensures c.Int? <==> a.Int? && b.Int?
  {
    if a.Int? && b.Int? then Int(a.i * b.i) else Float(a.ToReal() * b.ToReal())
  }

  function Quotient(a: Number, b: Number): (r: Result<Number, Error>)
    ensures r.Err? <==> b.ToReal() == 0.0
    ensures r.Err? ==> r.error == ZeroDivision
    ensures r.Ok? ==> r.value.Float?
  {
    if b.ToReal() == 0.0 then Err(ZeroDivision) else Ok(Float(a.ToReal() / b.ToReal()))
  }

  function Negation(a: Number): (c: Number)
    ensures c.ToReal() == -a.ToReal()
    ensures c.Int? <==> a.Int?
  {
    match a
    case Int(i) => Int(-i)
    case Float(f) => Float(-f)
  }

  /** The operator dispatch of `visit_BinOp` on the children's values. */
  function Operate(op: BinaryKind, a: Number, b: Number): (r: Result<Number, Error>)
    ensures r.Ok? ==> (r.value.Int? <==> op != Div && a.Int? && b.Int?)
  {
    if op == Plus then Ok(Sum(a, b))
    else if op == Minus then Ok(Difference(a, b))
    else if op == Mul then Ok(Product(a, b))
    else Quotient(a, b)
  }

  /** `visit` with `visit_BinOp`, `visit_UnaryOp` and `visit_Num`: the left child
      is evaluated before the right one, unary `+` is the identity, and a missing
      node has no visit method.  Evaluation succeeds only on a complete tree, and
      always does on a complete tree without division, with an int result. */
  function Visit(node: Option<Node>): (r: Result<Number, Error>)
    ensures r.Ok? ==> Complete(node)
    ensures Complete(node) && DivFree(node) ==> r.Ok? && r.value.Int?
  {
    match node
    case None => Err(NoVisitMethod)
    case Some(BinOp(left, op, right)) =>
      var a :- Visit(left);
      var b :- Visit(right);
      Operate(op, a, b)
    case Some(UnaryOp(sign, right)) =>
      var v :- Visit(right);
      if sign == Plus then Ok(v) else Ok(Negation(v))
    case Some(Num(value)) => Ok(Int(value))
  }

  /** One operator over exact reals: undefined for a zero divisor. */
  function Apply(op: BinaryKind, a: real, b: real): Option<real> {
    if op == Plus then Some(a + b)
    else if op == Minus then Some(a - b)
    else if op == Mul then Some(a * b)
    else if b == 0.0 then None
    else Some(a / b)
  }

  /** The arithmetic meaning of a tree over exact reals, with no int/float
      distinction: undefined for a missing node or a zero divisor. */
  function Denote(node: Option<Node>): Option<real> {
    match node
    case None => None
    case Some(BinOp(left, op, right)) =>
      if Denote(left).None? || Denote(right).None? then None
      else Apply(op, Denote(left).value, Denote(right).value)
    case Some(UnaryOp(sign, right)) =>
      if Denote(right).None? then None
      else if sign == Plus then Denote(right)
      else Some(-Denote(right).value)
    case Some(Num(value)) => Some(value as real)
  }

  /** Python's arithmetic on ints and floats agrees with exact arithmetic, and
      fails exactly where exact arithmetic is undefined. */
  lemma OperateIsExact(op: BinaryKind, a: Number, b: Number)
    ensures Operate(op, a, b).Ok? <==> Apply(op, a.ToReal(), b.ToReal()).Some?
    ensures Operate(op, a, b).Ok? ==> Operate(op, a, b).value.ToReal() == Apply(op, a.ToReal(), b.ToReal()).value
  {
  }

  /** The interpreter computes the arithmetic meaning of the tree: it succeeds
      exactly when the meaning is defined, and then returns that number. */
  lemma {:induction false} VisitComputesDenote(node: Option<Node>)
    ensures Visit(node).Ok? <==> Denote(node).Some?
    ensures Visit(node).Ok? ==> Visit(node).value.ToReal() == Denote(node).value
  {
    match node
    case None =>
    case Some(BinOp(left, op, right)) =>
      VisitComputesDenote(left);
      VisitComputesDenote(right);
      if Visit(left).Ok? && Visit(right).Ok? {
        OperateIsExact(op, Visit(left).value, Visit(right).value);
      }
    case Some(UnaryOp(sign, right)) =>
      VisitComputesDenote(right);
    case Some(Num(value)) =>
  }

  /** The result is an int exactly when the tree has no division. */
  lemma {:induction false} IntExactlyWithoutDivision(node: Option<Node>)
    ensures Visit(node).Ok? ==> (Visit(node).value.Int? <==> DivFree(node))
  {
    match node
    case None =>
    case Some(BinOp(left, op, right)) =>
      IntExactlyWithoutDivision(left);
      IntExactlyWithoutDivision(right);
    case Some(UnaryOp(sign, right)) =>
      IntExactlyWithoutDivision(right);
    case Some(Num(value)) =>
  }

  /** An error in the left operand is the error of the whole operation, whatever
      the right operand holds. */
  lemma LeftErrorFirst(left: Option<Node>, op: BinaryKind, right: Option<Node>)
    requires Visit(left).Err?
    ensures Visit(Some(BinOp(left, op, right))) == Err(Visit(left).error)
  {
  }

  /** Two unary minuses cancel: `--x` evaluates to what `x` does. */
  lemma DoubleNegation(x: Option<Node>)
    ensures Visit(Some(UnaryOp(Minus, Some(UnaryOp(Minus, x))))) == Visit(x)
  {
  }

  /** The whole pipeline on one line of text: lex, parse one expression, evaluate.
      A parse error is the line's error; otherwise the line evaluates exactly when
      the parsed tree has an arithmetic meaning, to that meaning, and to an int
      exactly when the tree has no division. */
  function Run(text: string): (r: Result<Number, Error>)
    ensures var parsed := PS.Parse(Tokenize(text, 0));
            && (parsed.Err? ==> r == Err(parsed.error))
            && (parsed.Ok? ==> (r.Ok? <==> Denote(parsed.value).Some?))
            && (parsed.Ok? && r.Ok? ==> r.value.ToReal() == Denote(parsed.value).value)
            && (parsed.Ok? && r.Ok? ==> (r.value.Int? <==> DivFree(parsed.value)))
  {
    var tree :- PS.Parse(Tokenize(text, 0));
    VisitComputesDenote(tree);
    IntExactlyWithoutDivision(tree);
    Visit(tree)
  }

  class Interpreter {
    const parser: Parser

    constructor (parser: Parser)
      ensures this.parser == parser
    {
      this.parser := parser;
    }

    /** `interpret`: parse, then visit the tree. */
    method Interpret() returns (r: Result<Number, Error>)
      requires parser.Valid()
      modifies parser, parser.lexer
      ensures match PS.NodeOf(PS.Expr(parser.stream, old(parser.index)))
              case Ok(tree) => r == Visit(tree)
              case Err(e) => r == Err(e)
      ensures PS.Expr(parser.stream, old(parser.index)).Ok? ==>
                parser.Valid() && parser.index == PS.Expr(parser.stream, old(parser.index)).value.next
    {
      var tree :- parser.Parse();
      r := Visit(tree);
    }
  }

  /** One line of `main` without its input and output: build the lexer, the
      parser and the interpreter on a non-empty line and interpret it. */
  method Evaluate(text: string) returns (r: Result<Number, Error>)
    requires |text| > 0
    ensures r == Run(text)
  {
    var lexer := new Lexer(text);
    var parser :- Parser.Create(lexer);
    var interpreter := new Interpreter(parser);
    r := interpreter.Interpret();
  }
}
