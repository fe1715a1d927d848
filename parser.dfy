/** The recursive-descent `Parser` (main.py:112-168), with one look-ahead token
    pulled from a `Lexer` on demand.  Each method is proved to compute what the
    matching function of ParseSpec computes from the same look-ahead index. */
module Parsing {

  import opened Wrappers
  import opened Tokens
  import opened LexSpec
  import opened Lexing
  import opened Ast
  import PS = ParseSpec

  /** Once `get_next_token` has returned EOF, the lexer has nothing more to hand out. */
  lemma TokenizeAfterEof(text: string, pos: nat)
    requires NextToken(text, pos).Ok? && NextToken(text, pos).value.token.kind == Eof
    ensures Tokenize(text, NextToken(text, pos).value.next) == TokenStream([], AtEof)
  {
    EofRepeats(text, pos);
  }

  /** Pulling one token from a lexer whose remaining tokens are those of `s` from
      index `f` on: it raises exactly when there is no look-ahead at `f`, and
      otherwise hands out the look-ahead at `f` and leaves the tokens after it. */
  lemma Pull(text: string, pos: nat, s: TokenStream, f: nat)
    requires f <= |s.tokens| && Tokenize(text, pos) == TokenStream(s.tokens[f..], s.end)
    ensures NextToken(text, pos).Err? <==> !PS.HasLookahead(s, f)
    ensures NextToken(text, pos).Ok? ==>
      && PS.HasLookahead(s, f)
      && NextToken(text, pos).value.token == PS.Current(s, f)
      && Tokenize(text, NextToken(text, pos).value.next) == TokenStream(s.tokens[PS.Following(s, f)..], s.end)
  {
    match NextToken(text, pos)
    case Err(_) =>
    case Ok(Lexed(t, next)) =>
      if t.kind == Eof {
        TokenizeAfterEof(text, pos);
      } else {
        TokenizeStep(text, pos, t, next);
        assert s.tokens[f] == s.tokens[f..][0];
        assert s.tokens[f + 1..] == s.tokens[f..][1..];
      }
  }

  class Parser {
    const lexer: Lexer
    var currentToken: Token
    /** Every token the lexer hands out from the start of its text. */
    ghost const stream: TokenStream
    /** Index of `currentToken` in `stream`. */
    ghost var index: nat

    /** The look-ahead token is the one at `index`, and what the lexer has left to
        hand out is the rest of the stream after it. */
    ghost predicate Valid()
      reads this, lexer
    {
      && lexer.Valid()
      && stream == Tokenize(lexer.text, 0)
      && PS.HasLookahead(stream, index)
      && currentToken == PS.Current(stream, index)
      // This states `Tokenize(lexer.text, lexer.pos) == ...`. The one-point quantifier
      // keeps the solver from unfolding Tokenize wherever Valid() is known.
      && (forall p {:trigger Tokenize(lexer.text, p)} :: p == lexer.pos ==>
            Tokenize(lexer.text, p) == TokenStream(stream.tokens[PS.Following(stream, index)..], stream.end))
    }

    constructor FromLookahead(lexer: Lexer, token: Token, ghost stream: TokenStream)
      ensures this.lexer == lexer && currentToken == token && this.stream == stream && index == 0
    {
      this.lexer := lexer;
      currentToken := token;
      this.stream := stream;
      index := 0;
    }

    /** `Parser(lexer)`: pull the first look-ahead token, which may raise
        "Invalid character". */
    static method Create(lexer: Lexer) returns (r: Result<Parser, Error>)
      requires lexer.Valid() && lexer.pos == 0
      modifies lexer
      ensures r.Ok? <==> PS.HasLookahead(Tokenize(lexer.text, 0), 0)
      ensures r.Err? ==> r.error == InvalidCharacter
      ensures r.Ok? ==> fresh(r.value) && r.value.lexer == lexer && r.value.Valid() && r.value.index == 0
    {
      ghost var s := Tokenize(lexer.text, 0);
      assert s.tokens[0..] == s.tokens;
      Pull(lexer.text, 0, s, 0);
      var t := lexer.GetNextToken();
      if t.Err? {
        return Err(t.error);
      }
      var p := new Parser.FromLookahead(lexer, t.value, s);
      assert Tokenize(lexer.text, lexer.pos) == TokenStream(s.tokens[PS.Following(s, 0)..], s.end);
      return Ok(p);
    }

    /** `eat(kind)`: advance to the next token exactly when the look-ahead has
        that kind; otherwise raise "Invalid syntax" and leave the look-ahead as it is. */
    method Eat(kind: TokenType) returns (r: Outcome<Error>)
      requires Valid()
      modifies this, lexer
      ensures var spec := PS.Eat(stream, old(index), kind);
              && (r.Pass? <==> spec.Ok?)
              && (r.Pass? ==> Valid() && index == spec.value)
              && (r.Fail? ==> r.error == spec.error)
      ensures old(currentToken).kind != kind ==> currentToken == old(currentToken) && unchanged(lexer)
    {
      if currentToken.kind == kind {
        Pull(lexer.text, lexer.pos, stream, PS.Following(stream, index));
        var t := lexer.GetNextToken();
        if t.Err? {
          return Fail(t.error);
        }
        currentToken := t.value;
        index := PS.Following(stream, index);
        assert Tokenize(lexer.text, lexer.pos) == TokenStream(stream.tokens[PS.Following(stream, index)..], stream.end);
        return Pass;
      } else {
        return Fail(InvalidSyntax);
      }
    }

    /** `factor` */
    method Factor() returns (r: Result<Option<Node>, Error>)
      requires Valid()
      modifies this, lexer
      ensures var spec := PS.Factor(stream, old(index));
              && r == PS.NodeOf(spec)
              && (r.Ok? ==> Valid() && index == spec.value.next)
      decreases |stream.tokens| - index, 0
    {
      var token := currentToken;
      if token.kind == Plus || token.kind == Minus {
        if token.kind == Plus {
          :- Eat(Plus);
        } else {
          :- Eat(Minus);
        }
        var operand :- Factor();
        return Ok(Some(UnaryOp(token.kind, operand)));
      } else if token.kind == Integer {
        :- Eat(Integer);
        return Ok(Some(Num(token.value.n)));
      } else if token.kind == LParen {
        :- Eat(LParen);
        var node :- Expr();
        :- Eat(RParen);
        return Ok(node);
      }
      return Ok(None);
    }

    /** `term` */
    method Term() returns (r: Result<Option<Node>, Error>)
      requires Valid()
      modifies this, lexer
      ensures var spec := PS.Term(stream, old(index));
              && r == PS.NodeOf(spec)
              && (r.Ok? ==> Valid() && index == spec.value.next)
      decreases |stream.tokens| - index, 2
    {
      var node :- Factor();
      while currentToken.kind == Mul || currentToken.kind == Div
        invariant Valid() && old(index) <= index
        invariant PS.Term(stream, old(index)) == PS.TermLoop(stream, node, index)
        decreases |stream.tokens| - index
      {
        var token := currentToken;
        if currentToken.kind == Mul {
          :- Eat(Mul);
        } else if currentToken.kind == Div {
          :- Eat(Div);
        }
        var right :- Factor();
        node := Some(BinOp(node, token.kind, right));
      }
      return Ok(node);
    }

    /** `expr` */
    method Expr() returns (r: Result<Option<Node>, Error>)
      requires Valid()
      modifies this, lexer
      ensures var spec := PS.Expr(stream, old(index));
              && r == PS.NodeOf(spec)
              && (r.Ok? ==> Valid() && index == spec.value.next)
      decreases |stream.tokens| - index, 3
    {
      var node :- Term();
      while currentToken.kind == Plus || currentToken.kind == Minus
        invariant Valid() && old(index) <= index
        invariant PS.Expr(stream, old(index)) == PS.ExprLoop(stream, node, index)
        decreases |stream.tokens| - index
      {
        var token := currentToken;
        if currentToken.kind == Plus {
          :- Eat(Plus);
        } else if currentToken.kind == Minus {
          :- Eat(Minus);
        }
        var right :- Term();
        node := Some(BinOp(node, token.kind, right));
      }
      return Ok(node);
    }

    /** `parse`: one `expr`; whatever follows it is left unread, and the
        look-ahead stays on the first token after the expression (EOF or a
        trailing token), never eaten.  On a parser fresh from Create this is
        ParseSpec.Parse of the whole token stream. */
    method Parse() returns (r: Result<Option<Node>, Error>)
      requires Valid()
      modifies this, lexer
      ensures r == PS.NodeOf(PS.Expr(stream, old(index)))
      ensures r.Ok? ==> Valid() && index == PS.Expr(stream, old(index)).value.next
      ensures old(index) == 0 ==> r == PS.Parse(stream)
    {
      r := Expr();
    }
  }
}
