/** A spelling for tokens, and the proof that the lexer reads a spelled token
    sequence back as exactly those tokens followed by EOF. */
module Spelling {

  import opened Wrappers
  import opened Tokens
  import opened LexSpec

  /** The digit character for `d`. */
  function DigitChar(d: nat): (c: char)
    requires d < 10
    ensures IsDigit(c) && DigitValue(c) == d
  {
    ('0' as int + d) as char
  }

  /** The decimal numeral of `n`, without leading zeros. */
  function Digits(n: nat): (s: string)
    ensures s != [] && AllDigits(s) && DecimalValue(s) == n
    decreases n
  {
    if n < 10 then [DigitChar(n)]
    else
      var s := Digits(n / 10) + [DigitChar(n % 10)];
      assert s[..|s| - 1] == Digits(n / 10);
      s
  }

  /** How a token is written: an INTEGER as its numeral, the others as their character. */
  function Spell(t: Token): (w: string)
    requires WellFormed(t) && t.kind != Eof
    ensures w != [] && !IsSpace(w[0])
  {
    if t.kind == Integer then Digits(t.value.n) else [SymbolOf(t.kind)]
  }

  /** A text for a token sequence: each token spelled and followed by one space. */
  function Render(ts: seq<Token>): string
    requires Printable(ts)
  {
    if ts == [] then [] else Spell(ts[0]) + [' '] + Render(ts[1..])
  }

  /** SkipSpaces stops at the first non-whitespace character. */
  lemma {:induction false} SkipSpacesTo(text: string, q: nat, p: nat)
    requires q <= p <= |text|
    requires forall k :: q <= k < p ==> IsSpace(text[k])
    requires p == |text| || !IsSpace(text[p])
    ensures SkipSpaces(text, q) == p
    decreases p - q
  {
    if q < p {
      SkipSpacesTo(text, q + 1, p);
    }
  }

  /** DigitRunEnd stops at the first non-digit. */
  lemma {:induction false} DigitRunTo(text: string, p: nat, e: nat)
    requires p <= e <= |text|
    requires forall k :: p <= k < e ==> IsDigit(text[k])
    requires e == |text| || !IsDigit(text[e])
    ensures DigitRunEnd(text, p) == e
    decreases e - p
  {
    if p < e {
      DigitRunTo(text, p + 1, e);
    }
  }

  /** The next token of a text that holds the spelling of `t` at `p`, after
      whitespace from `q` and before a space, is `t`, and the cursor stops on that space. */
  lemma SpelledToken(text: string, q: nat, p: nat, t: Token)
    requires WellFormed(t) && t.kind != Eof
    requires q <= p && p + |Spell(t)| < |text|
    requires text[p..p + |Spell(t)|] == Spell(t) && text[p + |Spell(t)|] == ' '
    requires forall k :: q <= k < p ==> IsSpace(text[k])
    ensures NextToken(text, q) == Ok(Lexed(t, p + |Spell(t)|))
  {
    var w := Spell(t);
    var e := p + |w|;
    assert text[p] == w[0];
    SkipSpacesTo(text, q, p);
    if t.kind == Integer {
      forall k | p <= k < e
        ensures IsDigit(text[k])
      {
        assert text[k] == w[k - p];
      }
      DigitRunTo(text, p, e);
    } else {
      SymbolRoundTrip(t.kind);
    }
  }

  /** Splits a text whose suffix from `p` is a word, a space and the rest. */
  lemma SpaceAfter(text: string, p: nat, w: string, rest: string)
    requires p <= |text| && text[p..] == w + [' '] + rest
    ensures p + |w| < |text| && text[p..p + |w|] == w && text[p + |w|] == ' '
    ensures text[p + |w| + 1..] == rest
  {
    assert |text| == p + |w| + 1 + |rest|;
    assert text[p..p + |w|] == text[p..][..|w|];
    assert text[p + |w|] == text[p..][|w|];
    assert text[p + |w| + 1..] == text[p..][|w| + 1..];
  }

  /** A token spelled at `p`, after whitespace from `q` and before a space: the
      lexer reads it back and stops on that space. */
  lemma SpelledHead(text: string, q: nat, p: nat, t: Token, rest: string)
    requires WellFormed(t) && t.kind != Eof
    requires q <= p <= |text| && text[p..] == Spell(t) + [' '] + rest
    requires forall k :: q <= k < p ==> IsSpace(text[k])
    ensures var e := p + |Spell(t)|;
            && e < |text| && IsSpace(text[e]) && text[e + 1..] == rest
            && NextToken(text, q) == Ok(Lexed(t, e))
  {
    SpaceAfter(text, p, Spell(t), rest);
    SpelledToken(text, q, p, t);
  }

  /** Lexing a rendered token sequence, after any whitespace, gives back exactly
      those tokens and then EOF. */
  lemma {:induction false} LexRendered(text: string, q: nat, p: nat, ts: seq<Token>)
    requires Printable(ts)
    requires q <= p <= |text| && text[p..] == Render(ts)
    requires forall k :: q <= k < p ==> IsSpace(text[k])
    ensures Tokenize(text, q) == TokenStream(ts, AtEof)
    decreases |ts|, 1
  {
    if ts == [] {
      SkipSpacesTo(text, q, p);
    } else {
      LexRenderedCons(text, q, p, ts);
    }
  }

  /** The non-empty case of LexRendered: one token, then the rest by induction. */
  lemma {:induction false} LexRenderedCons(text: string, q: nat, p: nat, ts: seq<Token>)
    requires Printable(ts) && ts != []
    requires q <= p <= |text| && text[p..] == Spell(ts[0]) + [' '] + Render(ts[1..])
    requires forall k :: q <= k < p ==> IsSpace(text[k])
    ensures Tokenize(text, q) == TokenStream(ts, AtEof)
    decreases |ts|, 0
  {
    var e := p + |Spell(ts[0])|;
    SpelledHead(text, q, p, ts[0], Render(ts[1..]));
    TokenizeStep(text, q, ts[0], e);
    LexRendered(text, e, e + 1, ts[1..]);
    assert [ts[0]] + ts[1..] == ts;
  }
}
