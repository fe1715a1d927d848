/** What the lexer computes, as functions of the text and a cursor position
    (main.py:56-108).  The class in lexer.dfy is proved to follow these. */
module LexSpec {

  import opened Wrappers
  import opened Tokens

  /** `str.isspace` on ASCII: tab, line feed, vertical tab, form feed, carriage
      return, the four separators 0x1c-0x1f and the space. */
  predicate IsSpace(c: char) {
    9 <= c as int <= 13 || 28 <= c as int <= 32
  }

  /** `str.isdigit` on ASCII. */
  predicate IsDigit(c: char) {
    '0' <= c <= '9'
  }

  predicate AllDigits(s: string) {
    forall k :: 0 <= k < |s| ==> IsDigit(s[k])
  }

  /** `current_char` for a cursor: the character there, or None past the end. */
  function CharAt(text: string, pos: nat): Option<char> {
    if pos < |text| then Some(text[pos]) else None
  }

  /** Where `skip_whitespace` leaves the cursor: past the run of whitespace at `pos`. */
  function SkipSpaces(text: string, pos: nat): (r: nat)
    ensures pos <= r
    ensures pos < r ==> r <= |text|
    ensures forall k :: pos <= k < r ==> IsSpace(text[k])
    ensures r < |text| ==> !IsSpace(text[r])
    decreases |text| - pos
  {
    if pos < |text| && IsSpace(text[pos]) then SkipSpaces(text, pos + 1) else pos
  }

  /** Where `integer` leaves the cursor: past the maximal run of digits at `pos`. */
  function DigitRunEnd(text: string, pos: nat): (r: nat)
    ensures pos <= r
    ensures pos < r ==> r <= |text|
    ensures forall k :: pos <= k < r ==> IsDigit(text[k])
    ensures r < |text| ==> !IsDigit(text[r])
    decreases |text| - pos
  {
    if pos < |text| && IsDigit(text[pos]) then DigitRunEnd(text, pos + 1) else pos
  }

  function DigitValue(c: char): (d: nat)
    requires IsDigit(c)
    ensures d < 10
  {
    (c as int) - ('0' as int)
  }

  function Pow10(n: nat): (p: nat)
    ensures p > 0
  {
    if n == 0 then 1 else 10 * Pow10(n - 1)
  }

  /** `int(result)` for a string of decimal digits.  The value has as many
      decimal digits as the string: fewer than `|s|` digits would not reach it,
      and without a leading zero it has no fewer. */
  function DecimalValue(s: string): (r: nat)
    requires AllDigits(s)
    ensures r < Pow10(|s|)
    ensures s != [] && s[0] != '0' ==> Pow10(|s| - 1) <= r
  {
    if s == [] then 0
    else
      var prefix := s[..|s| - 1];
      var r := DecimalValue(prefix) * 10 + DigitValue(s[|s| - 1]);
      assert DecimalValue(prefix) * 10 <= (Pow10(|prefix|) - 1) * 10;
      assert prefix != [] ==> prefix[0] == s[0];
      assert prefix != [] && prefix[0] != '0' ==> Pow10(|prefix| - 1) * 10 <= DecimalValue(prefix) * 10;
      r
  }

  /** Outcome of one successful `get_next_token`: the token and the new cursor. */
  datatype Lexed = Lexed(token: Token, next: nat)

  /** `get_next_token` from cursor `pos`: skip whitespace; EOF at the end of the
      text; the maximal digit run as an INTEGER; one of `+ - * / ( )` as its own
      kind; anything else is an invalid character. */
  function NextToken(text: string, pos: nat): (r: Result<Lexed, Error>)
    ensures r.Ok? ==> WellFormed(r.value.token) && pos <= r.value.next
    ensures r.Ok? && r.value.token.kind != Eof ==> pos < r.value.next <= |text|
    ensures r.Ok? && r.value.token.kind == Eof ==> |text| <= r.value.next
  {
    var p := SkipSpaces(text, pos);
    if p >= |text| then Ok(Lexed(EofToken, p))
    else if IsDigit(text[p]) then
      var e := DigitRunEnd(text, p);
      Ok(Lexed(Token(Integer, IntValue(DecimalValue(text[p..e]))), e))
    else match SymbolKind(text[p])
      case Some(k) => Ok(Lexed(Token(k, CharValue(text[p])), p + 1))
      case None => Err(InvalidCharacter)
  }

  /** Every token `get_next_token` would hand out from `pos` on, pulled until EOF
      or until the lexer raises. */
  function Tokenize(text: string, pos: nat): (s: TokenStream)
    ensures forall k :: 0 <= k < |s.tokens| ==> WellFormed(s.tokens[k]) && s.tokens[k].kind != Eof
    decreases if pos <= |text| then |text| - pos else 0
  {
    match NextToken(text, pos)
    case Err(_) => TokenStream([], BadChar)
    case Ok(Lexed(t, q)) =>
      if t.kind == Eof then TokenStream([], AtEof)
      else
        var rest := Tokenize(text, q);
        TokenStream([t] + rest.tokens, rest.end)
  }

  /** Tokenize from a cursor where the lexer yields a token other than EOF. */
  lemma TokenizeStep(text: string, pos: nat, t: Token, next: nat)
    requires NextToken(text, pos) == Ok(Lexed(t, next)) && t.kind != Eof
    ensures Tokenize(text, pos) == TokenStream([t] + Tokenize(text, next).tokens, Tokenize(text, next).end)
  {
  }

  // ---- Properties of the lexer specification ----

  /** A digit under the cursor (after whitespace) yields an INTEGER token whose
      value is that of the maximal digit run, and the cursor stops on the first
      non-digit or at the end of the text. */
  lemma IntegerToken(text: string, pos: nat)
    requires SkipSpaces(text, pos) < |text| && IsDigit(text[SkipSpaces(text, pos)])
    ensures var p := SkipSpaces(text, pos);
            var e := DigitRunEnd(text, p);
            && p < e
            && (e == |text| || !IsDigit(text[e]))
            && AllDigits(text[p..e])
            && NextToken(text, pos) == Ok(Lexed(Token(Integer, IntValue(DecimalValue(text[p..e]))), e))
  {
  }

  /** Each of `+ - * / ( )` yields its own kind and moves the cursor by exactly one. */
  lemma SymbolToken(text: string, pos: nat, k: TokenType)
    requires k != Integer && k != Eof
    requires SkipSpaces(text, pos) < |text| && text[SkipSpaces(text, pos)] == SymbolOf(k)
    ensures NextToken(text, pos) == Ok(Lexed(Token(k, CharValue(SymbolOf(k))), SkipSpaces(text, pos) + 1))
  {
    SymbolRoundTrip(k);
  }

  /** Whitespace before a token does not matter. */
  lemma WhitespaceSkipped(text: string, pos: nat)
    ensures NextToken(text, pos) == NextToken(text, SkipSpaces(text, pos))
  {
  }

  /** The lexer raises exactly when the first non-whitespace character is neither
      a digit nor one of `+ - * / ( )`. */
  lemma InvalidCharacterExactly(text: string, pos: nat)
    ensures NextToken(text, pos).Err? <==>
      var p := SkipSpaces(text, pos);
      p < |text| && !IsDigit(text[p]) && text[p] !in {'+', '-', '*', '/', '(', ')'}
  {
  }

  /** Once EOF is reached it is returned again on every later call, from the same cursor. */
  lemma EofRepeats(text: string, pos: nat)
    requires NextToken(text, pos).Ok? && NextToken(text, pos).value.token.kind == Eof
    ensures var q := NextToken(text, pos).value.next;
            NextToken(text, q) == Ok(Lexed(EofToken, q))
  {
  }
}
