/** The cursor-based tokenizer `Lexer` (main.py:47-108). */
module Lexing {

  import opened Wrappers
  import opened Tokens
  import opened LexSpec

  class Lexer {
    const text: string
    var pos: nat
    var currentChar: Option<char>

    /** `current_char` is always the character under `pos`, or None past the end. */
    ghost predicate Valid()
      reads this
    {
      currentChar == CharAt(text, pos)
    }

    /** `Lexer(text)`: `text[0]` raises IndexError on an empty string, so the
        text must not be empty. */
    constructor (text: string)
      requires |text| > 0
      ensures this.text == text && pos == 0 && Valid()
    {
      this.text := text;
      pos := 0;
      currentChar := Some(text[0]);
    }

    /** `advance`: move the cursor one character on. */
    method Advance()
      modifies this
      ensures pos == old(pos) + 1 && Valid()
    {
      pos := pos + 1;
      if pos > |text| - 1 {
        currentChar := None;
      } else {
        currentChar := Some(text[pos]);
      }
    }

    /** `skip_whitespace`: move the cursor past the whitespace under it. */
    method SkipWhitespace()
      requires Valid()
      modifies this
      ensures Valid() && pos == SkipSpaces(text, old(pos))
    {
      while currentChar.Some? && IsSpace(currentChar.value)
        invariant Valid()
        invariant old(pos) <= pos <= SkipSpaces(text, old(pos))
        invariant SkipSpaces(text, pos) == SkipSpaces(text, old(pos))
        decreases |text| - pos
      {
        Advance();
      }
    }

    /** `integer`: collect the digits under the cursor and convert them.  Only
        called on a digit (`int('')` would raise). */
    method ScanInteger() returns (value: nat)
      requires Valid() && currentChar.Some? && IsDigit(currentChar.value)
      modifies this
      ensures Valid() && pos == DigitRunEnd(text, old(pos)) && old(pos) < pos
      ensures AllDigits(text[old(pos)..pos]) && value == DecimalValue(text[old(pos)..pos])
    {
      var result := "";
      while currentChar.Some? && IsDigit(currentChar.value)
        invariant Valid()
        invariant old(pos) <= pos <= DigitRunEnd(text, old(pos))
        invariant DigitRunEnd(text, pos) == DigitRunEnd(text, old(pos))
        invariant result == text[old(pos)..pos]
        decreases |text| - pos
      {
        ghost var before := pos;
        result := result + [currentChar.value];
        Advance();
        assert text[old(pos)..pos] == text[old(pos)..before] + [text[before]];
      }
      value := DecimalValue(result);
    }

    /** `get_next_token`: the next token and the cursor past it, exactly as
        NextToken describes; an invalid character is an error. */
    method GetNextToken() returns (r: Result<Token, Error>)
      requires Valid()
      modifies this
      ensures Valid()
      ensures match NextToken(text, old(pos))
              case Ok(l) => r == Ok(l.token) && pos == l.next
              case Err(e) => r == Err(e)
    {
      while currentChar.Some?
        invariant Valid()
        invariant old(pos) <= pos <= SkipSpaces(text, old(pos))
        invariant SkipSpaces(text, pos) == SkipSpaces(text, old(pos))
        decreases |text| - pos
      {
        var c := currentChar.value;
        if IsSpace(c) {
          SkipWhitespace();
          continue;
        }
        if IsDigit(c) {
          var n := ScanInteger();
          return Ok(Token(Integer, IntValue(n)));
        }
        if c == '+' {
          Advance();
          return Ok(Token(Plus, CharValue('+')));
        }
        if c == '-' {
          Advance();
          return Ok(Token(Minus, CharValue('-')));
        }
        if c == '*' {
          Advance();
          return Ok(Token(Mul, CharValue('*')));
        }
        if c == '/' {
          Advance();
          return Ok(Token(Div, CharValue('/')));
        }
        if c == '(' {
          Advance();
          return Ok(Token(LParen, CharValue('(')));
        }
        if c == ')' {
          Advance();
          return Ok(Token(RParen, CharValue(')')));
        }
        return Err(InvalidCharacter);
      }
      return Ok(EofToken);
    }
  }
}
