# A verified model of a four-operation calculator interpreter

The modelled program is a small arithmetic interpreter, `main.py`. It turns one line of text into a number in three stages:

- **`Lexer`** splits the text into tokens on demand. A token is an integer, one of `+ - * / ( )`, or EOF.
- **`Parser`** is a recursive descent over one look-ahead token. It builds a tree of `BinOp`, `UnaryOp` and `Num` nodes with this grammar:

  ```
  expr   : term ((PLUS | MINUS) term)*
  term   : factor ((MUL | DIV) factor)*
  factor : (PLUS | MINUS) factor | INTEGER | LPAREN expr RPAREN
  ```

- **`Interpreter`** walks the tree and computes a Python `int` or, once `/` is involved, a `float`.

The Dafny project follows the same structure, one module per stage.

| file | module | what it holds |
|---|---|---|
| `wrappers.dfy` | `Wrappers` | `Option`, `Result` and `Outcome`, to express raised exceptions as values |
| `tokens.dfy` | `Tokens` | token kinds, tokens, the four errors the pipeline can raise, the spelling of symbols |
| `lexspec.dfy` | `LexSpec` | the lexer as functions of text and cursor: `NextToken` (one `get_next_token`) and `Tokenize` (every token it hands out) |
| `lexer.dfy` | `Lexing` | the `Lexer` class with its cursor fields and its `while` loops, proved to follow `LexSpec` |
| `ast.dfy` | `Ast` | the tree; children are `Option<Node>` because `factor` returns `None` on a token that cannot start a factor |
| `parsespec.dfy` | `ParseSpec` | the parser as functions over the token stream and a look-ahead index, with one-step lemmas for each production |
| `parser.dfy` | `Parsing` | the `Parser` class pulling tokens from a `Lexer`, each method proved to compute its `ParseSpec` function |
| `interpreter.dfy` | `Interpreting` | Python's `int`/`float` arithmetic, `Visit`, an exact-real reference meaning `Denote`, the `Interpreter` class, and `Evaluate` for one line |
| `spelling.dfy` | `Spelling` | a way of writing any token sequence as text, and the proof that the lexer reads that text back as exactly those tokens |
| `unparse.dfy` | `Unparse` | a printer for complete trees that uses only the parentheses precedence needs. Parsing its output gives the tree back, and the whole pipeline on its text evaluates the tree |
| `examples.dfy` | `Examples` | grammar facts (left folding, precedence, a missing operand) and whole lines run through the pipeline |

The lexer is lazy: the parser pulls a token only when it eats the previous one. So a line such as `1 2@` evaluates to `1`, because the parser stops after `1` and the lexer never reaches `@`. The model keeps this. `Tokenize` yields the tokens before EOF together with how the text ends: `AtEof`, or `BadChar` if an invalid character stops the lexer. Pulling a token past the tokens of a `BadChar` stream is the "Invalid character" error. `Parser.Valid` ties the live lexer to that stream: the look-ahead token is the one at `index`, and what the lexer has still to hand out is the rest of the stream after it.

Behaviour of the code that the model keeps and a reader may not expect:

- `1+`, `1+*2` and `()` are not syntax errors. `factor` returns `None` for a token that cannot start a factor. In `1+` and `1+*2` that `None` becomes a child of an operator node. In `()` the parenthesised expression is itself `None`, so `parse` returns `None`. Evaluation then fails because `None` has no visit method (`MissingOperand`, `RunMissingOperand`, `RunMisplacedOperator`, `RunEmptyParentheses`).
- `parse` does not demand EOF after the expression, so trailing tokens are ignored (`ParsePrinted` with a non-empty `rest`, `RunTrailingIgnored`).
- An empty line is never parsed. `Lexer("")` raises `IndexError` on `text[0]`, and `main` skips empty lines, so the lexer's constructor requires a non-empty text.
- `/` always gives a `float`, even for exact quotients. A zero divisor raises `ZeroDivisionError`.
- Errors carry no character or position.

## Model

| member | source | states |
|---|---|---|
| Tokens.SymbolKind | main.py:82-104 | the six symbol characters, and only they, are recognised, each as the kind whose spelling it is |
| Tokens.SymbolRoundTrip | main.py:82-104 | recognising the spelling of a symbol kind gives that kind back |
| LexSpec.SkipSpaces | main.py:63-65 | whitespace skipping stops at the first non-whitespace character or at the end of the text, and passes only whitespace |
| LexSpec.DigitRunEnd | main.py:67-71 | the digit loop stops at the first non-digit or at the end of the text, and passes only digits |
| LexSpec.NextToken | main.py:74-108 | a token never moves the cursor back; a non-EOF token moves it forward and stays within the text; an EOF token leaves it at or past the end of the text; every token is well-formed |
| LexSpec.IntegerToken | main.py:67-80 | a digit under the cursor, after whitespace, gives an INTEGER token with the decimal value of the maximal digit run, and the cursor ends on the first non-digit or at the end |
| LexSpec.SymbolToken | main.py:82-104 | each of `+ - * / ( )` gives its own kind and advances the cursor by exactly one |
| LexSpec.WhitespaceSkipped | main.py:75-78 | whitespace before a token does not change the token or where the cursor ends |
| LexSpec.InvalidCharacterExactly | main.py:74-106 | the lexer raises exactly when the first non-whitespace character is neither a digit nor one of the six symbols |
| LexSpec.EofRepeats | main.py:75-108 | once EOF has been returned, every later call returns EOF again without moving the cursor |
| LexSpec.TokenizeStep | main.py:74-108 | the stream from a cursor is the next token followed by the stream from where that token ends |
| LexSpec.DecimalValue | main.py:72 | `int(result)` of a digit string is less than 10 to the power of its length. Without a leading zero it is at least 10 to the power of its length minus one, so the value has exactly as many digits as the string |
| LexSpec.Tokenize | main.py:74-108 | the tokens handed out one `get_next_token` call after another, up to EOF or the first invalid character, are all well-formed and none of them is EOF |
| Lexing.Lexer.constructor | main.py:48-51 | a new lexer is at position 0 with `current_char` the first character |
| Lexing.Lexer.Advance | main.py:56-61 | the cursor moves by one, and `current_char` becomes the character there, or None past the end |
| Lexing.Lexer.SkipWhitespace | main.py:63-65 | the loop leaves the cursor exactly where SkipSpaces says |
| Lexing.Lexer.ScanInteger | main.py:67-72 | the loop leaves the cursor at the end of the maximal digit run, which is non-empty, and returns its decimal value |
| Lexing.Lexer.GetNextToken | main.py:74-108 | the method returns exactly what NextToken describes, with the same cursor, and raises exactly where NextToken fails |
| Parsing.Pull | main.py:120-122 | pulling a token from a lexer with part of a stream left raises exactly when there is no look-ahead there, and otherwise hands out that look-ahead and leaves the rest |
| Parsing.Parser.Create | main.py:113-115 | building a parser pulls the first token. It fails with "Invalid character" exactly when the text has no first token, and otherwise its look-ahead is token 0 of the stream |
| Parsing.Parser.Eat | main.py:120-124 | `eat` advances exactly when the look-ahead has the expected kind. On a mismatch it raises "Invalid syntax", and the look-ahead and the lexer are unchanged |
| Parsing.Parser.Factor | main.py:126-143 | the method returns the node and the look-ahead index the ParseSpec `factor` function gives, or its error |
| Parsing.Parser.Term | main.py:145-154 | the `while` loop computes the ParseSpec `term` function: node, look-ahead index and errors |
| Parsing.Parser.Expr | main.py:156-165 | the `while` loop computes the ParseSpec `expr` function: node, look-ahead index and errors |
| Parsing.Parser.Parse | main.py:167-168 | `parse` is one `expr`. On success the parser stays valid with its look-ahead on the first token after the expression, which is EOF or an unread trailing token and is not eaten. On a fresh parser it is ParseSpec.Parse of the whole token stream |
| ParseSpec.Eat | main.py:120-124 | eating succeeds exactly when the kind matches and a next token can be pulled, and then moves to the following index. Otherwise it fails with "Invalid syntax" on a mismatch, or "Invalid character" from the lexer |
| ParseSpec.Factor | main.py:126-143 | a factor never moves the look-ahead back, leaves a look-ahead that exists, and raises only "Invalid character" or "Invalid syntax" |
| ParseSpec.TermLoop | main.py:147-154 | the `term` loop never moves back, and it stops only at a look-ahead that is neither `*` nor `/` |
| ParseSpec.ExprLoop | main.py:158-165 | the `expr` loop never moves back, and it stops only at a look-ahead that is neither `+` nor `-` |
| ParseSpec.Term | main.py:145-154 | `term` never moves the look-ahead back, leaves a look-ahead that exists, and raises only "Invalid character" or "Invalid syntax" |
| ParseSpec.Expr | main.py:156-165 | `expr` never moves the look-ahead back, leaves a look-ahead that exists, and raises only "Invalid character" or "Invalid syntax" |
| ParseSpec.Parse | main.py:113-168 | building the parser and calling `parse` fails with "Invalid character" when there is no first token, and raises only "Invalid character" or "Invalid syntax" |
| ParseSpec.FactorSigned | main.py:128-134 | at a sign, `factor` is that sign applied to the factor after it |
| ParseSpec.FactorInteger | main.py:136-138 | at an integer, `factor` is a leaf with its value, one token further on |
| ParseSpec.FactorParenthesised | main.py:139-143 | at `(`, `factor` is the inner expression's tree, one token past the closing `)` |
| ParseSpec.FactorUnclosed | main.py:139-143 | at `(`, an inner expression not followed by `)` is "Invalid syntax" |
| ParseSpec.FactorMissing | main.py:126-143 | at a token that cannot start a factor, `factor` returns None and consumes nothing |
| ParseSpec.FirstFactorFails | main.py:145-157 | an error in the first factor is the error of `term` and of `expr` |
| ParseSpec.TermLoopTurn | main.py:147-153 | one turn of the `term` loop folds the tree so far as the left child of the new `*`/`/` node |
| ParseSpec.ExprLoopTurn | main.py:158-164 | one turn of the `expr` loop folds the tree so far as the left child of the new `+`/`-` node |
| Interpreting.Sum | main.py:186-187 | `+` is exact, and int exactly on two ints |
| Interpreting.Difference | main.py:188-189 | `-` is exact, and int exactly on two ints |
| Interpreting.Product | main.py:190-191 | `*` is exact, and int exactly on two ints |
| Interpreting.Quotient | main.py:192-193 | `/` raises ZeroDivisionError exactly on a zero divisor, and otherwise always gives a float |
| Interpreting.Operate | main.py:185-193 | the operator dispatch gives an int exactly when the operator is not `/` and both operands are ints |
| Interpreting.Negation | main.py:198-199 | unary `-` negates and keeps int as int |
| Interpreting.Visit | main.py:173-202 | evaluation succeeds only on a tree with no missing node. On a complete tree without division it always succeeds, with an int |
| Interpreting.OperateIsExact | main.py:185-193 | the operator dispatch on ints and floats agrees with exact arithmetic, and fails exactly where exact arithmetic is undefined |
| Interpreting.VisitComputesDenote | main.py:173-202 | evaluation succeeds exactly when the tree's exact meaning is defined, and then returns that meaning |
| Interpreting.IntExactlyWithoutDivision | main.py:185-202 | a successful result is an int exactly when the tree contains no division |
| Interpreting.LeftErrorFirst | main.py:185-193 | the left operand is visited first, so its error is the error of the whole operation |
| Interpreting.DoubleNegation | main.py:195-199 | `--x` evaluates to what `x` evaluates to |
| Interpreting.Run | main.py:216-219 | one line fails with the parse error when parsing fails. Otherwise it evaluates exactly when the parsed tree's exact meaning is defined, to that meaning, and to an int exactly when the tree has no division |
| Interpreting.Interpreter.constructor | main.py:182-183 | the interpreter holds the parser it is given |
| Interpreting.Interpreter.Interpret | main.py:204-206 | `interpret` returns the value of the tree `parse` builds, or the first error raised. When parsing succeeds the parser is left valid, with its look-ahead on the first token after the expression |
| Interpreting.Evaluate | main.py:216-219 | one line through lexer, parser and interpreter is the function Run of that line. Two fresh pipelines on the same line therefore agree |
| Spelling.Digits | main.py:67-72 | the numeral written for `n` is all digits, and the lexer's decimal value of it is `n` |
| Spelling.SpelledToken | main.py:74-108 | a spelled token followed by a space, after whitespace, is lexed back as that token, ending right after its spelling |
| Spelling.LexRendered | main.py:74-108 | the text written for any sequence of non-EOF tokens is lexed back as exactly those tokens, followed by EOF |
| Unparse.FactorParses | main.py:126-143 | parsing a printed factor gives back its tree, with the look-ahead right after it |
| Unparse.ParenthesisedParses | main.py:139-143 | a parenthesised printed expression parses as one factor with that expression's tree |
| Unparse.TermParses | main.py:145-154 | parsing a printed term reaches the `term` loop right after it, with the tree folded to the left |
| Unparse.TermTurn | main.py:147-153 | one loop turn over `* factor` or `/ factor` rebuilds the printed `*`/`/` node |
| Unparse.ExprParses | main.py:156-165 | parsing a printed expression that no `*` or `/` follows reaches the `expr` loop right after it, with the tree folded to the left |
| Unparse.ExprTurn | main.py:158-164 | one loop turn over `+ term` or `- term` rebuilds the printed `+`/`-` node |
| Unparse.ParsePrinted | main.py:156-168 | `parse` gives back every complete tree from its printed tokens, whatever follows that cannot continue an expression |
| Unparse.ParenthesesTransparent | main.py:139-143 | `(e)` parses to the same tree as `e` |
| Unparse.UnclosedParenthesis | main.py:139-143 | `(` followed by a complete expression and then the end of the text is "Invalid syntax" |
| Unparse.RunPrinted | main.py:47-206 | lexing, parsing and evaluating the text of a printed complete tree evaluates that tree |
| Unparse.RunPrintedDenotes | main.py:47-206 | the text of a printed complete tree evaluates to the tree's exact meaning exactly when that meaning is defined. The result is an int exactly when there is no division |
| Examples.SameLevelFoldsLeft | main.py:145-165 | two operators of the same level fold to the left: `a-b-c` is `(a-b)-c` |
| Examples.ProductBindsTighterRight | main.py:145-165 | `a+b*c` is `a+(b*c)` |
| Examples.ProductBindsTighterLeft | main.py:145-165 | `a*b+c` is `(a*b)+c` |
| Examples.MissingOperand | main.py:126-165 | an operator with nothing after it gets a None right child, which evaluation rejects with no visit method |
| Examples.RunLeftFold | main.py:145-206 | `8-4-2` evaluates to 2 |
| Examples.RunPrecedence | main.py:145-206 | `2+3*4` evaluates to 14 |
| Examples.RunDoubleMinus | main.py:126-199 | `--5` evaluates to 5 |
| Examples.RunQuotient | main.py:185-193 | `a/b` on two digits is the float `a/b`, or ZeroDivisionError when `b` is 0 |
| Examples.RunInvalidCharacter | main.py:74-124 | `1+@` raises "Invalid character" when `+` is eaten and `@` is pulled |
| Examples.RunTrailingIgnored | main.py:167-168 | `1 2@` evaluates to 1: the rest of the line is never read |
| Examples.RunUnclosed | main.py:139-143 | `(1+2` is "Invalid syntax" |
| Examples.RunMissingOperand | main.py:126-206 | `1+` fails at evaluation, with no visit method |
| Examples.RunMisplacedOperator | main.py:126-206 | `1+*2` parses as `1+(None*2)` and fails at evaluation, with no visit method |
| Examples.RunWhitespaceInsensitive | main.py:63-78 | `1+2` and `1 +    2` both evaluate to 3 |
| Examples.RunEmptyParentheses | main.py:139-143 | `()` parses to `None` itself, and evaluation fails with no visit method |

## Left out

- `main`'s read loop, `input` and `print` are I/O. `Evaluate` models one iteration on a non-empty line.
- `Lexing.Lexer.constructor`: requires a non-empty text. On `""` the source raises `IndexError` from `text[0]`, and `main` never builds a lexer for an empty line.
- `Lexing.Lexer.ScanInteger`: requires a digit under the cursor, which is the only way `get_next_token` calls it. On no digits, `int('')` would raise `ValueError`; this is not modelled.
- `Interpreting.Quotient`: floats are exact reals. The model has no rounding of `/`, of `+ - *` on floats, or of `int`-to-`float` conversion, and no `OverflowError` on huge ints. Rounding can also move where `ZeroDivisionError` is raised. Python evaluates `1/(1/49*49-1)` to `-9007199254740992.0`, because `1/49*49` rounds to just below 1. The model gives `ZeroDivision`. So "succeeds exactly when the exact meaning is defined" (`VisitComputesDenote`, `Run`, `RunPrintedDenotes`) holds of the model's exact arithmetic, not of Python's floats.
- `Interpreting.Visit` and `ParseSpec.Factor`: Python's recursion limit (1000 frames by default) is not modelled. `visit` takes two frames per level of the tree: `visit` and `visit_BinOp` or `visit_UnaryOp`. So a tree about 500 levels deep raises `RecursionError` in `visit`. Such a tree comes from about 500 nested unary operators, and equally from a flat line with about 500 binary operators in one chain, such as `1+1+…+1`, because the `while` loops build a left-deep tree. Parsing takes three frames per nested parenthesis (`factor`, `expr` and `term`), so about 330 nested parentheses raise `RecursionError` while parsing. In each case the model returns a value. The claims that evaluation always succeeds (`Visit`) or succeeds exactly when the meaning is defined (`Run`, `RunPrinted`, `RunPrintedDenotes`) hold only for trees less than about 500 levels deep, parsed from lines with fewer than about 330 nested parentheses.
- `Interpreting.Visit`: the four errors stand for the Python exceptions. A `None` child gives `NoVisitMethod`, the error `generic_visit` is meant to raise. As written, building its message evaluates `node.__name__` on `None`, which raises `AttributeError` instead. Either way the line ends with an uncaught exception, and the model does not tell exception classes apart.
- `LexSpec.IsSpace` and `LexSpec.IsDigit` are Python's `str.isspace` and `str.isdigit` on ASCII only. Non-ASCII whitespace is not modelled. Neither are non-ASCII characters for which `str.isdigit` holds. `int()` accepts some of these (the decimal digits of other scripts). On others, such as `'²'` or `'①'`, `int()` raises `ValueError` at main.py:72.
- `LexSpec.DecimalValue`: Python's limit on the number of digits `int()` accepts is not modelled.
- `Token.__str__`/`__repr__` only produce text for printing, and are not modelled.
- The dispatch of `visit` by `getattr` on the class name is modelled as a `match` on the node's constructor.
- Errors carry no message text, character or position.
- The `Parser` holds the token stream and its index as ghost state. This state only states what the live lexer still has to hand out; it is not behaviour of the program.
