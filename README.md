# Expression front end of RungeKutta, in Dafny

RungeKutta integrates systems of ordinary differential equations whose
right-hand sides are given as text, such as `"-x * x * x + y * y"` over the
variables `x` and `y`. This project models the part that turns such a formula
into something that can be evaluated, and proves properties of it.

- **`rk::Expression<Value>`** (src/expression). The current engine has three stages:
  - `tokenize` reads the formula character by character. It lower-cases the text, groups runs of letters, digits and `.` into words, and sends every word and every other non-space character to `getToken`. `getToken` tries the number converter first, then the fixed token table, then the variable names. A `-` becomes unary minus at the start, after an operator, after `(` or after `,`.
  - `parse` runs Dijkstra's shunting yard over the tokens to build a postfix program, `mainQueue`. A `)` with no `(`, or a parenthesis left on the stack, throws "Mismatched parentheses".
  - `evaluate` runs the program on a value stack.
- **Token classes** (src/expression/Tokens.h). Each token kind has a type, a precedence, an associativity and an `evaluate` that pops and pushes the caller's `std::stack`.
- **`utils_rk::replace`** (src/utils/utils.cpp). It replaces every occurrence of a pattern in place, searching left to right and never re-reading the text it has inserted.
- **The first parser** (src/parser). Two nearly identical classes, `Parser` and `Expression`:
  - `prepareString` lower-cases the text and pads each table key with spaces using `replace`, in `std::map` key order.
  - The text is split on whitespace, and each word is converted with `strtod` or looked up with `tokens.at`.
  - The same shunting yard runs, except that unmatched parentheses are tolerated.
  - `evaluate` drains the queue.

## Layout

- wrappers.dfy, module `Wrappers`: `Option`, `Result`, `Outcome`.
- utils.dfy, module `Utils`: character classes, `Lower`, `Find`, the reference `ReplaceAll`, and the `Replace` loop proved against it.
- tokens.dfy, module `Tokens`: the token datatype, `Arith` (the operations a `Value` supports), `Apply` (one token's `evaluate`), and a `ValueStack` class standing for `std::stack`.
- lexer.dfy, module `Lexer`: the token table, `GetToken`, the reference tokenizer (`Lexemes` and `Classify`), and the loop-invariant lemmas of `tokenize`.
- shunting.dfy, module `Shunting`: the reference shunting yard (`Feed`, `Shunt`, `Flush`, `Compile`) and its invariant.
- interpreter.dfy, module `Interpreter`: the reference interpreter `Exec`/`Run` and its algebra.
- expression.dfy, module `Expressions`: class `Expression`: the methods `Tokenize`, `Parse` and `Evaluate`, proved against the reference functions.
- proto_parser.dfy, module `ProtoParser`: the first parser's table, padding, word split, conversion and lenient shunting yard as functions; class `Parser`.
- proto_expression.dfy, module `ProtoExpression`: class `Expression` of src/parser, proved against the same functions.
- scenarios.dfy, module `Scenarios`: formulas from the repository's tests and `main.cpp`, worked through with `Value` = `real`.

**Values.** The value type is a type parameter `V`. Its operations are passed in as an `Arith<V>` record, so `+`, `-`, `*`, `/`, negation, `sin` and `pow` stay uninterpreted. The number converter (`stringToDouble` and its siblings) is a parameter `string -> Option<V>`. Stacks are sequences with the top last.

**Partial state.** A `parse` that throws leaves behind the tokens and the queue it had built so far; the model keeps that state too.

## Model

| member | source | states |
|---|---|---|
| Utils.ToLower | src/expression/Expression.cpp:101-102 | `tolower` leaves no upper-case letter, and does not change whether a character is a space, alphanumeric, `-` or `.` |
| Utils.Find | src/utils/utils.cpp:39-43 | `find(pat, from)` returns the leftmost occurrence at or after `from`; `None` (npos) exactly when there is none |
| Utils.FindInSuffix | src/utils/utils.cpp:43 | searching from `k + m` in `s` is searching from `m` in `s[k..]`, shifted by `k` |
| Utils.Replace | src/utils/utils.cpp:37-45 | the in-place loop yields exactly `ReplaceAll`: leftmost occurrence replaced, then the rest after it, with no rescan of inserted text |
| Utils.ReplaceStep | src/utils/utils.cpp:42-43 | one iteration: replacing at `p` and resuming at `p + |to|` keeps the loop invariant `r[..start] + ReplaceAll(r[start..])` |
| Utils.ReplaceFirst | src/utils/utils.cpp:39-42 | with the first occurrence at `q`, the result is `s[..q] + to` followed by the replaced remainder |
| Utils.ReplaceDone | src/utils/utils.cpp:40 | when `find` gives npos from `start`, the unsearched suffix is left as it is |
| Utils.ReplaceAbsent | src/utils/utils.cpp:39-40 | a pattern that does not occur leaves the string unchanged |
| Utils.ReplaceWithItself | src/utils/utils.cpp:37-45 | replacing a pattern with itself leaves the string unchanged |
| Tokens.Token.Precedence | src/expression/Tokens.h:32-157 | precedence is -1 exactly for non-operators; operators lie in 0..2 |
| Tokens.PrecedenceOrder | src/expression/Tokens.h:98-157 | unary minus binds tighter than `*` = `/`, which bind tighter than `+` = `-` |
| Tokens.LeftAssociativeUnlessUnaryMinus | src/expression/Tokens.h:185-188 | `isLeftAssociative` (Both or Left) holds for every token except unary minus |
| Tokens.ParenTokens | src/expression/Tokens.h:190-193 | `isParen` holds exactly for `(` and `)` |
| Tokens.Apply | src/expression/Tokens.h:34-177 | a token's `evaluate` changes the height by pushes minus arity and leaves the entries below its operands untouched |
| Tokens.ValueStack.constructor | src/expression/Expression.cpp:87 | a fresh `std::stack` is empty |
| Tokens.ValueStack.Top | src/expression/Tokens.h:100 | `s.top()` is the last pushed value |
| Tokens.ValueStack.Pop | src/expression/Tokens.h:101 | `s.pop()` removes exactly the top |
| Tokens.ValueStack.Push | src/expression/Tokens.h:104 | `s.push(v)` appends exactly `v` |
| Tokens.PopTwoPushOne | src/expression/Tokens.h:99-150 | a binary `evaluate` pops `a` then `b` and pushes `f(a, b)` over the untouched rest |
| Tokens.PopOnePushOne | src/expression/Tokens.h:158-177 | unary minus and `sin` replace the top `a` by `f(a)` |
| Tokens.EvaluateToken | src/expression/Tokens.h:34-177 | the in-place `evaluate` of every token kind leaves exactly `Apply` of the old stack |
| Lexer.TableHoldsNoOperands | src/expression/Expression.cpp:16-27 | no table entry is a number, a variable or undefined |
| Lexer.FindName | src/expression/Expression.cpp:139-141 | `std::find` over `vars`: the first index holding the name; `None` exactly when it is absent |
| Lexer.GetToken | src/expression/Expression.cpp:129-145 | converter first, then the table, then a declared name gives the variable token of its first index; "unknown token" exactly when all three miss |
| Lexer.MinusEntries | src/expression/Expression.cpp:19-20 | `"--"` is unary minus and `"-"` is subtraction |
| Lexer.WordLength | src/expression/Expression.cpp:100-103 | the run of alphanumerics and `.` that starts the text is maximal |
| Lexer.Lexemes | src/expression/Expression.cpp:100-125 | every lexeme is a non-empty word of word characters, or one non-space symbol |
| Lexer.WordRunIsOneLexeme | src/expression/Expression.cpp:102-107 | a maximal run of word characters becomes exactly one word |
| Lexer.LexemesCoverText | src/expression/Expression.cpp:100-125 | the lexemes spell the lower-cased text with its whitespace removed, nothing dropped or reordered |
| Lexer.TrailingSymbolIsLast | src/expression/Expression.cpp:108-110 | a symbol at the last character is the last lexeme and is marked as last |
| Lexer.ClassifyEmitsInOrder | src/expression/Expression.cpp:104-125 | token k is what lexeme k yields after tokens 0..k-1; on error the tokens are those before the failing lexeme |
| Lexer.ClassifyStopsAtError | src/expression/Expression.cpp:106-113 | after a throw, later input changes nothing |
| Lexer.ClassifySnoc | src/expression/Expression.cpp:104-121 | tokenizing one more lexeme appends its token or records its error |
| Lexer.TokenizedVariablesInRange | src/expression/Expression.cpp:139-141 | every variable token indexes into `vars` |
| Lexer.EmitMinus | src/expression/Expression.cpp:114-120 | a non-final `-` is unary exactly when no token precedes it or the last one is an operator, `(` or `,` |
| Lexer.MinusRule | src/expression/Expression.cpp:109-120 | in the token list, a `-` lexeme at k gives unary minus iff k = 0 or token k-1 is an operator, `(` or `,`; otherwise subtraction |
| Lexer.TrailingMinusFails | src/expression/Expression.cpp:109-113 | a formula ending in `-` fails: "Wrong syntax at pos \|s\|-1", unless an earlier word was already unknown |
| Lexer.FailsAtTrailingMinus | src/expression/Expression.cpp:110-113 | a final `-` lexeme always ends in an error |
| Lexer.ClassifyErrors | src/expression/Expression.cpp:111-144 | the only errors are "Wrong syntax" at the last position and "unknown token" |
| Lexer.MinusHasPredecessor | src/expression/Expression.cpp:114 | under the precondition of `Tokenize`, a `-` at character i > 0 has a non-space character before it, so `v.back()` is defined |
| Lexer.ScanFinish | src/expression/Expression.cpp:124-125 | when the loop ends with no pending word, the vector is the reference token list |
| Shunting.PopWhileMoves | src/expression/Expression.cpp:51-59 | the stack keeps a prefix of itself, and the popped entries reach the queue top first |
| Shunting.PopWhileStops | src/expression/Expression.cpp:51-59 | every popped entry satisfied the rule, and the new top does not |
| Shunting.Close | src/expression/Expression.cpp:61-70 | the only error a `)` raises is "Mismatched parentheses" |
| Shunting.Feed | src/expression/Expression.cpp:45-71 | one token raises an error only if it is `)`, and then "Mismatched parentheses" |
| Shunting.Flush | src/expression/Expression.cpp:73-78 | the final loop succeeds exactly when it empties the stack |
| Shunting.ClassesByType | src/expression/Expression.cpp:46-61 | operands, operations and `(` are exactly the token types the branches of `parse` test |
| Shunting.PopWhileKeepsOperands | src/expression/Expression.cpp:51-59 | popping never adds or reorders numbers and variables in the queue |
| Shunting.PopWhileKeepsOperations | src/expression/Expression.cpp:51-59 | popping moves operators and functions between stack and queue without losing or copying any |
| Shunting.PopWhileKeepsLeftParens | src/expression/Expression.cpp:51-59 | no popping loop removes a `(` from the stack |
| Shunting.LeftParenFound | src/expression/Expression.cpp:62-69 | a `)` finds a `(` exactly when the stack holds one, and removes exactly one |
| Shunting.FlushFindsLeftParen | src/expression/Expression.cpp:73-75 | the final loop stops early exactly when a `(` is on the stack |
| Shunting.ShiftKeepsInvariant | src/expression/Expression.cpp:46-47 | the Number/Variable branch keeps the invariant of `parse` |
| Shunting.OpenKeepsInvariant | src/expression/Expression.cpp:48-49 | the LeftParen/Function branch keeps the invariant |
| Shunting.ReduceKeepsInvariant | src/expression/Expression.cpp:50-60 | the Operator branch keeps the invariant |
| Shunting.CloseKeepsInvariant | src/expression/Expression.cpp:61-70 | the RightParen branch succeeds exactly when the `)` is matched, and then keeps the invariant |
| Shunting.SkipKeepsInvariant | src/expression/Expression.cpp:45-71 | a `,` matches no branch and is dropped with the invariant kept |
| Shunting.FeedKeepsInvariant | src/expression/Expression.cpp:45-71 | one iteration of the loop fails exactly at an unmatched `)` and otherwise keeps the invariant |
| Shunting.ShuntSnoc | src/expression/Expression.cpp:45-72 | the loop over one more token is one more step, or nothing after a throw |
| Shunting.ShuntStopsAtError | src/expression/Expression.cpp:66-67 | after a throw the remaining tokens are not looked at |
| Shunting.ShuntFailsOnParens | src/expression/Expression.cpp:61-67 | the loop only ever throws "Mismatched parentheses" |
| Shunting.ShuntSpec | src/expression/Expression.cpp:45-72 | the loop succeeds exactly when no prefix closes more parentheses than it opens, and then keeps the invariant |
| Shunting.CompileSpec | src/expression/Expression.cpp:44-78 | `parse` succeeds iff the parentheses balance; then the stack is empty, the program holds no parenthesis or comma, numbers and variables keep input order, and the operators and functions are a permutation of the input's |
| Interpreter.ExecSnoc | src/expression/Expression.cpp:88-90 | running one more token applies it to the stack the prefix left |
| Interpreter.ExecAppend | src/expression/Expression.cpp:88-90 | running `a + b` is running `b` on what `a` leaves |
| Interpreter.ExecHeight | src/expression/Expression.cpp:87-91 | a run that succeeds changes the height by the sum of the token effects |
| Interpreter.ExecFrame | src/expression/Expression.cpp:88-90 | a program that runs on a stack runs the same way above any entries below it |
| Interpreter.ApplyFrame | src/expression/Tokens.h:99-177 | a token's `evaluate` acts the same above any entries below its operands |
| Interpreter.PrefixFails | src/expression/Expression.cpp:88-90 | a program whose prefix fails fails |
| Interpreter.PrefixRuns | src/expression/Expression.cpp:88-90 | every prefix of a program that runs also runs |
| Interpreter.StructuralTokensAreSkips | src/expression/Tokens.h:34 | `(`, `)` and `,` keep the base-class no-op `evaluate` |
| Expressions.Expression.Tokenize | src/expression/Expression.cpp:96-126 | the character loop leaves exactly the reference tokens and reports exactly the reference error; the other fields are unchanged |
| Expressions.Expression.EndWord | src/expression/Expression.cpp:105-107 | flushing a pending word appends its token or stops with the reference error |
| Expressions.Expression.ReadSymbol | src/expression/Expression.cpp:108-121 | a non-space symbol appends the reference token, including the unary-minus choice, or stops with the reference error |
| Expressions.Expression.Parse | src/expression/Expression.cpp:30-79 | the fields are reset, the compiled function cleared included; `expression` is the reference token list; on a tokenizer error the program is empty, otherwise it is `Compile`'s queue, with success exactly when `Compile` succeeds |
| Expressions.Expression.FeedToken | src/expression/Expression.cpp:45-71 | one iteration is one `Feed` step on queue and stack |
| Expressions.Expression.MoveWhile | src/expression/Expression.cpp:51-59 | the inner `while` is `PopWhile` |
| Expressions.Expression.FlushStack | src/expression/Expression.cpp:73-78 | the final `while` is `Flush`, failing exactly when a parenthesis is left |
| Expressions.Expression.Evaluate | src/expression/Expression.cpp:82-92 | with no compiled function set, the interpreted path returns the top of the stack the reference interpreter leaves |
| ProtoParser.PrototypeHeights | src/parser/Tokens.h:24-127 | in the prototype classes a number pushes one, a binary operator pops two and pushes one, the rest keep the height, and deeper entries are untouched |
| ProtoParser.TableIsLaterTableWithoutCommaAndPow | src/parser/Parser.cpp:21-30 | the prototype table is the later table without `,` and `pow` |
| ProtoParser.KeysInMapOrder | src/parser/Parser.cpp:113 | `Keys` lists exactly the table's keys, in the ascending order `std::map` iterates them |
| ProtoParser.GetToken | src/parser/Parser.cpp:128-137 | the number converter first, else the `tokens.at` entry; the error names the word; it throws exactly for a non-number outside the table, and never yields a variable, comma or `pow` |
| ProtoParser.GetTokenAgrees | src/parser/Parser.cpp:128-137 | off `,` and `pow`, the prototype lookup agrees with the later `getToken` with no variables |
| ProtoParser.PadKeepsNonSpace | src/parser/Parser.cpp:114 | padding one key with spaces changes only whitespace |
| ProtoParser.PaddedKeepsNonSpace | src/parser/Parser.cpp:113-115 | the whole padding loop changes only whitespace |
| ProtoParser.MinusPassSpacesMinus | src/parser/Parser.cpp:113-115 | after the `-` pass every `-` is followed by a space |
| ProtoParser.NoDoubleMinus | src/parser/Parser.cpp:113-115 | text in which every `-` is followed by a space contains no `--` |
| ProtoParser.DoubleMinusPassIsIdle | src/parser/Parser.cpp:21-30 | the `--` key, padded after `-` in map order, never matches: `prepareString` is the padding by the other keys |
| ProtoParser.PaddedSplit | src/parser/Parser.cpp:113-115 | padding by `a + b` is padding by `a`, then by `b` |
| ProtoParser.Words | src/parser/Parser.cpp:86-88 | the `istream_iterator` split yields only non-empty words |
| ProtoParser.WordsHaveNoSpace | src/parser/Parser.cpp:86-88 | no word read by `istream_iterator` holds a whitespace character |
| ProtoParser.WordsOfRun | src/parser/Parser.cpp:86-88 | a non-empty text without whitespace is read as exactly one word, itself |
| ProtoParser.WordsAfterSpace | src/parser/Parser.cpp:86-88 | whitespace in front of the text adds no word |
| ProtoParser.WordsAfterRun | src/parser/Parser.cpp:86-88 | a run of non-space characters followed by whitespace or the end is one whole word, and the words of the rest follow |
| ProtoParser.WordsSplitAtSpace | src/parser/Parser.cpp:86-88 | every whitespace character is a word boundary: the words of `a + [c] + b` with `c` a space are the words of `a`, then those of `b` |
| ProtoParser.WordsKeepNonSpace | src/parser/Parser.cpp:86-88 | the words, joined, are the text without its whitespace |
| ProtoParser.WordsOfPreparedKeepText | src/parser/Parser.cpp:84-88 | the words of the prepared text, joined, are the lower-cased input without whitespace |
| ProtoParser.TokenVector | src/parser/Parser.cpp:89-107 | a successful conversion gives one token per word |
| ProtoParser.TokenVectorStops | src/parser/Parser.cpp:104-105 | after a throw the remaining words are not looked at |
| ProtoParser.TokenVectorPrefix | src/parser/Parser.cpp:90-107 | the tokens of a prefix of the words are the prefix of the tokens |
| ProtoParser.TokenAt | src/parser/Parser.cpp:90-107 | token i is `getToken` of word i, with the `-` choice made on tokens 0..i-1 |
| ProtoParser.MinusToken | src/parser/Parser.cpp:96-102 | the word `-` is unary minus after nothing, an operator or `(`, and subtraction otherwise |
| ProtoParser.MinusRule | src/parser/Parser.cpp:91-102 | in the vector, a `-` word at i is unary iff i = 0 or token i-1 is an operator or `(`; otherwise subtraction |
| ProtoParser.TrailingMinusAccepted | src/parser/Parser.cpp:92-94 | a trailing `-` is not an error |
| ProtoParser.TokenVectorFailure | src/parser/Parser.cpp:135 | a failure names one of the words, a non-number outside the table |
| ProtoParser.TokenVectorInPrototype | src/parser/Parser.cpp:128-137 | every token the prototype produces is a prototype class |
| ProtoParser.LenientShuntSnoc | src/parser/Parser.cpp:42-67 | the loop over one more token is one more `LenientFeed` step |
| ProtoParser.LenientFeedAgrees | src/parser/Parser.cpp:43-66 | wherever the later branch does not throw, one prototype step gives the same queue and stack |
| ProtoParser.LenientShuntAgrees | src/parser/Parser.cpp:42-67 | where the later loop succeeds, both loops reach the same queue and stack |
| ProtoParser.LenientCompileAgrees | src/parser/Parser.cpp:42-71 | where the later `parse` succeeds, the prototype builds the same program |
| ProtoParser.LenientFeedKeepsInvariant | src/parser/Parser.cpp:43-66 | one prototype step keeps the queue and stack shapes and the operands in input order |
| ProtoParser.LenientShuntKeepsInvariant | src/parser/Parser.cpp:42-67 | the whole prototype loop keeps that invariant |
| ProtoParser.NoOperandsStacked | src/parser/Parser.cpp:68-71 | the flushed stack adds no numbers to the program |
| ProtoParser.LenientKeepsNumbers | src/parser/Parser.cpp:42-71 | numbers reach the program in input order, even with unmatched parentheses |
| ProtoParser.RunStep | src/parser/Parser.cpp:76-80 | in a program that runs, each next token can be applied to what its prefix leaves |
| ProtoParser.Parser.PrepareString | src/parser/Parser.cpp:110-116 | lower-casing, then the `replace` loop over the keys in map order, yields `Prepared` |
| ProtoParser.Parser.PrepareTokenVector | src/parser/Parser.cpp:84-108 | the result is the reference conversion of the words of the prepared text |
| ProtoParser.Parser.ConvertWords | src/parser/Parser.cpp:90-107 | the `for` loop over the words is `TokenVector` |
| ProtoParser.Parser.ReadWord | src/parser/Parser.cpp:91-106 | one word is `getToken` of its name, with `-` read as `--` or `-` |
| ProtoParser.Parser.Parse | src/parser/Parser.cpp:33-72 | on a throw the queue is empty; otherwise it is the lenient program of the tokens |
| ProtoParser.Parser.ShuntTokens | src/parser/Parser.cpp:42-67 | the `for` loop is `LenientShunt` |
| ProtoParser.Parser.FeedToken | src/parser/Parser.cpp:43-66 | one iteration is one `LenientFeed` step |
| ProtoParser.Parser.MoveWhile | src/parser/Parser.cpp:48-54 | the inner `while` is `PopWhile` |
| ProtoParser.Parser.FlushStack | src/parser/Parser.cpp:68-71 | the final `while` appends the whole stack, top first, `(` included |
| ProtoParser.Parser.Evaluate | src/parser/Parser.cpp:74-82 | returns the top of the stack the reference interpreter leaves, and empties the queue |
| ProtoParser.Parser.EvaluateFront | src/parser/Parser.cpp:77-79 | one iteration applies the front token and pops it from the queue |
| ProtoExpression.Expression.PrepareString | src/parser/Expression.cpp:110-116 | lower-casing, then `utils_rk::replace` over the keys in map order, yields `Prepared` |
| ProtoExpression.Expression.Tokenize | src/parser/Expression.cpp:84-108 | the result is the reference conversion of the words of the prepared text |
| ProtoExpression.Expression.ConvertWords | src/parser/Expression.cpp:90-107 | the `for` loop over the words is `TokenVector` |
| ProtoExpression.Expression.ReadWord | src/parser/Expression.cpp:91-106 | one word is `getToken` of its name, with `-` read as `--` or `-` |
| ProtoExpression.Expression.Parse | src/parser/Expression.cpp:33-72 | on a throw the queue is empty; otherwise it is the lenient program of the tokens |
| ProtoExpression.Expression.ShuntTokens | src/parser/Expression.cpp:42-67 | the `for` loop is `LenientShunt` |
| ProtoExpression.Expression.FeedToken | src/parser/Expression.cpp:43-66 | one iteration is one `LenientFeed` step |
| ProtoExpression.Expression.MoveWhile | src/parser/Expression.cpp:48-54 | the inner `while` is `PopWhile` |
| ProtoExpression.Expression.FlushStack | src/parser/Expression.cpp:68-71 | the final `while` appends the whole stack, top first, `(` included |
| ProtoExpression.Expression.Evaluate | src/parser/Expression.cpp:74-82 | returns the top of the stack the reference interpreter leaves, and empties the queue |
| ProtoExpression.Expression.EvaluateFront | src/parser/Expression.cpp:77-79 | one iteration applies the front token and pops it from the queue |
| Scenarios.TwoXPlusYCompiles | test/tests/1.cpp:38-39 | `2 * x + y` compiles to `2 x * y +` |
| Scenarios.TwoXPlusYRuns | test/tests/1.cpp:38-39 | `2 x * y +` evaluates to 2a + b at every point, hence the values 0, 1, 2, 3, 4 that test/tests/1.cpp expects |
| Scenarios.PowCompiles | test/tests/1.cpp:144 | `pow(2, x)` compiles to `2 x pow`: the comma is dropped |
| Scenarios.PowRuns | test/tests/1.cpp:144-146 | `2 x pow` evaluates to pow(2, a): the first argument is the base |
| Scenarios.UnmatchedCloseSkipped | src/parser/Parser.cpp:63-65 | the first parser passes over `1 )`, where the later one throws |
| Scenarios.UnclosedOpenKept | src/parser/Parser.cpp:68-71 | the first parser moves a leftover `(` into the program, where the later one throws |
| Scenarios.PreparedTwoTimesThree | src/parser/Parser.cpp:110-116 | `prepareString("2*3")` is `"2 * 3"` |
| Scenarios.CubeCompiles | main.cpp:7 | `-x * x * x + y * y` compiles to `x -- x * x * y y * +` |
| Scenarios.CubeRuns | main.cpp:7-8 | that program evaluates to 1 at x = 2, y = 3 |

## Left out

- Native compilation is not modelled: `compile`, the destructor and the compiled branch of `evaluate` write a C++ file, call `system` and load the library with `dlopen` (src/expression/Expression.cpp:148-207, 84-86). The field `compiled` is kept as a flag. The constructor and `parse` clear it, and nothing in the model sets it.
- Expressions.Expression.Evaluate: requires `!compiled`. It models only the interpreted branch; the call through the compiled function pointer is not modelled.
- Floating point is not modelled. `Value` is abstract, and its arithmetic, `sin` and `pow` are the parameters in `Arith`. Rounding, infinities and NaN are not represented, and the scenarios use `real`.
- The number converters are not modelled: `stringToFloat`, `stringToDouble` and `stringToLongDouble` wrap `strtof`, `strtod` and `strtold`. They appear as a parameter `string -> Option<V>`.
- The demangler `typeNameToString` and the Runge-Kutta integrators are not modelled. They are numeric or foreign code outside the expression front end.
- `Parser::replace` (src/parser/Parser.cpp:118-126) is the same loop as `utils_rk::replace` and is modelled once, by `Utils.Replace`.
- Characters are taken to be ASCII. The source works on bytes and calls `tolower` and `isalnum` on a plain `char` (src/expression/Expression.cpp:101-102), which is undefined behaviour for a negative `char` such as a non-ASCII byte. The model reads a string as Dafny characters, so a multi-byte UTF-8 letter is one symbol rather than several one-byte symbols, and the text of an "unknown token" error can differ. Non-ASCII input and the undefined `tolower`/`isalnum` behaviour are not modelled.
- Utils.Replace: requires a non-empty pattern. With an empty pattern `utils_rk::replace` (src/utils/utils.cpp:39-44) never terminates, because `find("", pos)` keeps succeeding at `pos` and `pos` never passes the end of the string. Every caller passes a non-empty table key, and that non-termination is not modelled.
- The whitespace split through `std::istringstream` is modelled as the function `ProtoParser.Words` rather than as a stream loop.
- Expressions.Expression.Tokenize: requires that a `-` not follow leading whitespace. The source tests character index 0 rather than an empty token vector, so on input like `" -x"` it reads `v.back()` of an empty vector, which is undefined behaviour. `Expressions.Expression.Parse` carries the same precondition.
- Expressions.Expression.Tokenize: requires an empty token vector. It is called only from `parse`, right after `expression.clear()`.
- Expressions.Expression.Evaluate: requires that the program runs and leaves a value. Otherwise the source reads the top of an empty `std::stack` or `vars` out of range, which is undefined behaviour.
- ProtoParser.Parser.Evaluate: requires that the program runs and leaves a value, for the same reason. `ProtoExpression.Expression.Evaluate` has the same requirement.
- Tokens.Apply: its contract states only the height change and that deeper entries are untouched. Which value is pushed is given by the definition, which follows each class's `evaluate`, and is exercised in `Scenarios`.
- Delimiter and `pow` are added to the token datatype. src/expression/Tokens.h as shipped defines neither `DelimiterToken` nor `PowToken`, yet src/expression/Expression.cpp:24-26 and 115 use them. Delimiter is a structural token with the base-class no-op `evaluate`. `pow` is a binary function that pops `a`, then `b`, and pushes pow(b, a), as test/tests/1.cpp:144-146 expects.
- Calls with several arguments are not claimed to compile correctly. Since `,` is dropped, `pow(a + 1, b)` yields `a 1 b + pow`; only the atomic first argument of the `pow` scenario is covered.
- The scenario for `pow(e, x)` uses the base 2. The test writes e as the decimal that `std::to_string` prints, and either base is one number token, so the compiled shape is the same.
- Words are run through the tokenizer only in general lemmas. The literal `"-x * x * x + y * y"` is worked through from its token list, not from its characters.
- The test driver, benchmarks and timers under test/ are not modelled; they serve only as sources of expected values.
