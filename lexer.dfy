/**
 * What `Expression<Value>::tokenize` and `getToken` compute
 * (src/expression/Expression.cpp), as reference definitions: the lowered
 * input is cut into lexemes (maximal runs of letters, digits and '.', and
 * single non-space characters), and each lexeme is resolved to a token, with
 * a '-' turned into unary minus where no operand can precede it.
 */
module Lexer {
  import opened Wrappers
  import opened Utils
  import opened Tokens

  /** The static table `Expression<Value>::tokens`. */
  function TokenTable<V>(): map<string, Token<V>> {
    map[
      "*" := MulToken, "+" := SumToken, "-" := SubToken, "--" := UnaryMinusToken,
      "/" := DivToken, "(" := LeftParenToken, ")" := RightParenToken,
      "," := DelimiterToken, "sin" := SinToken, "pow" := PowToken]
  }

  /** The table holds no numbers and no variables. */
  lemma TableHoldsNoOperands<V>(name: string)
    requires name in TokenTable<V>()
    ensures TokenTable<V>()[name].Type() !in {Number, Variable, Undefined}
  {
  }

  /** `std::find` over the variable names: the index of the first name equal to `name`. */
  function FindName(vars: seq<string>, name: string): (r: Option<nat>)
    ensures r.Some? ==> r.value < |vars| && vars[r.value] == name
    ensures r.Some? ==> forall j :: 0 <= j < r.value ==> vars[j] != name
    ensures r.None? <==> name !in vars
  {
    if vars == [] then None
    else if vars[0] == name then Some(0)
    else match FindName(vars[1..], name)
      case None => None
      case Some(i) => Some(i + 1)
  }

  /** `getToken`: the number converter first, then the token table, then the variable names. */
  function GetToken<V>(conv: string -> Option<V>, vars: seq<string>, name: string): (r: Result<Token<V>, ParseError>)
    ensures conv(name).Some? ==> r == Ok(NumberToken(conv(name).value))
    ensures conv(name).None? && name in TokenTable<V>() ==> r == Ok(TokenTable<V>()[name])
    ensures r.Ok? && r.value.VariableToken? ==>
              && conv(name).None? && name !in TokenTable<V>()
              && r.value.num < |vars| && vars[r.value.num] == name
              && forall j :: 0 <= j < r.value.num ==> vars[j] != name
    ensures conv(name).None? && name !in TokenTable<V>() && name in vars ==>
              r == Ok(VariableToken(FindName(vars, name).value))
    ensures r.Err? <==> conv(name).None? && name !in TokenTable<V>() && name !in vars
    ensures r.Err? ==> r.error == UnknownToken(name)
  {
    match conv(name)
    case Some(v) => Ok(NumberToken(v))
    case None =>
      if name in TokenTable<V>() then Ok(TokenTable<V>()[name])
      else match FindName(vars, name)
        case Some(i) => Ok(VariableToken(i))
        case None => Err(UnknownToken(name))
  }

  /** Characters that `tokenize` collects into a word: `isalnum(c) || c == '.'`. */
  predicate IsWordChar(c: char) {
    IsAlnum(c) || c == '.'
  }

  /** A word, or one non-space symbol character; `last` marks the last character of the input. */
  datatype Lexeme = Word(text: string) | Symbol(c: char, last: bool)

  predicate WellFormed(x: Lexeme) {
    match x
    case Word(w) => w != [] && forall k :: 0 <= k < |w| ==> IsWordChar(w[k])
    case Symbol(c, _) => !IsWordChar(c) && !IsSpace(c)
  }

  /** Length of the run of word characters that starts `s`. */
  function WordLength(s: string): (n: nat)
    ensures n <= |s|
    ensures forall k :: 0 <= k < n ==> IsWordChar(s[k])
    ensures n < |s| ==> !IsWordChar(s[n])
  {
    if s == [] || !IsWordChar(s[0]) then 0 else 1 + WordLength(s[1..])
  }

  /** The lexemes of `s`, left to right: maximal word runs, and one lexeme per other non-space character. */
  function Lexemes(s: string): (r: seq<Lexeme>)
    ensures forall k :: 0 <= k < |r| ==> WellFormed(r[k])
    decreases |s|
  {
    if s == [] then []
    else if IsWordChar(s[0]) then
      var n := WordLength(s);
      [Word(s[..n])] + Lexemes(s[n..])
    else if IsSpace(s[0]) then Lexemes(s[1..])
    else [Symbol(s[0], |s| == 1)] + Lexemes(s[1..])
  }

  /** A maximal run of word characters is exactly one lexeme. */
  lemma {:induction false} WordRunIsOneLexeme(w: string, rest: string)
    requires w != [] && forall k :: 0 <= k < |w| ==> IsWordChar(w[k])
    requires rest == [] || !IsWordChar(rest[0])
    ensures Lexemes(w + rest) == [Word(w)] + Lexemes(rest)
  {
    var s := w + rest;
    assert forall k :: 0 <= k < |w| ==> s[k] == w[k];
    assert rest != [] ==> s[|w|] == rest[0];
    var n := WordLength(s);
    assert n == |w|;
    assert s[..n] == w && s[n..] == rest;
  }

  /** The text a lexeme stands for. */
  function Text(x: Lexeme): string {
    match x
    case Word(w) => w
    case Symbol(c, _) => [c]
  }

  function Concat(xs: seq<Lexeme>): string {
    if xs == [] then [] else Text(xs[0]) + Concat(xs[1..])
  }

  /** `s` without its whitespace. */
  function NonSpace(s: string): string {
    if s == [] then [] else (if IsSpace(s[0]) then [] else [s[0]]) + NonSpace(s[1..])
  }

  lemma {:induction false} NonSpaceOfWord(w: string, rest: string)
    requires forall k :: 0 <= k < |w| ==> IsWordChar(w[k])
    ensures NonSpace(w + rest) == w + NonSpace(rest)
  {
    if w != [] {
      assert (w + rest)[1..] == w[1..] + rest;
      NonSpaceOfWord(w[1..], rest);
      assert w == [w[0]] + w[1..];
    } else {
      assert w + rest == rest;
    }
  }

  /** Lexing drops the whitespace and nothing else, and keeps the order of the text. */
  lemma {:induction false} LexemesCoverText(s: string)
    ensures Concat(Lexemes(s)) == NonSpace(s)
    decreases |s|
  {
    if s != [] {
      if IsWordChar(s[0]) {
        var n := WordLength(s);
        LexemesCoverText(s[n..]);
        assert s == s[..n] + s[n..];
        NonSpaceOfWord(s[..n], s[n..]);
        assert ([Word(s[..n])] + Lexemes(s[n..]))[1..] == Lexemes(s[n..]);
      } else if IsSpace(s[0]) {
        LexemesCoverText(s[1..]);
      } else {
        LexemesCoverText(s[1..]);
        assert ([Symbol(s[0], |s| == 1)] + Lexemes(s[1..]))[1..] == Lexemes(s[1..]);
      }
    }
  }

  /** A last character that is neither a word character nor whitespace is the last lexeme, marked `last`. */
  lemma {:induction false} TrailingSymbolIsLast(s: string)
    requires s != [] && !IsWordChar(s[|s| - 1]) && !IsSpace(s[|s| - 1])
    ensures Lexemes(s) != [] && Lexemes(s)[|Lexemes(s)| - 1] == Symbol(s[|s| - 1], true)
    decreases |s|
  {
    if IsWordChar(s[0]) {
      var n := WordLength(s);
      assert s[n..][|s[n..]| - 1] == s[|s| - 1];
      TrailingSymbolIsLast(s[n..]);
    } else if |s| > 1 {
      assert s[1..][|s[1..]| - 1] == s[|s| - 1];
      TrailingSymbolIsLast(s[1..]);
    }
  }

  /** Tokens after which a '-' is unary: an operator, '(' or ','. */
  predicate UnaryContext<V>(t: Token<V>) {
    t.Type() == Operator || t.Type() == LeftParen || t.Type() == Delimiter
  }

  /**
   * The token `tokenize` emits for one lexeme after the tokens `emitted`. A
   * '-' that ends the input is an error; a '-' is unary before any token or
   * after an operator, '(' or ','.
   */
  function Emit<V>(conv: string -> Option<V>, vars: seq<string>, emitted: seq<Token<V>>, x: Lexeme, lastPos: int)
    : Result<Token<V>, ParseError>
  {
    match x
    case Word(w) => GetToken(conv, vars, w)
    case Symbol(c, last) =>
      if c == '-' && last then Err(WrongSyntax(lastPos))
      else if c == '-' && (emitted == [] || UnaryContext(emitted[|emitted| - 1])) then GetToken(conv, vars, "--")
      else GetToken(conv, vars, [c])
  }

  /** Tokens emitted so far, and the error that stopped the scan, if any. */
  datatype Lexed<V> = Lexed(tokens: seq<Token<V>>, error: Option<ParseError>)

  /** Resolves the lexemes left to right and stops at the first error. */
  function Classify<V>(conv: string -> Option<V>, vars: seq<string>, xs: seq<Lexeme>, lastPos: int): Lexed<V>
    decreases |xs|
  {
    if xs == [] then Lexed([], None)
    else
      var prior := Classify(conv, vars, xs[..|xs| - 1], lastPos);
      if prior.error.Some? then prior
      else match Emit(conv, vars, prior.tokens, xs[|xs| - 1], lastPos)
        case Ok(t) => Lexed(prior.tokens + [t], None)
        case Err(e) => Lexed(prior.tokens, Some(e))
  }

  /** Reference definition of `tokenize(s, v)` on an empty `v`. */
  function Tokenized<V>(conv: string -> Option<V>, vars: seq<string>, s: string): Lexed<V> {
    Classify(conv, vars, Lexemes(Lower(s)), |s| - 1)
  }

  /**
   * Token k is what lexeme k yields after tokens 0..k-1; on error the tokens
   * are those of the lexemes before the one that failed.
   */
  lemma {:induction false} ClassifyEmitsInOrder<V>(conv: string -> Option<V>, vars: seq<string>, xs: seq<Lexeme>, lastPos: int)
    ensures var r := Classify(conv, vars, xs, lastPos);
            && (r.error.None? ==> |r.tokens| == |xs|)
            && (r.error.Some? ==> |r.tokens| < |xs| && Emit(conv, vars, r.tokens, xs[|r.tokens|], lastPos) == Err(r.error.value))
            && forall k :: 0 <= k < |r.tokens| ==> Emit(conv, vars, r.tokens[..k], xs[k], lastPos) == Ok(r.tokens[k])
    decreases |xs|
  {
    if xs != [] {
      var init := xs[..|xs| - 1];
      ClassifyEmitsInOrder(conv, vars, init, lastPos);
      var prior := Classify(conv, vars, init, lastPos);
      if prior.error.None? {
        var r := Classify(conv, vars, xs, lastPos);
        forall k | 0 <= k < |r.tokens|
          ensures Emit(conv, vars, r.tokens[..k], xs[k], lastPos) == Ok(r.tokens[k])
        {
          if k < |prior.tokens| {
            assert r.tokens[..k] == prior.tokens[..k];
            assert xs[k] == init[k];
          } else {
            assert r.tokens[..k] == prior.tokens;
          }
        }
      }
    }
  }

  /** After an error, further lexemes change nothing. */
  lemma {:induction false} ClassifyStopsAtError<V>(conv: string -> Option<V>, vars: seq<string>, xs: seq<Lexeme>, ys: seq<Lexeme>, lastPos: int)
    requires Classify(conv, vars, xs, lastPos).error.Some?
    ensures Classify(conv, vars, xs + ys, lastPos) == Classify(conv, vars, xs, lastPos)
    decreases |ys|
  {
    if ys == [] {
      assert xs + ys == xs;
    } else {
      var init := ys[..|ys| - 1];
      assert (xs + ys)[..|xs + ys| - 1] == xs + init;
      ClassifyStopsAtError(conv, vars, xs, init, lastPos);
    }
  }

  /** Every variable token refers to a declared name. */
  lemma EmitVariableInRange<V>(conv: string -> Option<V>, vars: seq<string>, emitted: seq<Token<V>>, x: Lexeme, lastPos: int)
    requires Emit(conv, vars, emitted, x, lastPos).Ok?
    ensures var t := Emit(conv, vars, emitted, x, lastPos).value;
            t.VariableToken? ==> t.num < |vars|
  {
  }

  /** Every variable token of a tokenization, successful or not, indexes `vars`. */
  lemma {:induction false} TokenizedVariablesInRange<V>(conv: string -> Option<V>, vars: seq<string>, s: string)
    ensures var ts := Tokenized(conv, vars, s).tokens;
            forall k :: 0 <= k < |ts| && ts[k].VariableToken? ==> ts[k].num < |vars|
  {
    var xs := Lexemes(Lower(s));
    var ts := Tokenized(conv, vars, s).tokens;
    ClassifyEmitsInOrder(conv, vars, xs, |s| - 1);
    forall k | 0 <= k < |ts| && ts[k].VariableToken?
      ensures ts[k].num < |vars|
    {
      EmitVariableInRange(conv, vars, ts[..k], xs[k], |s| - 1);
    }
  }

  /**
   * The unary/binary minus rule: a '-' that does not end the input becomes
   * unary minus exactly when it is the first token or follows an operator,
   * '(' or ','; otherwise it is binary minus.
   */
  lemma {:induction false} MinusRule<V>(conv: string -> Option<V>, vars: seq<string>, s: string, k: nat)
    requires conv("-").None? && conv("--").None?
    requires Tokenized(conv, vars, s).error.None?
    requires k < |Lexemes(Lower(s))| && Lexemes(Lower(s))[k] == Symbol('-', false)
    ensures var ts := Tokenized(conv, vars, s).tokens;
            && k < |ts|
            && (ts[k] == UnaryMinusToken <==> k == 0 || UnaryContext(ts[k - 1]))
            && (ts[k] == SubToken <==> !(k == 0 || UnaryContext(ts[k - 1])))
  {
    var xs := Lexemes(Lower(s));
    var ts := Tokenized(conv, vars, s).tokens;
    ClassifyEmitsInOrder(conv, vars, xs, |s| - 1);
    assert Emit(conv, vars, ts[..k], xs[k], |s| - 1) == Ok(ts[k]);
    EmitMinus(conv, vars, ts[..k], |s| - 1, ts[k]);
    if k > 0 {
      assert ts[..k][k - 1] == ts[k - 1];
    }
  }

  /** The token a '-' that does not end the input resolves to, when `strtod` reads neither "-" nor "--". */
  lemma {:induction false} EmitMinus<V>(conv: string -> Option<V>, vars: seq<string>, emitted: seq<Token<V>>, lastPos: int, t: Token<V>)
    requires conv("-").None? && conv("--").None?
    requires Emit(conv, vars, emitted, Symbol('-', false), lastPos) == Ok(t)
    ensures t == if emitted == [] || UnaryContext(emitted[|emitted| - 1]) then UnaryMinusToken else SubToken
  {
    MinusEntries<V>();
  }

  /** The table's entries for the two minus names. */
  lemma MinusEntries<V>()
    ensures "--" in TokenTable<V>() && TokenTable<V>()["--"] == UnaryMinusToken
    ensures "-" in TokenTable<V>() && TokenTable<V>()["-"] == SubToken
  {
  }

  /** A '-' as the last character of the input makes `tokenize` fail. */
  lemma {:induction false} TrailingMinusFails<V>(conv: string -> Option<V>, vars: seq<string>, s: string)
    requires s != [] && s[|s| - 1] == '-'
    ensures var e := Tokenized(conv, vars, s).error;
            e.Some? && (e.value == WrongSyntax(|s| - 1) || e.value.UnknownToken?)
  {
    var low := Lower(s);
    assert low[|low| - 1] == ToLower(s[|s| - 1]);
    TrailingSymbolIsLast(low);
    FailsAtTrailingMinus(conv, vars, Lexemes(low), |s| - 1);
    ClassifyErrors(conv, vars, Lexemes(low), |s| - 1);
  }

  /** A lexeme list that ends with a '-' ending the input does not resolve. */
  lemma {:induction false} FailsAtTrailingMinus<V>(conv: string -> Option<V>, vars: seq<string>, xs: seq<Lexeme>, lastPos: int)
    requires xs != [] && xs[|xs| - 1] == Symbol('-', true)
    ensures Classify(conv, vars, xs, lastPos).error.Some?
  {
    var prior := Classify(conv, vars, xs[..|xs| - 1], lastPos);
    if prior.error.None? {
      assert Emit(conv, vars, prior.tokens, xs[|xs| - 1], lastPos).Err?;
    }
  }

  /** The only errors are a '-' that ends the input and a name nothing resolves. */
  lemma {:induction false} ClassifyErrors<V>(conv: string -> Option<V>, vars: seq<string>, xs: seq<Lexeme>, lastPos: int)
    ensures var e := Classify(conv, vars, xs, lastPos).error;
            e.Some? ==> e.value == WrongSyntax(lastPos) || e.value.UnknownToken?
    decreases |xs|
  {
    if xs != [] {
      ClassifyErrors(conv, vars, xs[..|xs| - 1], lastPos);
    }
  }

  /**
   * `tokenize` reads `v.back()` on an empty `v` when the first non-space
   * character is a '-' after leading whitespace that does not end the input;
   * callers must avoid such input.
   */
  predicate MinusNotAfterLeadingSpace(s: string) {
    var n := LeadingSpaces(s);
    n == 0 || n >= |s| - 1 || s[n] != '-'
  }

  /** Leading whitespace ends at the first non-space character. */
  lemma {:induction false} LeadingSpacesEndAt(s: string, i: nat)
    requires i < |s| && !IsSpace(s[i])
    requires forall j :: 0 <= j < i ==> IsSpace(s[j])
    ensures LeadingSpaces(s) == i
    decreases i
  {
    if i > 0 {
      assert IsSpace(s[0]);
      LeadingSpacesEndAt(s[1..], i - 1);
    }
  }

  /**
   * Under `MinusNotAfterLeadingSpace`, a '-' that is neither the first nor
   * the last character has a non-space character before it, so `tokenize`
   * has emitted a token when it reads `v.back()`.
   */
  lemma {:induction false} MinusHasPredecessor(s: string, i: nat)
    requires MinusNotAfterLeadingSpace(s) && 0 < i < |s| - 1 && Lower(s)[i] == '-'
    ensures exists j :: 0 <= j < i && !IsSpace(Lower(s)[j])
  {
    if forall j :: 0 <= j < i ==> IsSpace(Lower(s)[j]) {
      LeadingSpacesEndAt(Lower(s), i);
      LowerKeepsLeadingSpaces(s);
      assert ToLower(s[i]) == '-';
    }
  }

  lemma {:induction false} ClassifySnoc<V>(conv: string -> Option<V>, vars: seq<string>, xs: seq<Lexeme>, x: Lexeme, lastPos: int)
    requires Classify(conv, vars, xs, lastPos).error.None?
    ensures Classify(conv, vars, xs + [x], lastPos) ==
              var prior := Classify(conv, vars, xs, lastPos);
              match Emit(conv, vars, prior.tokens, x, lastPos)
              case Ok(t) => Lexed(prior.tokens + [t], None)
              case Err(e) => Lexed(prior.tokens, Some(e))
  {
    assert (xs + [x])[..|xs|] == xs;
  }

  /**
   * The state of the `tokenize` loop before character `i`: `cur` holds the
   * word read so far, `done` the lexemes already turned into the tokens
   * `emitted`, and the lexemes still to come are those of `cur` followed by
   * the rest of the lowered input.
   */
  ghost predicate Scanned<V>(conv: string -> Option<V>, vars: seq<string>, s: string, i: nat,
                             cur: string, done: seq<Lexeme>, emitted: seq<Token<V>>) {
    && i <= |s|
    && (forall k :: 0 <= k < |cur| ==> IsWordChar(cur[k]))
    && Lexemes(Lower(s)) == done + Lexemes(cur + Lower(s)[i..])
    && Classify(conv, vars, done, |s| - 1) == Lexed(emitted, None)
    && (i == 0 ==> cur == [] && emitted == [])
    && (emitted == [] && cur == [] ==> forall j :: 0 <= j < i ==> IsSpace(Lower(s)[j]))
  }

  lemma {:induction false} ScanStart<V>(conv: string -> Option<V>, vars: seq<string>, s: string)
    ensures Scanned<V>(conv, vars, s, 0, [], [], [])
  {
    assert [] + Lower(s)[0..] == Lower(s);
    assert [] + Lexemes(Lower(s)) == Lexemes(Lower(s));
  }

  /** A word character extends the current word. */
  lemma {:induction false} ScanWordChar<V>(conv: string -> Option<V>, vars: seq<string>, s: string, i: nat,
                        cur: string, done: seq<Lexeme>, emitted: seq<Token<V>>)
    requires Scanned(conv, vars, s, i, cur, done, emitted) && i < |s| && IsWordChar(Lower(s)[i])
    ensures Scanned(conv, vars, s, i + 1, cur + [Lower(s)[i]], done, emitted)
  {
    var low := Lower(s);
    assert cur + low[i..] == (cur + [low[i]]) + low[i + 1..];
  }

  /** Whitespace outside a word is skipped. */
  lemma {:induction false} ScanSpace<V>(conv: string -> Option<V>, vars: seq<string>, s: string, i: nat,
                     done: seq<Lexeme>, emitted: seq<Token<V>>)
    requires Scanned(conv, vars, s, i, [], done, emitted) && i < |s| && IsSpace(Lower(s)[i])
    ensures Scanned(conv, vars, s, i + 1, [], done, emitted)
  {
    var low := Lower(s);
    assert [] + low[i..] == low[i..];
    assert low[i..][0] == low[i] && low[i..][1..] == low[i + 1..];
    assert Lexemes(low[i..]) == Lexemes(low[i + 1..]);
    assert [] + low[i + 1..] == low[i + 1..];
  }

  /** A word ends at a character that is not a word character, or at the end of the input. */
  lemma {:induction false} WordEnds<V>(conv: string -> Option<V>, vars: seq<string>, s: string, i: nat,
                    cur: string, done: seq<Lexeme>, emitted: seq<Token<V>>)
    requires Scanned(conv, vars, s, i, cur, done, emitted) && cur != []
    requires i == |s| || !IsWordChar(Lower(s)[i])
    ensures Lexemes(Lower(s)) == done + [Word(cur)] + Lexemes(Lower(s)[i..])
  {
    WordRunIsOneLexeme(cur, Lower(s)[i..]);
  }

  /** The finished word's token is emitted. */
  lemma {:induction false} FlushWord<V>(conv: string -> Option<V>, vars: seq<string>, s: string, i: nat,
                     cur: string, done: seq<Lexeme>, emitted: seq<Token<V>>)
    requires Scanned(conv, vars, s, i, cur, done, emitted) && cur != []
    requires i == |s| || !IsWordChar(Lower(s)[i])
    requires GetToken(conv, vars, cur).Ok?
    ensures Scanned(conv, vars, s, i, [], done + [Word(cur)], emitted + [GetToken(conv, vars, cur).value])
  {
    WordEnds(conv, vars, s, i, cur, done, emitted);
    ClassifySnoc(conv, vars, done, Word(cur), |s| - 1);
    assert [] + Lower(s)[i..] == Lower(s)[i..];
  }

  /** A word whose token cannot be made stops the scan. */
  lemma {:induction false} WordFails<V>(conv: string -> Option<V>, vars: seq<string>, s: string, i: nat,
                     cur: string, done: seq<Lexeme>, emitted: seq<Token<V>>)
    requires Scanned(conv, vars, s, i, cur, done, emitted) && cur != []
    requires i == |s| || !IsWordChar(Lower(s)[i])
    requires GetToken(conv, vars, cur).Err?
    ensures Tokenized(conv, vars, s) == Lexed(emitted, Some(GetToken(conv, vars, cur).error))
  {
    WordEnds(conv, vars, s, i, cur, done, emitted);
    TokenizedFailsAt(conv, vars, s, done, Word(cur), Lexemes(Lower(s)[i..]));
  }

  /** A symbol character outside a word is the next lexeme. */
  lemma {:induction false} SymbolNext<V>(conv: string -> Option<V>, vars: seq<string>, s: string, i: nat,
                      done: seq<Lexeme>, emitted: seq<Token<V>>)
    requires Scanned(conv, vars, s, i, [], done, emitted) && i < |s|
    requires !IsWordChar(Lower(s)[i]) && !IsSpace(Lower(s)[i])
    ensures Lexemes(Lower(s)) == done + [Symbol(Lower(s)[i], i == |s| - 1)] + Lexemes(Lower(s)[i + 1..])
  {
    var low := Lower(s);
    var t := low[i..];
    assert [] + t == t;
    LexemesOfSymbol(t);
    assert t[0] == low[i] && t[1..] == low[i + 1..] && |low| == |s|;
    var x := Symbol(low[i], i == |s| - 1);
    assert done + ([x] + Lexemes(t[1..])) == done + [x] + Lexemes(t[1..]);
  }

  /** A symbol character at the front is a lexeme of its own. */
  lemma {:induction false} LexemesOfSymbol(t: string)
    requires t != [] && !IsWordChar(t[0]) && !IsSpace(t[0])
    ensures Lexemes(t) == [Symbol(t[0], |t| == 1)] + Lexemes(t[1..])
  {
  }

  /** The symbol's token is emitted. */
  lemma {:induction false} EmitSymbol<V>(conv: string -> Option<V>, vars: seq<string>, s: string, i: nat,
                      done: seq<Lexeme>, emitted: seq<Token<V>>)
    requires Scanned(conv, vars, s, i, [], done, emitted) && i < |s|
    requires !IsWordChar(Lower(s)[i]) && !IsSpace(Lower(s)[i])
    requires Emit(conv, vars, emitted, Symbol(Lower(s)[i], i == |s| - 1), |s| - 1).Ok?
    ensures var x := Symbol(Lower(s)[i], i == |s| - 1);
            Scanned(conv, vars, s, i + 1, [], done + [x], emitted + [Emit(conv, vars, emitted, x, |s| - 1).value])
  {
    var x := Symbol(Lower(s)[i], i == |s| - 1);
    SymbolNext(conv, vars, s, i, done, emitted);
    ClassifySnoc(conv, vars, done, x, |s| - 1);
    assert [] + Lower(s)[i + 1..] == Lower(s)[i + 1..];
  }

  /** A symbol whose token cannot be made stops the scan. */
  lemma {:induction false} SymbolFails<V>(conv: string -> Option<V>, vars: seq<string>, s: string, i: nat,
                       done: seq<Lexeme>, emitted: seq<Token<V>>)
    requires Scanned(conv, vars, s, i, [], done, emitted) && i < |s|
    requires !IsWordChar(Lower(s)[i]) && !IsSpace(Lower(s)[i])
    requires Emit(conv, vars, emitted, Symbol(Lower(s)[i], i == |s| - 1), |s| - 1).Err?
    ensures Tokenized(conv, vars, s) ==
              Lexed(emitted, Some(Emit(conv, vars, emitted, Symbol(Lower(s)[i], i == |s| - 1), |s| - 1).error))
  {
    var x := Symbol(Lower(s)[i], i == |s| - 1);
    SymbolNext(conv, vars, s, i, done, emitted);
    TokenizedFailsAt(conv, vars, s, done, x, Lexemes(Lower(s)[i + 1..]));
  }

  /**
   * The test `i == 0 || v.back()->type() ...` of `tokenize` for a '-' that
   * does not end the input: under `MinusNotAfterLeadingSpace` a token has
   * been emitted whenever `i > 0`, so the test is the unary-minus rule of `Emit`.
   */
  lemma {:induction false} MinusTest<V>(conv: string -> Option<V>, vars: seq<string>, s: string, i: nat,
                     done: seq<Lexeme>, emitted: seq<Token<V>>)
    requires MinusNotAfterLeadingSpace(s)
    requires Scanned(conv, vars, s, i, [], done, emitted) && i < |s| - 1 && Lower(s)[i] == '-'
    ensures i > 0 ==> emitted != []
    ensures i == 0 ==> emitted == []
  {
    if i > 0 && emitted == [] {
      MinusHasPredecessor(s, i);
    }
  }

  /** At the end of the input with no word pending, the scan has produced `Tokenized`. */
  lemma {:induction false} ScanFinish<V>(conv: string -> Option<V>, vars: seq<string>, s: string, done: seq<Lexeme>, emitted: seq<Token<V>>)
    requires Scanned(conv, vars, s, |s|, [], done, emitted)
    ensures Tokenized(conv, vars, s) == Lexed(emitted, None)
  {
    assert [] + Lower(s)[|s|..] == [];
    assert done + [] == done;
  }

  /** The first lexeme whose token cannot be made stops `tokenize` with the tokens before it. */
  lemma {:induction false} TokenizedFailsAt<V>(conv: string -> Option<V>, vars: seq<string>, s: string, done: seq<Lexeme>, x: Lexeme, rest: seq<Lexeme>)
    requires Lexemes(Lower(s)) == done + [x] + rest
    requires Classify(conv, vars, done, |s| - 1).error.None?
    requires Emit(conv, vars, Classify(conv, vars, done, |s| - 1).tokens, x, |s| - 1).Err?
    ensures Tokenized(conv, vars, s) ==
              Lexed(Classify(conv, vars, done, |s| - 1).tokens, Some(Emit(conv, vars, Classify(conv, vars, done, |s| - 1).tokens, x, |s| - 1).error))
  {
    ClassifySnoc(conv, vars, done, x, |s| - 1);
    ClassifyStopsAtError(conv, vars, done + [x], rest, |s| - 1);
  }
}
