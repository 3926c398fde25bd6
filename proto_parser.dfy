/**
 * The first, `double`-only parser (src/parser/Parser.cpp with the token
 * classes of src/parser/Tokens.h). It pads every symbol of its token table
 * with spaces, splits the text on whitespace, turns each word into a token,
 * and runs the shunting-yard pass of the later engine without its
 * parenthesis checks. It knows no variables, no comma and no `pow`.
 */
module ProtoParser {
  import opened Wrappers
  import opened Utils
  import opened Tokens
  import Lexer
  import opened Shunting
  import opened Interpreter

  // ---------------------------------------------------------------------------
  // Token classes and table
  // ---------------------------------------------------------------------------

  /** The token kinds src/parser/Tokens.h defines. */
  predicate InPrototype<V>(t: Token<V>) {
    !(t.VariableToken? || t.DelimiterToken? || t.PowToken?)
  }

  /**
   * The `evaluate` of each prototype class on a `std::stack<double>` holding
   * its operands: a number pushes one value, a binary operator pops two and
   * pushes one, every other class keeps the height; the entries below the
   * operands stay as they are.
   */
  lemma PrototypeHeights<V>(ops: Arith<V>, t: Token<V>, st: seq<V>)
    requires InPrototype(t) && t.Arity() <= |st|
    ensures CanApply(t, st, [])
    ensures var r := Apply(ops, t, st, []);
            && |r| == |st| + (if t.NumberToken? then 1 else if t.Arity() == 2 then -1 else 0)
            && r[..|st| - t.Arity()] == st[..|st| - t.Arity()]
  {
  }

  /** `Parser::tokens`. */
  function Table<V>(): map<string, Token<V>> {
    map[
      "*" := MulToken, "+" := SumToken, "-" := SubToken, "--" := UnaryMinusToken,
      "/" := DivToken, "(" := LeftParenToken, ")" := RightParenToken, "sin" := SinToken]
  }

  /** The table is the later engine's table without the comma and `pow`. */
  lemma TableIsLaterTableWithoutCommaAndPow<V>()
    ensures Table<V>() == Lexer.TokenTable<V>() - {",", "pow"}
  {
  }

  /** The keys of `Parser::tokens`, in the order a `std::map<std::string, …>` visits them. */
  function Keys(): seq<string> {
    ["(", ")", "*", "+", "-", "--", "/", "sin"]
  }

  /** `a < b` for `std::string`: lexicographic by character, a proper prefix first. */
  predicate Below(a: string, b: string)
    decreases |a|
  {
    b != [] && (a == [] || a[0] < b[0] || (a[0] == b[0] && Below(a[1..], b[1..])))
  }

  /** `Keys()` lists exactly the keys of the table, each before the next in `std::map` order. */
  lemma {:induction false} KeysInMapOrder<V>()
    ensures forall k :: k in Keys() <==> k in Table<V>()
    ensures forall i :: 0 <= i < |Keys()| - 1 ==> Below(Keys()[i], Keys()[i + 1])
  {
    assert Below("-", "--");
    assert Below("--", "/");
  }

  /**
   * `getToken`: a word `strtod` reads completely is a number (`conv` stands
   * for `stringToDouble`); anything else goes to `tokens.at`, whose
   * `std::out_of_range` is `Err(name)`.
   */
  function GetToken<V>(conv: string -> Option<V>, name: string): (r: Result<Token<V>, string>)
    ensures conv(name).Some? ==> r == Ok(NumberToken(conv(name).value))
    ensures conv(name).None? && name in Table<V>() ==> r == Ok(Table<V>()[name])
    ensures r.Ok? ==> InPrototype(r.value)
    ensures r.Err? <==> conv(name).None? && name !in Table<V>()
    ensures r.Err? ==> r.error == name
  {
    match conv(name)
    case Some(v) => Ok(NumberToken(v))
    case None => if name in Table<V>() then Ok(Table<V>()[name]) else Err(name)
  }

  /**
   * Without variables, the later `getToken` agrees with this one on every
   * name except the two it added to the table.
   */
  lemma {:induction false} GetTokenAgrees<V>(conv: string -> Option<V>, name: string)
    requires name != "," && name != "pow"
    ensures GetToken(conv, name).Ok? <==> Lexer.GetToken(conv, [], name).Ok?
    ensures GetToken(conv, name).Ok? ==> GetToken(conv, name).value == Lexer.GetToken(conv, [], name).value
  {
    TableIsLaterTableWithoutCommaAndPow<V>();
  }

  // ---------------------------------------------------------------------------
  // prepareString and the whitespace split
  // ---------------------------------------------------------------------------

  /** The replacement `prepareString` uses for the key `k`. */
  function Pad(k: string): string {
    " " + k + " "
  }

  /** The keys are not empty, so each `replace` with them ends. */
  predicate NonEmptyKeys(keys: seq<string>) {
    forall i :: 0 <= i < |keys| ==> keys[i] != []
  }

  /** The loop of `prepareString` over `keys`: every occurrence of each key in turn is padded with spaces. */
  function Padded(s: string, keys: seq<string>): string
    requires NonEmptyKeys(keys)
    decreases |keys|
  {
    if keys == [] then s else Padded(ReplaceAll(s, keys[0], Pad(keys[0])), keys[1..])
  }

  /** `prepareString(s)`: lower-cased, then padded for every key of the table in map order. */
  function Prepared(s: string): string {
    Padded(Lower(s), Keys())
  }

  lemma {:induction false} NonSpaceAppend(a: string, b: string)
    ensures Lexer.NonSpace(a + b) == Lexer.NonSpace(a) + Lexer.NonSpace(b)
    decreases |a|
  {
    if a != [] {
      assert (a + b)[1..] == a[1..] + b;
      NonSpaceAppend(a[1..], b);
    } else {
      assert a + b == b;
    }
  }

  /** Padding one key only adds whitespace: the other characters stay, in order. */
  lemma {:induction false} PadKeepsNonSpace(s: string, k: string)
    requires k != []
    ensures Lexer.NonSpace(ReplaceAll(s, k, Pad(k))) == Lexer.NonSpace(s)
    decreases |s|
  {
    var f := Find(s, k, 0);
    if f.Some? {
      var p := f.value;
      var rest := s[p + |k|..];
      PadKeepsNonSpace(rest, k);
      ReplaceFirst(s, k, Pad(k), p);
      AroundOccurrence(s, k, p);
      NonSpaceOfThree(s[..p], Pad(k), ReplaceAll(rest, k, Pad(k)));
      NonSpaceOfThree(s[..p], k, rest);
      NonSpaceOfPad(k);
    }
  }

  /** An occurrence splits the text into what comes before it, itself, and what comes after it. */
  lemma {:induction false} AroundOccurrence(s: string, k: string, p: nat)
    requires OccursAt(s, k, p)
    ensures s == s[..p] + k + s[p + |k|..]
  {
    assert s == s[..p] + s[p..p + |k|] + s[p + |k|..];
  }

  lemma {:induction false} NonSpaceOfThree(a: string, b: string, c: string)
    ensures Lexer.NonSpace(a + b + c) == Lexer.NonSpace(a) + Lexer.NonSpace(b) + Lexer.NonSpace(c)
  {
    NonSpaceAppend(a + b, c);
    NonSpaceAppend(a, b);
  }

  lemma {:induction false} NonSpaceOfPad(k: string)
    ensures Lexer.NonSpace(Pad(k)) == Lexer.NonSpace(k)
  {
    NonSpaceOfThree(" ", k, " ");
  }

  /** Padding any list of keys only adds whitespace. */
  lemma {:induction false} PaddedKeepsNonSpace(s: string, keys: seq<string>)
    requires NonEmptyKeys(keys)
    ensures Lexer.NonSpace(Padded(s, keys)) == Lexer.NonSpace(s)
    decreases |keys|
  {
    if keys != [] {
      PadKeepsNonSpace(s, keys[0]);
      PaddedKeepsNonSpace(ReplaceAll(s, keys[0], Pad(keys[0])), keys[1..]);
    }
  }

  /** Every '-' of `s` is followed by a space. */
  predicate MinusSpaced(s: string) {
    forall j :: 0 <= j < |s| && s[j] == '-' ==> j + 1 < |s| && s[j + 1] == ' '
  }

  /** After the "-" pass, every '-' stands between spaces, so the text holds no "--". */
  lemma {:induction false} MinusPassSpacesMinus(s: string)
    ensures MinusSpaced(ReplaceAll(s, "-", Pad("-")))
    decreases |s|
  {
    var f := Find(s, "-", 0);
    if f.None? {
      NoMinusBefore(s, |s|);
    } else {
      var p := f.value;
      var rest := s[p + 1..];
      MinusPassSpacesMinus(rest);
      ReplaceFirst(s, "-", Pad("-"), p);
      NoMinusBefore(s, p);
      MinusSpacedJoin(s[..p], ReplaceAll(rest, "-", Pad("-")));
    }
  }

  /** No occurrence of "-" before `n` means no '-' character before `n`. */
  lemma {:induction false} NoMinusBefore(s: string, n: nat)
    requires n <= |s|
    requires forall j: nat :: j < n ==> !OccursAt(s, "-", j)
    ensures forall j :: 0 <= j < n ==> s[j] != '-'
  {
    forall j | 0 <= j < n
      ensures s[j] != '-'
    {
      assert !OccursAt(s, "-", j);
      assert s[j..j + 1] == [s[j]];
    }
  }

  /** Text without '-', then a padded '-', then spaced text, is spaced. */
  lemma {:induction false} MinusSpacedJoin(a: string, r: string)
    requires forall j :: 0 <= j < |a| ==> a[j] != '-'
    requires MinusSpaced(r)
    ensures MinusSpaced(a + Pad("-") + r)
  {
    var t := a + Pad("-") + r;
    var n := |a|;
    assert t[n] == ' ' && t[n + 1] == '-' && t[n + 2] == ' ';
    forall j | 0 <= j < |t| && t[j] == '-'
      ensures j + 1 < |t| && t[j + 1] == ' '
    {
      if j >= n + 3 {
        assert t[j] == r[j - n - 3];
        assert t[j + 1] == r[j - n - 2];
      }
    }
  }

  /** A text with every '-' spaced holds no "--". */
  lemma {:induction false} NoDoubleMinus(s: string)
    requires MinusSpaced(s)
    ensures forall j: nat :: !OccursAt(s, "--", j)
  {
    forall j: nat
      ensures !OccursAt(s, "--", j)
    {
      if j + 2 <= |s| {
        assert s[j..j + 2][0] == s[j] && s[j..j + 2][1] == s[j + 1];
        if s[j] == '-' {
          assert s[j + 1] == ' ';
        }
      }
    }
  }

  /**
   * The "--" entry of the table is never padded: the "-" pass before it has
   * split every "--" into two spaced '-', so the "--" pass finds nothing and
   * the unary minus is reached only through the rule of `prepareTokenVector`.
   */
  lemma {:induction false} DoubleMinusPassIsIdle(s: string)
    ensures Prepared(s) == Padded(Lower(s), ["(", ")", "*", "+", "-", "/", "sin"])
  {
    var front: seq<string> := ["(", ")", "*", "+"];
    KeysSplit(s);
    DoubleMinusAfterMinus(Padded(Lower(s), front));
    PaddedSplit(Lower(s), front, ["-", "/", "sin"]);
    KeysWithoutDoubleMinus();
  }

  lemma KeysWithoutDoubleMinus()
    ensures ["(", ")", "*", "+"] + ["-", "/", "sin"] == ["(", ")", "*", "+", "-", "/", "sin"]
  {
  }

  lemma {:induction false} KeysSplit(s: string)
    ensures Prepared(s) == Padded(Padded(Lower(s), ["(", ")", "*", "+"]), ["-", "--", "/", "sin"])
  {
    PaddedSplit(Lower(s), ["(", ")", "*", "+"], ["-", "--", "/", "sin"]);
    assert ["(", ")", "*", "+"] + ["-", "--", "/", "sin"] == Keys();
  }

  /** The "--" pass right after the "-" pass changes nothing. */
  lemma {:induction false} DoubleMinusAfterMinus(x: string)
    ensures Padded(x, ["-", "--", "/", "sin"]) == Padded(x, ["-", "/", "sin"])
  {
    var m := ReplaceAll(x, "-", Pad("-"));
    MinusPassSpacesMinus(x);
    NoDoubleMinus(m);
    ReplaceAbsent(m, "--", Pad("--"));
    assert ["-", "--", "/", "sin"][1..] == ["--", "/", "sin"];
    assert ["--", "/", "sin"][1..] == ["/", "sin"];
    assert ["-", "/", "sin"][1..] == ["/", "sin"];
  }

  /** Padding with `a + b` is padding with `a`, then with `b`. */
  lemma {:induction false} PaddedSplit(s: string, a: seq<string>, b: seq<string>)
    requires NonEmptyKeys(a) && NonEmptyKeys(b)
    ensures NonEmptyKeys(a + b)
    ensures Padded(s, a + b) == Padded(Padded(s, a), b)
    decreases |a|
  {
    if a == [] {
      assert a + b == b;
    } else {
      assert (a + b)[0] == a[0] && (a + b)[1..] == a[1..] + b;
      PaddedSplit(ReplaceAll(s, a[0], Pad(a[0])), a[1..], b);
    }
  }

  /** Length of the run of non-space characters at the start of `s`. */
  function RunLength(s: string): (n: nat)
    ensures n <= |s|
    ensures forall j :: 0 <= j < n ==> !IsSpace(s[j])
    ensures n < |s| ==> IsSpace(s[n])
  {
    if s == [] || IsSpace(s[0]) then 0 else 1 + RunLength(s[1..])
  }

  /** The words `std::istream_iterator<std::string>` reads from `s`: its maximal runs of non-space characters. */
  function Words(s: string): (ws: seq<string>)
    ensures forall i :: 0 <= i < |ws| ==> ws[i] != []
    decreases |s|
  {
    var t := s[LeadingSpaces(s)..];
    if t == [] then [] else [t[..RunLength(t)]] + Words(t[RunLength(t)..])
  }

  /** The words one after the other. */
  function Flatten(ws: seq<string>): string {
    if ws == [] then [] else ws[0] + Flatten(ws[1..])
  }

  lemma {:induction false} NonSpaceOfBlank(s: string)
    requires forall j :: 0 <= j < |s| ==> IsSpace(s[j])
    ensures Lexer.NonSpace(s) == []
  {
    if s != [] {
      NonSpaceOfBlank(s[1..]);
    }
  }

  lemma {:induction false} NonSpaceOfRun(s: string)
    requires forall j :: 0 <= j < |s| ==> !IsSpace(s[j])
    ensures Lexer.NonSpace(s) == s
  {
    if s != [] {
      NonSpaceOfRun(s[1..]);
      assert s == [s[0]] + s[1..];
    }
  }

  /** The split drops the whitespace and nothing else. */
  lemma {:induction false} WordsKeepNonSpace(s: string)
    ensures Flatten(Words(s)) == Lexer.NonSpace(s)
    decreases |s|
  {
    var n := LeadingSpaces(s);
    var t := s[n..];
    BlankPrefix(s, n);
    if t != [] {
      var m := RunLength(t);
      WordsKeepNonSpace(t[m..]);
      RunPrefix(t, m);
      FlattenFirstWord(s, t, m);
    }
  }

  /** Leading whitespace adds nothing to the non-space text. */
  lemma {:induction false} BlankPrefix(s: string, n: nat)
    requires n == LeadingSpaces(s)
    ensures Lexer.NonSpace(s) == Lexer.NonSpace(s[n..])
  {
    assert s == s[..n] + s[n..];
    NonSpaceAppend(s[..n], s[n..]);
    NonSpaceOfBlank(s[..n]);
  }

  /** A leading run of non-space characters is kept whole. */
  lemma {:induction false} RunPrefix(t: string, m: nat)
    requires m == RunLength(t)
    ensures Lexer.NonSpace(t) == t[..m] + Lexer.NonSpace(t[m..])
  {
    assert t == t[..m] + t[m..];
    NonSpaceAppend(t[..m], t[m..]);
    NonSpaceOfRun(t[..m]);
  }

  /** The words of `s` are its first run followed by the words after it. */
  lemma {:induction false} FlattenFirstWord(s: string, t: string, m: nat)
    requires t == s[LeadingSpaces(s)..] && t != [] && m == RunLength(t)
    ensures Flatten(Words(s)) == t[..m] + Flatten(Words(t[m..]))
  {
    var ws := Words(s);
    assert ws == [t[..m]] + Words(t[m..]);
    assert ws[0] == t[..m] && ws[1..] == Words(t[m..]);
  }

  /** No word holds a whitespace character. */
  lemma {:induction false} WordsHaveNoSpace(s: string)
    ensures forall i, k :: 0 <= i < |Words(s)| && 0 <= k < |Words(s)[i]| ==> !IsSpace(Words(s)[i][k])
    decreases |s|
  {
    var t := s[LeadingSpaces(s)..];
    if t != [] {
      var m := RunLength(t);
      WordsHaveNoSpace(t[m..]);
      assert Words(s) == [t[..m]] + Words(t[m..]);
    }
  }

  /** A non-empty run of non-space characters is read as one word. */
  lemma {:induction false} WordsOfRun(w: string)
    requires w != [] && forall j :: 0 <= j < |w| ==> !IsSpace(w[j])
    ensures Words(w) == [w]
  {
    WordsOfFirstRun(w);
    assert RunLength(w) == |w|;
    assert w[..|w|] == w;
    assert Words(w[|w|..]) == [];
  }

  /** Whitespace before the text is skipped. */
  lemma {:induction false} WordsSkipSpace(s: string)
    requires s != [] && IsSpace(s[0])
    ensures Words(s) == Words(s[1..])
  {
    assert LeadingSpaces(s) == 1 + LeadingSpaces(s[1..]);
    assert s[LeadingSpaces(s)..] == s[1..][LeadingSpaces(s[1..])..];
  }

  /** A run ends where a space follows it, whatever comes after. */
  lemma {:induction false} RunLengthAppend(a: string, r: string)
    requires RunLength(a) < |a| || (r != [] && IsSpace(r[0]))
    ensures RunLength(a + r) == RunLength(a)
  {
    if a == [] {
      assert a + r == r;
    } else if !IsSpace(a[0]) {
      assert (a + r)[1..] == a[1..] + r;
      RunLengthAppend(a[1..], r);
    }
  }

  /** Text that starts with a non-space character is read as its first run, then the words after it. */
  lemma {:induction false} WordsOfFirstRun(s: string)
    requires s != [] && !IsSpace(s[0])
    ensures Words(s) == [s[..RunLength(s)]] + Words(s[RunLength(s)..])
  {
    assert LeadingSpaces(s) == 0;
    assert s[0..] == s;
  }

  /** The first run of `a` is the first run of `a + [c] + b` when `c` is a space. */
  lemma {:induction false} FirstRunOfJoin(a: string, c: char, b: string)
    requires IsSpace(c) && a != []
    ensures RunLength(a + [c] + b) == RunLength(a)
    ensures (a + [c] + b)[..RunLength(a)] == a[..RunLength(a)]
    ensures (a + [c] + b)[RunLength(a)..] == a[RunLength(a)..] + [c] + b
  {
    assert a + [c] + b == a + ([c] + b);
    RunLengthAppend(a, [c] + b);
  }

  /** Every whitespace character separates words: no word spans it. */
  lemma {:induction false} WordsSplitAtSpace(a: string, c: char, b: string)
    requires IsSpace(c)
    ensures Words(a + [c] + b) == Words(a) + Words(b)
    decreases |a|
  {
    if a == [] {
      WordsSplitAtFront(c, b);
    } else if IsSpace(a[0]) {
      assert a == [a[0]] + a[1..];
      WordsSplitAtSpace(a[1..], c, b);
      WordsSplitAfterSpace(a[0], a[1..], c, b);
    } else {
      var m := RunLength(a);
      var x, y := a[..m], a[m..];
      assert a == x + y;
      WordsSplitAtSpace(y, c, b);
      WordsSplitAfterRun(x, y, c, b);
    }
  }

  /** The base case of `WordsSplitAtSpace`. */
  lemma {:induction false} WordsSplitAtFront(c: char, b: string)
    requires IsSpace(c)
    ensures Words([] + [c] + b) == Words([]) + Words(b)
  {
    var s := [c] + b;
    assert [] + [c] + b == s;
    WordsSkipSpace(s);
    assert s[1..] == b;
    assert Words([]) == [];
  }

  /** The step of `WordsSplitAtSpace` for text that starts with a space `d`. */
  lemma {:induction false} WordsSplitAfterSpace(d: char, y: string, c: char, b: string)
    requires IsSpace(d) && IsSpace(c)
    requires Words(y + [c] + b) == Words(y) + Words(b)
    ensures Words([d] + y + [c] + b) == Words([d] + y) + Words(b)
  {
    var r := y + [c] + b;
    assert [d] + y + [c] + b == [d] + r;
    WordsAfterSpace(d, r);
    WordsAfterSpace(d, y);
  }

  /** A space in front changes nothing. */
  lemma {:induction false} WordsAfterSpace(d: char, r: string)
    requires IsSpace(d)
    ensures Words([d] + r) == Words(r)
  {
    WordsSkipSpace([d] + r);
    assert ([d] + r)[1..] == r;
  }

  /** A run followed by nothing or by a space is the first word. */
  lemma {:induction false} WordsAfterRun(x: string, rest: string)
    requires x != [] && forall j :: 0 <= j < |x| ==> !IsSpace(x[j])
    requires rest == [] || IsSpace(rest[0])
    ensures Words(x + rest) == [x] + Words(rest)
  {
    var s := x + rest;
    assert s[0] == x[0];
    assert RunLength(x) == |x|;
    if rest == [] {
      assert s == x;
    } else {
      RunLengthAppend(x, rest);
    }
    WordsOfFirstRun(s);
    assert s[..|x|] == x && s[|x|..] == rest;
  }

  /** The step of `WordsSplitAtSpace` for text that starts with a run `x`. */
  lemma {:induction false} WordsSplitAfterRun(x: string, y: string, c: char, b: string)
    requires x != [] && forall j :: 0 <= j < |x| ==> !IsSpace(x[j])
    requires y == [] || IsSpace(y[0])
    requires IsSpace(c)
    requires Words(y + [c] + b) == Words(y) + Words(b)
    ensures Words(x + y + [c] + b) == Words(x + y) + Words(b)
  {
    var r := y + [c] + b;
    assert x + y + [c] + b == x + r;
    assert r[0] == (if y == [] then c else y[0]);
    WordsAfterRun(x, y);
    WordsAfterRun(x, r);
    ConcatAssoc([x], Words(y), Words(b));
  }

  lemma ConcatAssoc<T>(p: seq<T>, q: seq<T>, r: seq<T>)
    ensures p + (q + r) == (p + q) + r
  {
  }

  /** The words `prepareTokenVector` reads hold the characters of the lower-cased input other than whitespace, in order. */
  lemma {:induction false} WordsOfPreparedKeepText(s: string)
    ensures Flatten(Words(Prepared(s))) == Lexer.NonSpace(Lower(s))
  {
    KeysNonEmpty();
    WordsKeepNonSpace(Prepared(s));
    PaddedKeepsNonSpace(Lower(s), Keys());
  }

  /** Padding from key `i` on is padding key `i`, then the keys after it. */
  lemma {:induction false} PaddedStep(s: string, keys: seq<string>, i: nat)
    requires i < |keys| && NonEmptyKeys(keys[i..])
    ensures keys[i] != [] && NonEmptyKeys(keys[i + 1..])
    ensures Padded(s, keys[i..]) == Padded(ReplaceAll(s, keys[i], Pad(keys[i])), keys[i + 1..])
  {
    assert keys[i..][0] == keys[i] && keys[i..][1..] == keys[i + 1..];
  }

  lemma KeysNonEmpty()
    ensures NonEmptyKeys(Keys())
  {
  }

  // ---------------------------------------------------------------------------
  // prepareTokenVector
  // ---------------------------------------------------------------------------

  /** A '-' read after the tokens `v` is unary: it comes first, or after an operator or '('. */
  predicate UnaryAfter<V>(v: seq<Token<V>>) {
    v == [] || v[|v| - 1].Type() == Operator || v[|v| - 1].Type() == LeftParen
  }

  /** The name `getToken` is called with for the word `w` read after the tokens `v`. */
  function NameOf<V>(v: seq<Token<V>>, w: string): string {
    if w == "-" then (if UnaryAfter(v) then "--" else "-") else w
  }

  /** The loop of `prepareTokenVector`: one token per word, or the name `tokens.at` threw on. */
  function TokenVector<V>(conv: string -> Option<V>, words: seq<string>): (r: Result<seq<Token<V>>, string>)
    ensures r.Ok? ==> |r.value| == |words|
    decreases |words|
  {
    if words == [] then Ok([])
    else
      match TokenVector(conv, words[..|words| - 1])
      case Err(e) => Err(e)
      case Ok(v) =>
        match GetToken(conv, NameOf(v, words[|words| - 1]))
        case Err(e) => Err(e)
        case Ok(t) => Ok(v + [t])
  }

  lemma {:induction false} TokenVectorSnoc<V>(conv: string -> Option<V>, words: seq<string>, w: string)
    ensures TokenVector(conv, words + [w]) ==
              match TokenVector(conv, words)
              case Err(e) => Err(e)
              case Ok(v) =>
                match GetToken(conv, NameOf(v, w))
                case Err(e) => Err(e)
                case Ok(t) => Ok(v + [t])
  {
    assert (words + [w])[..|words|] == words;
  }

  lemma {:induction false} TokenVectorExtends<V>(conv: string -> Option<V>, words: seq<string>, w: string, v: seq<Token<V>>)
    requires TokenVector(conv, words) == Ok(v) && GetToken(conv, NameOf(v, w)).Ok?
    ensures TokenVector(conv, words + [w]) == Ok(v + [GetToken(conv, NameOf(v, w)).value])
  {
    assert (words + [w])[..|words|] == words;
  }

  lemma {:induction false} TokenVectorThrows<V>(conv: string -> Option<V>, words: seq<string>, w: string, v: seq<Token<V>>)
    requires TokenVector(conv, words) == Ok(v) && GetToken(conv, NameOf(v, w)).Err?
    ensures TokenVector(conv, words + [w]) == Err(GetToken(conv, NameOf(v, w)).error)
  {
    assert (words + [w])[..|words|] == words;
  }

  /** Word `i` converts after the words before it, so the list up to `i` grows by its token. */
  lemma {:induction false} WordExtends<V>(conv: string -> Option<V>, words: seq<string>, i: nat, v: seq<Token<V>>)
    requires i < |words| && TokenVector(conv, words[..i]) == Ok(v)
    requires GetToken(conv, NameOf(v, words[i])).Ok?
    ensures TokenVector(conv, words[..i + 1]) == Ok(v + [GetToken(conv, NameOf(v, words[i])).value])
  {
    assert words[..i + 1] == words[..i] + [words[i]];
    TokenVectorExtends(conv, words[..i], words[i], v);
  }

  /** Word `i` throws after the words before it converted, so the whole list throws its error. */
  lemma {:induction false} WordThrows<V>(conv: string -> Option<V>, words: seq<string>, i: nat, v: seq<Token<V>>)
    requires i < |words| && TokenVector(conv, words[..i]) == Ok(v)
    requires GetToken(conv, NameOf(v, words[i])).Err?
    ensures TokenVector(conv, words) == Err(GetToken(conv, NameOf(v, words[i])).error)
  {
    assert words[..i + 1] == words[..i] + [words[i]];
    TokenVectorThrows(conv, words[..i], words[i], v);
    TokenVectorStops(conv, words, i + 1);
  }

  /** Once a word has thrown, the words after it change nothing. */
  lemma {:induction false} TokenVectorStops<V>(conv: string -> Option<V>, words: seq<string>, k: nat)
    requires k <= |words| && TokenVector(conv, words[..k]).Err?
    ensures TokenVector(conv, words) == TokenVector(conv, words[..k])
    decreases |words| - k
  {
    if k < |words| {
      var init := words[..|words| - 1];
      assert init[..k] == words[..k];
      TokenVectorStops(conv, init, k);
    } else {
      assert words[..k] == words;
    }
  }

  /** A list that converts has prefixes that convert to the matching prefix of the tokens. */
  lemma {:induction false} TokenVectorPrefix<V>(conv: string -> Option<V>, words: seq<string>, k: nat)
    requires k <= |words| && TokenVector(conv, words).Ok?
    ensures TokenVector(conv, words[..k]) == Ok(TokenVector(conv, words).value[..k])
    decreases |words| - k
  {
    if k < |words| {
      var init := words[..|words| - 1];
      assert init[..k] == words[..k];
      TokenVectorPrefix(conv, init, k);
      var v := TokenVector(conv, init).value;
      assert TokenVector(conv, words).value[..|init|] == v;
      assert TokenVector(conv, words).value[..k] == v[..k];
    } else {
      assert words[..k] == words;
      assert TokenVector(conv, words).value[..k] == TokenVector(conv, words).value;
    }
  }

  /** The last token of a converted list comes from the last word, read after the tokens before it. */
  lemma {:induction false} LastToken<V>(conv: string -> Option<V>, words: seq<string>, w: string)
    requires TokenVector(conv, words + [w]).Ok?
    ensures TokenVector(conv, words).Ok?
    ensures var v := TokenVector(conv, words).value;
            TokenVector(conv, words + [w]).value == v + [GetToken(conv, NameOf(v, w)).value]
  {
    TokenVectorSnoc(conv, words, w);
  }

  /** The token at `i` is the one `getToken` gives for word `i` read after the tokens before it. */
  lemma {:induction false} TokenAt<V>(conv: string -> Option<V>, words: seq<string>, i: nat)
    requires TokenVector(conv, words).Ok? && i < |words|
    ensures var v := TokenVector(conv, words).value;
            GetToken(conv, NameOf(v[..i], words[i])) == Ok(v[i])
  {
    var v := TokenVector(conv, words).value;
    TokenVectorPrefix(conv, words, i);
    TokenVectorPrefix(conv, words, i + 1);
    WordRead(conv, words, i, v[..i], v[..i + 1]);
    assert v[..i + 1][i] == v[i];
  }

  /** Word `i` is read as the last token of the list up to `i`. */
  lemma {:induction false} WordRead<V>(conv: string -> Option<V>, words: seq<string>, i: nat, u: seq<Token<V>>, u': seq<Token<V>>)
    requires i < |words| && TokenVector(conv, words[..i]) == Ok(u) && TokenVector(conv, words[..i + 1]) == Ok(u')
    ensures GetToken(conv, NameOf(u, words[i])) == Ok(u'[i])
  {
    assert words[..i + 1] == words[..i] + [words[i]];
    TokenVectorSnoc(conv, words[..i], words[i]);
    var r := GetToken(conv, NameOf(u, words[i]));
    assert r.Ok? && u' == u + [r.value];
    assert (u + [r.value])[i] == r.value;
  }

  lemma MinusToken<V>(conv: string -> Option<V>, v: seq<Token<V>>)
    requires conv("-").None? && conv("--").None?
    ensures GetToken(conv, NameOf(v, "-")) == Ok(if UnaryAfter(v) then UnaryMinusToken else SubToken)
  {
  }

  /**
   * When `strtod` reads neither "-" nor "--", a "-" word becomes the unary
   * minus exactly when it is the first word or follows an operator or '(',
   * and the binary minus otherwise.
   */
  lemma {:induction false} MinusRule<V>(conv: string -> Option<V>, words: seq<string>, i: nat)
    requires conv("-").None? && conv("--").None?
    requires TokenVector(conv, words).Ok? && i < |words| && words[i] == "-"
    ensures var v := TokenVector(conv, words).value;
            v[i] == if i == 0 || v[i - 1].Type() == Operator || v[i - 1].Type() == LeftParen
                    then UnaryMinusToken else SubToken
  {
    var v := TokenVector(conv, words).value;
    TokenAt(conv, words, i);
    MinusToken(conv, v[..i]);
    if i > 0 {
      assert v[..i][i - 1] == v[i - 1];
    }
  }

  /**
   * A trailing "-" is no error here: whenever the words before it convert,
   * so does the whole list (the later engine throws "Wrong syntax").
   */
  lemma {:induction false} TrailingMinusAccepted<V>(conv: string -> Option<V>, words: seq<string>)
    requires TokenVector(conv, words).Ok?
    ensures TokenVector(conv, words + ["-"]).Ok?
  {
    TokenVectorSnoc(conv, words, "-");
    var v := TokenVector(conv, words).value;
    assert NameOf(v, "-") in Table<V>();
  }

  /** A failure names a word of the input that is neither a number nor a key of the table. */
  lemma {:induction false} TokenVectorFailure<V>(conv: string -> Option<V>, words: seq<string>)
    requires TokenVector(conv, words).Err?
    ensures var e := TokenVector(conv, words).error;
            e in words && conv(e).None? && e !in Table<V>()
    decreases |words|
  {
    var init, w := words[..|words| - 1], words[|words| - 1];
    assert words == init + [w];
    TokenVectorSnoc(conv, init, w);
    if TokenVector(conv, init).Err? {
      TokenVectorFailure(conv, init);
    } else {
      var v := TokenVector(conv, init).value;
      assert NameOf(v, w) == w || NameOf(v, w) in Table<V>();
    }
  }

  /** Every token of a converted list is one of the prototype classes. */
  lemma {:induction false} TokenVectorInPrototype<V>(conv: string -> Option<V>, words: seq<string>)
    requires TokenVector(conv, words).Ok?
    ensures forall i :: 0 <= i < |words| ==> InPrototype(TokenVector(conv, words).value[i])
    decreases |words|
  {
    if words != [] {
      var init, w := words[..|words| - 1], words[|words| - 1];
      assert words == init + [w];
      TokenVectorSnoc(conv, init, w);
      TokenVectorInPrototype(conv, init);
    }
  }

  // ---------------------------------------------------------------------------
  // The lenient shunting yard of parse
  // ---------------------------------------------------------------------------

  /**
   * One iteration of the `for` loop of `parse` on the queue `q` and the
   * stack `st`. A ')' pops until a '(' and drops it if there is one, and
   * says nothing if there is not.
   */
  function LenientFeed<V>(q: seq<Token<V>>, st: seq<Token<V>>, t: Token<V>): (seq<Token<V>>, seq<Token<V>>) {
    match t.Type()
    case Number => (q + [t], st)
    case Function | LeftParen => (q, st + [t])
    case Operator =>
      var (q', st') := PopWhile(q, st, Before(t));
      (q', st' + [t])
    case RightParen =>
      var (q', st') := PopWhile(q, st, UntilLeftParen);
      if st' != [] && st'[|st'| - 1].Type() == LeftParen then (q', st'[..|st'| - 1]) else (q', st')
    case Variable | Delimiter | Undefined => (q, st)
  }

  /** The `for` loop of `parse` over `ts`. */
  function LenientShunt<V>(ts: seq<Token<V>>): (seq<Token<V>>, seq<Token<V>>)
    decreases |ts|
  {
    if ts == [] then ([], [])
    else
      var (q, st) := LenientShunt(ts[..|ts| - 1]);
      LenientFeed(q, st, ts[|ts| - 1])
  }

  /** `parse` on the tokens `ts`: the loop, then every stack entry moved to the queue, '(' included. */
  function LenientCompile<V>(ts: seq<Token<V>>): seq<Token<V>> {
    var (q, st) := LenientShunt(ts);
    q + Reversed(st)
  }

  lemma {:induction false} LenientShuntSnoc<V>(ts: seq<Token<V>>, t: Token<V>)
    ensures LenientShunt(ts + [t]) == LenientFeed(LenientShunt(ts).0, LenientShunt(ts).1, t)
  {
    assert (ts + [t])[..|ts|] == ts;
  }

  /** Where the later `parse` does not throw, one step of this loop does what one step of that loop does. */
  lemma {:induction false} LenientFeedAgrees<V>(y: Yard<V>, t: Token<V>)
    requires y.error.None? && !t.VariableToken? && Feed(y, t).error.None?
    ensures LenientFeed(y.queue, y.stack, t) == (Feed(y, t).queue, Feed(y, t).stack)
  {
    if t.Type() == RightParen {
      PopWhileStops(y.queue, y.stack, UntilLeftParen);
    }
  }

  /** The token list holds no variable, which the prototype cannot produce. */
  predicate NoVariables<V>(ts: seq<Token<V>>) {
    forall i :: 0 <= i < |ts| ==> !ts[i].VariableToken?
  }

  /** Where the later loop does not throw, both loops reach the same queue and stack. */
  lemma {:induction false} LenientShuntAgrees<V>(ts: seq<Token<V>>)
    requires NoVariables(ts) && Shunt(ts).error.None?
    ensures LenientShunt(ts) == (Shunt(ts).queue, Shunt(ts).stack)
    decreases |ts|
  {
    if ts != [] {
      var init, t := ts[..|ts| - 1], ts[|ts| - 1];
      assert ts == init + [t];
      ShuntSnoc(init, t);
      LenientShuntSnoc(init, t);
      assert Shunt(init).error.None?;
      LenientShuntAgrees(init);
      LenientFeedAgrees(Shunt(init), t);
    }
  }

  /**
   * On every token list the later `parse` accepts, this one builds the same
   * postfix program; the two differ only where parentheses do not match.
   */
  lemma {:induction false} LenientCompileAgrees<V>(ts: seq<Token<V>>)
    requires NoVariables(ts) && Compile(ts).error.None?
    ensures LenientCompile(ts) == Compile(ts).queue
  {
    LenientShuntAgrees(ts);
    var y := Shunt(ts);
    PopWhileMoves(y.queue, y.stack, UntilParen);
    assert y.stack[0..] == y.stack;
  }

  /** The loop invariant: the shape of the later engine, and the numbers of the input in order. */
  ghost predicate LenientInvariant<V>(ts: seq<Token<V>>, q: seq<Token<V>>, st: seq<Token<V>>) {
    Shaped(q, st) && Select(Operands, q) == Select(Operands, ts)
  }

  lemma {:induction false} LenientFeedKeepsInvariant<V>(ts: seq<Token<V>>, q: seq<Token<V>>, st: seq<Token<V>>, t: Token<V>)
    requires LenientInvariant(ts, q, st) && !t.VariableToken?
    ensures var (q', st') := LenientFeed(q, st, t); LenientInvariant(ts + [t], q', st')
  {
    SelectSnoc(Operands, ts, t);
    match t.Type()
    case Number =>
      AllQueuedSnoc(q, t);
      SelectSnoc(Operands, q, t);
    case Function | LeftParen =>
      AllStackedSnoc(st, t);
    case Operator =>
      PopWhileKeepsShape(q, st, Before(t));
      PopWhileKeepsOperands(q, st, Before(t));
      AllStackedSnoc(PopWhile(q, st, Before(t)).1, t);
    case RightParen =>
      PopWhileKeepsShape(q, st, UntilLeftParen);
      PopWhileKeepsOperands(q, st, UntilLeftParen);
    case Variable | Delimiter | Undefined =>
  }

  lemma {:induction false} LenientShuntKeepsInvariant<V>(ts: seq<Token<V>>)
    requires NoVariables(ts)
    ensures LenientInvariant(ts, LenientShunt(ts).0, LenientShunt(ts).1)
    decreases |ts|
  {
    if ts != [] {
      var init, t := ts[..|ts| - 1], ts[|ts| - 1];
      assert ts == init + [t];
      LenientShuntKeepsInvariant(init);
      LenientShuntSnoc(init, t);
      LenientFeedKeepsInvariant(init, LenientShunt(init).0, LenientShunt(init).1, t);
    }
  }

  /** The stack holds no number, in whatever order it is read. */
  lemma {:induction false} NoOperandsStacked<V>(st: seq<Token<V>>)
    requires AllStacked(st)
    ensures Select(Operands, Reversed(st)) == []
    decreases |st|
  {
    if st != [] {
      var x, st' := st[|st| - 1], st[..|st| - 1];
      NoOperandsStacked(st');
      SelectAppend(Operands, [x], Reversed(st'));
      assert [x][..0] == [];
    }
  }

  /** Whatever the parentheses, the numbers of the input reach the program in input order. */
  lemma {:induction false} LenientKeepsNumbers<V>(ts: seq<Token<V>>)
    requires NoVariables(ts)
    ensures Select(Operands, LenientCompile(ts)) == Select(Operands, ts)
  {
    LenientShuntKeepsInvariant(ts);
    var (q, st) := LenientShunt(ts);
    SelectAppend(Operands, q, Reversed(st));
    NoOperandsStacked(st);
  }

  // ---------------------------------------------------------------------------
  // class Parser
  // ---------------------------------------------------------------------------

  /** One more token of a program that runs: it can act on the stack its prefix leaves. */
  lemma {:induction false} RunStep<V>(ops: Arith<V>, done: seq<Token<V>>, t: Token<V>, rest: seq<Token<V>>, items: seq<V>)
    requires Run(ops, done + [t] + rest, []).Some? && Run(ops, done, []) == Some(items)
    ensures CanApply(t, items, [])
    ensures Run(ops, done + [t], []) == Some(Apply(ops, t, items, []))
  {
    PrefixRuns(ops, [], done + [t], rest, []);
    ExecSnoc(ops, [], done, t, []);
  }

  /** `Parser`: the postfix program `parse` leaves for `evaluate`. `Value` is `double`, here the type parameter `V`. */
  class Parser<V> {
    var mainQueue: seq<Token<V>>

    constructor ()
      ensures mainQueue == []
    {
      mainQueue := [];
    }

    /**
     * `prepareString(s)`: `s` lower-cased, then each key of the table, in map
     * order, replaced everywhere by itself between two spaces. `Parser::replace`
     * is the loop of `utils_rk::replace` and is modelled by `Utils.Replace`.
     */
    static method PrepareString(s: string) returns (r: string)
      ensures r == Prepared(s)
    {
      r := Lower(s);
      var keys := Keys();
      KeysNonEmpty();
      assert keys[0..] == keys;
      for i := 0 to |keys|
        invariant NonEmptyKeys(keys[i..]) && Padded(r, keys[i..]) == Prepared(s)
      {
        PaddedStep(r, keys, i);
        r := Replace(r, keys[i], " " + keys[i] + " ");
      }
      assert keys[|keys|..] == [];
    }

    /**
     * `prepareTokenVector(s, v)`: one token per whitespace-separated word of
     * the prepared text; `Err` carries the word `tokens.at` threw on.
     */
    static method PrepareTokenVector(conv: string -> Option<V>, s: string) returns (r: Result<seq<Token<V>>, string>)
      ensures r == TokenVector(conv, Words(Prepared(s)))
    {
      var p := PrepareString(s);
      var results := Words(p);
      r := ConvertWords(conv, results);
    }

    /** The `for` loop of `prepareTokenVector` over the words `results`. */
    static method ConvertWords(conv: string -> Option<V>, results: seq<string>) returns (r: Result<seq<Token<V>>, string>)
      ensures r == TokenVector(conv, results)
    {
      var v: seq<Token<V>> := [];
      for i := 0 to |results|
        invariant TokenVector(conv, results[..i]) == Ok(v)
      {
        var t := ReadWord(conv, results, i, v);
        if t.Err? {
          WordThrows(conv, results, i, v);
          return Err(t.error);
        }
        WordExtends(conv, results, i, v);
        v := v + [t.value];
      }
      assert results[..|results|] == results;
      return Ok(v);
    }

    /** The body of the loop of `prepareTokenVector` for word `i`, read after the tokens `v`. */
    static method ReadWord(conv: string -> Option<V>, results: seq<string>, i: nat, v: seq<Token<V>>) returns (t: Result<Token<V>, string>)
      requires i < |results| && |v| == i
      ensures t == GetToken(conv, NameOf(v, results[i]))
    {
      var name := results[i];
      if results[i] == "-" {
        if i == 0 || v[|v| - 1].Type() == Operator || v[|v| - 1].Type() == LeftParen {
          name := "--";
        } else {
          name := "-";
        }
      }
      t := GetToken(conv, name);
    }

    /**
     * `parse(s)`: the queue is emptied, the text converted, and the tokens fed
     * through the shunting yard; a ')' without '(' is passed over, and what is
     * left on the stack, '(' included, ends up in the queue.
     */
    method Parse(conv: string -> Option<V>, s: string) returns (outcome: Outcome<string>)
      modifies this
      ensures var r := TokenVector(conv, Words(Prepared(s)));
              && (r.Err? ==> outcome == Fail(r.error) && mainQueue == [])
              && (r.Ok? ==> outcome == Pass && mainQueue == LenientCompile(r.value))
    {
      mainQueue := [];
      var r := PrepareTokenVector(conv, s);
      if r.Err? {
        return Fail(r.error);
      }
      var opStack := ShuntTokens(r.value);
      FlushStack(opStack);
      outcome := Pass;
    }

    /** The `for` loop of `parse`, starting from an empty queue. */
    method ShuntTokens(v: seq<Token<V>>) returns (opStack: seq<Token<V>>)
      requires mainQueue == []
      modifies this
      ensures (mainQueue, opStack) == LenientShunt(v)
    {
      opStack := [];
      for i := 0 to |v|
        invariant LenientShunt(v[..i]) == (mainQueue, opStack)
      {
        assert v[..i + 1] == v[..i] + [v[i]];
        LenientShuntSnoc(v[..i], v[i]);
        opStack := FeedToken(v[i], opStack);
      }
      assert v[..|v|] == v;
    }

    /** The final `while` of `parse`: every entry left on the stack moves to the queue, top first. */
    method FlushStack(opStack: seq<Token<V>>)
      modifies this
      ensures mainQueue == old(mainQueue) + Reversed(opStack)
    {
      var st := opStack;
      while st != []
        invariant mainQueue + Reversed(st) == old(mainQueue) + Reversed(opStack)
        decreases |st|
      {
        var top := st[|st| - 1];
        assert mainQueue + Reversed(st) == (mainQueue + [top]) + Reversed(st[..|st| - 1]);
        mainQueue := mainQueue + [top];
        st := st[..|st| - 1];
      }
      assert mainQueue + Reversed(st) == mainQueue;
    }

    /** One iteration of the `for` loop of `parse`. */
    method FeedToken(t: Token<V>, opStack: seq<Token<V>>) returns (st: seq<Token<V>>)
      modifies this
      ensures (mainQueue, st) == LenientFeed(old(mainQueue), opStack, t)
    {
      st := opStack;
      if t.Type() == Number {
        mainQueue := mainQueue + [t];
      } else if t.Type() == Function {
        st := st + [t];
      } else if t.Type() == Operator {
        st := MoveWhile(st, Before(t));
        st := st + [t];
      } else if t.Type() == LeftParen {
        st := st + [t];
      } else if t.Type() == RightParen {
        st := MoveWhile(st, UntilLeftParen);
        if st != [] && st[|st| - 1].Type() == LeftParen {
          st := st[..|st| - 1];
        }
      }
    }

    /** The inner `while` loops of `parse`: the top of the stack moves to `mainQueue` as long as `rule` holds for it. */
    method MoveWhile(opStack: seq<Token<V>>, rule: PopRule<V>) returns (st: seq<Token<V>>)
      modifies this
      ensures (mainQueue, st) == PopWhile(old(mainQueue), opStack, rule)
    {
      st := opStack;
      while st != [] && Pops(rule, st[|st| - 1])
        invariant PopWhile(mainQueue, st, rule) == PopWhile(old(mainQueue), opStack, rule)
        decreases |st|
      {
        mainQueue := mainQueue + [st[|st| - 1]];
        st := st[..|st| - 1];
      }
    }

    /**
     * `evaluate()`: the queue is drained front first, each token acting on
     * one `std::stack<double>`, and the top is returned. The program must
     * run without reading below the stack and must leave a value.
     */
    method Evaluate(ops: Arith<V>) returns (v: V)
      requires Run(ops, mainQueue, []).Some? && Run(ops, mainQueue, []).value != []
      modifies this
      ensures v == Last(Run(ops, old(mainQueue), []).value)
      ensures mainQueue == []
    {
      ghost var prog := mainQueue;
      var s := new ValueStack<V>();
      ghost var done: seq<Token<V>> := [];
      while mainQueue != []
        invariant done + mainQueue == prog
        invariant Run(ops, done, []) == Some(s.items)
        decreases |mainQueue|
      {
        done := EvaluateFront(ops, s, prog, done);
      }
      assert done == prog;
      v := s.Top();
    }

    /** One iteration of the loop of `evaluate`: the front token acts on `s` and leaves the queue. */
    method EvaluateFront(ops: Arith<V>, s: ValueStack<V>, ghost prog: seq<Token<V>>, ghost done: seq<Token<V>>)
      returns (ghost done': seq<Token<V>>)
      requires mainQueue != [] && done + mainQueue == prog
      requires Run(ops, prog, []).Some? && Run(ops, done, []) == Some(s.items)
      modifies this, s
      ensures done' + mainQueue == prog && Run(ops, done', []) == Some(s.items)
      ensures mainQueue == old(mainQueue)[1..]
    {
      var t, rest := mainQueue[0], mainQueue[1..];
      assert prog == done + [t] + rest by {
        assert mainQueue == [t] + rest;
      }
      RunStep(ops, done, t, rest, s.items);
      EvaluateToken(ops, t, s, []);
      mainQueue := rest;
      done' := done + [t];
      assert done' + rest == prog;
    }
  }
}
