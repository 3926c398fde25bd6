/**
 * `rk::Expression<Value>` (src/expression/Expression.cpp): `parse` turns a
 * formula over named variables into a postfix program, `evaluate` runs the
 * program on values for the variables.
 */
module Expressions {
  import opened Wrappers
  import opened Utils
  import opened Tokens
  import opened Lexer
  import opened Shunting
  import opened Interpreter

  /**
   * The object `parse` fills. `compiled` stands for the function pointer
   * that `compile` sets (its `dll` handle and the native code are not part
   * of this model): `parse` resets it, and `evaluate` interprets only while
   * it is unset.
   */
  class Expression<V> {
    var expression: seq<Token<V>>
    var mainQueue: seq<Token<V>>
    var vars: seq<string>
    var converter: string -> Option<V>
    var compiled: bool

    constructor (f: string -> Option<V>)
      ensures expression == [] && mainQueue == [] && vars == [] && converter == f
      ensures !compiled
    {
      expression := [];
      mainQueue := [];
      vars := [];
      converter := f;
      compiled := false;
    }

    /**
     * `tokenize(s, this->expression)` on the cleared token vector: the
     * tokens of `s` are appended one by one; the first `getToken` that
     * throws, or a '-' at the end of `s`, stops it with the tokens so far
     * kept.
     */
    method Tokenize(s: string) returns (outcome: Outcome<ParseError>)
      requires MinusNotAfterLeadingSpace(s)
      requires expression == []
      modifies this
      ensures vars == old(vars) && converter == old(converter) && compiled == old(compiled) && mainQueue == old(mainQueue)
      ensures expression == Tokenized(converter, vars, s).tokens
      ensures outcome.Pass? <==> Tokenized(converter, vars, s).error.None?
      ensures outcome.Fail? ==> outcome.error == Tokenized(converter, vars, s).error.value
    {
      ghost var done: seq<Lexeme> := [];
      ScanStart<V>(converter, vars, s);
      var cur: string := [];
      var i := 0;
      while i < |s|
        invariant converter == old(converter) && vars == old(vars) && compiled == old(compiled) && mainQueue == old(mainQueue)
        invariant Scanned(converter, vars, s, i, cur, done, expression)
      {
        var c := ToLower(s[i]);
        assert c == Lower(s)[i];
        if IsWordChar(c) {
          ScanWordChar(converter, vars, s, i, cur, done, expression);
          cur := cur + [c];
        } else {
          if cur != [] {
            outcome := EndWord(s, i, cur, done);
            if outcome.Fail? {
              return;
            }
            done := done + [Word(cur)];
          }
          cur := [];
          if !IsSpace(c) {
            outcome := ReadSymbol(s, i, done);
            if outcome.Fail? {
              return;
            }
            done := done + [Symbol(c, i == |s| - 1)];
          } else {
            ScanSpace(converter, vars, s, i, done, expression);
          }
        }
        i := i + 1;
      }
      if cur != [] {
        outcome := EndWord(s, i, cur, done);
        if outcome.Fail? {
          return;
        }
        done := done + [Word(cur)];
      }
      ScanFinish(converter, vars, s, done, expression);
      outcome := Pass;
    }

    /** The `getToken(curToken)` that ends a word. */
    method EndWord(s: string, i: nat, cur: string, ghost done: seq<Lexeme>) returns (outcome: Outcome<ParseError>)
      requires Scanned(converter, vars, s, i, cur, done, expression) && cur != []
      requires i == |s| || !IsWordChar(Lower(s)[i])
      modifies this
      ensures vars == old(vars) && converter == old(converter) && compiled == old(compiled) && mainQueue == old(mainQueue)
      ensures outcome.Pass? ==> Scanned(converter, vars, s, i, [], done + [Word(cur)], expression)
      ensures outcome.Fail? ==> Tokenized(converter, vars, s) == Lexed(expression, Some(outcome.error))
    {
      var r := GetToken(converter, vars, cur);
      if r.Err? {
        WordFails(converter, vars, s, i, cur, done, expression);
        return Fail(r.error);
      }
      FlushWord(converter, vars, s, i, cur, done, expression);
      expression := expression + [r.value];
      outcome := Pass;
    }

    /**
     * One symbol character: a '-' at the end of the input throws, a '-'
     * at the start or after an operator, '(' or ',' becomes `"--"`, any
     * other symbol is looked up as itself.
     */
    method ReadSymbol(s: string, i: nat, ghost done: seq<Lexeme>) returns (outcome: Outcome<ParseError>)
      requires MinusNotAfterLeadingSpace(s)
      requires Scanned(converter, vars, s, i, [], done, expression) && i < |s|
      requires !IsWordChar(Lower(s)[i]) && !IsSpace(Lower(s)[i])
      modifies this
      ensures vars == old(vars) && converter == old(converter) && compiled == old(compiled) && mainQueue == old(mainQueue)
      ensures outcome.Pass? ==> Scanned(converter, vars, s, i + 1, [], done + [Symbol(Lower(s)[i], i == |s| - 1)], expression)
      ensures outcome.Fail? ==> Tokenized(converter, vars, s) == Lexed(expression, Some(outcome.error))
    {
      var c := ToLower(s[i]);
      assert c == Lower(s)[i];
      var name := [c];
      if c == '-' {
        if i == |s| - 1 {
          SymbolFails(converter, vars, s, i, done, expression);
          return Fail(WrongSyntax(|s| - 1));
        }
        MinusTest(converter, vars, s, i, done, expression);
        if i == 0 || UnaryContext(expression[|expression| - 1]) {
          name := "--";
        }
      }
      var r := GetToken(converter, vars, name);
      if r.Err? {
        SymbolFails(converter, vars, s, i, done, expression);
        return Fail(r.error);
      }
      EmitSymbol(converter, vars, s, i, done, expression);
      expression := expression + [r.value];
      outcome := Pass;
    }

    /**
     * `parse(s, variables, f)`: the fields are reset, `s` is tokenized into
     * `expression`, and the shunting-yard loop builds `mainQueue`. A thrown
     * error leaves the tokens and the queue built so far in place.
     */
    method Parse(s: string, variables: seq<string>, f: string -> Option<V>) returns (outcome: Outcome<ParseError>)
      requires MinusNotAfterLeadingSpace(s)
      modifies this
      ensures vars == variables && converter == f && !compiled
      ensures expression == Tokenized(f, variables, s).tokens
      ensures Tokenized(f, variables, s).error.Some? ==>
                outcome == Fail(Tokenized(f, variables, s).error.value) && mainQueue == []
      ensures Tokenized(f, variables, s).error.None? ==>
                && mainQueue == Compile(expression).queue
                && (outcome.Pass? <==> Compile(expression).error.None?)
                && (outcome.Fail? ==> Compile(expression).error == Some(outcome.error))
    {
      vars := variables;
      converter := f;
      compiled := false;
      expression := [];
      mainQueue := [];
      outcome := Tokenize(s);
      if outcome.Fail? {
        return;
      }
      var opStack: seq<Token<V>> := [];
      var i := 0;
      while i < |expression|
        invariant 0 <= i <= |expression|
        invariant vars == variables && converter == f && !compiled && expression == Tokenized(f, variables, s).tokens
        invariant Shunt(expression[..i]) == Yard(mainQueue, opStack, None)
      {
        var t := expression[i];
        assert expression[..i + 1] == expression[..i] + [t];
        ShuntSnoc(expression[..i], t);
        opStack, outcome := FeedToken(t, opStack);
        if outcome.Fail? {
          ShuntStopsAtError(expression, i + 1);
          return;
        }
        i := i + 1;
      }
      assert expression[..|expression|] == expression;
      outcome := FlushStack(opStack);
    }

    /** One iteration of the `for` loop of `parse`. */
    method FeedToken(t: Token<V>, opStack: seq<Token<V>>) returns (st: seq<Token<V>>, outcome: Outcome<ParseError>)
      modifies this
      ensures vars == old(vars) && converter == old(converter) && compiled == old(compiled) && expression == old(expression)
      ensures var y := Feed(Yard(old(mainQueue), opStack, None), t);
              && mainQueue == y.queue && st == y.stack
              && (outcome.Pass? <==> y.error.None?)
              && (outcome.Fail? ==> y.error == Some(outcome.error))
    {
      st := opStack;
      outcome := Pass;
      if t.Type() == Number || t.Type() == Variable {
        mainQueue := mainQueue + [t];
      } else if t.Type() == LeftParen || t.Type() == Function {
        st := st + [t];
      } else if t.Type() == Operator {
        st := MoveWhile(st, Before(t));
        st := st + [t];
      } else if t.Type() == RightParen {
        st := MoveWhile(st, UntilLeftParen);
        PopWhileStops(old(mainQueue), opStack, UntilLeftParen);
        if st == [] {
          return st, Fail(MismatchedParentheses);
        }
        if st[|st| - 1].Type() == LeftParen {
          st := st[..|st| - 1];
        }
      }
    }

    /**
     * The inner `while` loops of `parse`: the top of the stack moves to
     * `mainQueue` as long as `rule` holds for it.
     */
    method MoveWhile(opStack: seq<Token<V>>, rule: PopRule<V>) returns (st: seq<Token<V>>)
      modifies this
      ensures vars == old(vars) && converter == old(converter) && compiled == old(compiled) && expression == old(expression)
      ensures (mainQueue, st) == PopWhile(old(mainQueue), opStack, rule)
    {
      st := opStack;
      while st != [] && Pops(rule, st[|st| - 1])
        invariant vars == old(vars) && converter == old(converter) && compiled == old(compiled) && expression == old(expression)
        invariant PopWhile(mainQueue, st, rule) == PopWhile(old(mainQueue), opStack, rule)
        decreases |st|
      {
        mainQueue := mainQueue + [st[|st| - 1]];
        st := st[..|st| - 1];
      }
    }

    /** The final `while` of `parse`: operators move to `mainQueue`; a parenthesis left on the stack throws. */
    method FlushStack(opStack: seq<Token<V>>) returns (outcome: Outcome<ParseError>)
      modifies this
      ensures vars == old(vars) && converter == old(converter) && compiled == old(compiled) && expression == old(expression)
      ensures var y := Flush(Yard(old(mainQueue), opStack, None));
              && mainQueue == y.queue
              && (outcome.Pass? <==> y.error.None?)
              && (outcome.Fail? ==> y.error == Some(outcome.error))
    {
      var st := opStack;
      while st != []
        invariant vars == old(vars) && converter == old(converter) && compiled == old(compiled) && expression == old(expression)
        invariant PopWhile(mainQueue, st, UntilParen) == PopWhile(old(mainQueue), opStack, UntilParen)
        decreases |st|
      {
        if IsParen(st[|st| - 1]) {
          return Fail(MismatchedParentheses);
        }
        mainQueue := mainQueue + [st[|st| - 1]];
        st := st[..|st| - 1];
      }
      outcome := Pass;
    }

    /**
     * `evaluate(varsValues)` on the interpreted path: every token of
     * `mainQueue` acts on one value stack, and the top is returned. The
     * program must run without reading below the stack or past
     * `varsValues`, and must leave a value.
     */
    method Evaluate(ops: Arith<V>, varsValues: seq<V>) returns (v: V)
      requires !compiled
      requires Run(ops, mainQueue, varsValues).Some? && Run(ops, mainQueue, varsValues).value != []
      ensures v == Last(Run(ops, mainQueue, varsValues).value)
    {
      var q := mainQueue;
      var s := new ValueStack<V>();
      var i := 0;
      while i < |q|
        invariant 0 <= i <= |q|
        invariant Exec(ops, [], q[..i], varsValues) == Some(s.items)
      {
        var t := q[i];
        assert q[..i + 1] == q[..i] + [t];
        assert q == q[..i + 1] + q[i + 1..];
        PrefixRuns(ops, [], q[..i + 1], q[i + 1..], varsValues);
        ExecSnoc(ops, [], q[..i], t, varsValues);
        EvaluateToken(ops, t, s, varsValues);
        i := i + 1;
      }
      assert q[..i] == q;
      v := s.Top();
    }
  }
}
