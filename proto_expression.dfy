/**
 * The second copy of the first parser (src/parser/Expression.cpp): the class
 * `Expression` with the same table, the same padding, split and conversion
 * (called `tokenize` here), the same lenient shunting yard and the same
 * draining `evaluate`. The reference definitions are those of `ProtoParser`.
 */
module ProtoExpression {
  import opened Wrappers
  import opened Utils
  import opened Tokens
  import opened Shunting
  import opened Interpreter
  import opened ProtoParser

  /** The prototype `Expression`: the same parser as `Parser`, under the name the later engine kept. */
  class Expression<V> {
    var mainQueue: seq<Token<V>>

    constructor ()
      ensures mainQueue == []
    {
      mainQueue := [];
    }

    /**
     * `prepareString(s)`: `s` lower-cased, then each key of the table, in map
     * order, replaced everywhere by itself between two spaces with
     * `utils_rk::replace`.
     */
    static method PrepareString(s: string) returns (r: string)
      ensures r == Prepared(s)
    {
      r := Lower(s);
      var keys := Keys();
      KeysNonEmpty();
      assert keys[0..] == keys;
      for i := 0 to |keys|
        invariant NonEmptyKeys(keys[i..]) && Padded(r, keys[i..]) == Prepared(s)
      {
        PaddedStep(r, keys, i);
        r := Replace(r, keys[i], " " + keys[i] + " ");
      }
      assert keys[|keys|..] == [];
    }

    /**
     * `tokenize(s, v)`: one token per whitespace-separated word of the
     * prepared text; `Err` carries the word `tokens.at` threw on.
     */
    static method Tokenize(conv: string -> Option<V>, s: string) returns (r: Result<seq<Token<V>>, string>)
      ensures r == TokenVector(conv, Words(Prepared(s)))
    {
      var p := PrepareString(s);
      var results := Words(p);
      r := ConvertWords(conv, results);
    }

    /** The `for` loop of `tokenize` over the words `results`. */
    static method ConvertWords(conv: string -> Option<V>, results: seq<string>) returns (r: Result<seq<Token<V>>, string>)
      ensures r == TokenVector(conv, results)
    {
      var v: seq<Token<V>> := [];
      for i := 0 to |results|
        invariant TokenVector(conv, results[..i]) == Ok(v)
      {
        var t := ReadWord(conv, results, i, v);
        if t.Err? {
          WordThrows(conv, results, i, v);
          return Err(t.error);
        }
        WordExtends(conv, results, i, v);
        v := v + [t.value];
      }
      assert results[..|results|] == results;
      return Ok(v);
    }

    /** The body of the loop of `tokenize` for word `i`, read after the tokens `v`. */
    static method ReadWord(conv: string -> Option<V>, results: seq<string>, i: nat, v: seq<Token<V>>) returns (t: Result<Token<V>, string>)
      requires i < |results| && |v| == i
      ensures t == GetToken(conv, NameOf(v, results[i]))
    {
      var name := results[i];
      if results[i] == "-" {
        if i == 0 || v[|v| - 1].Type() == Operator || v[|v| - 1].Type() == LeftParen {
          name := "--";
        } else {
          name := "-";
        }
      }
      t := GetToken(conv, name);
    }

    /**
     * `parse(s)`: the queue is emptied, the text converted, and the tokens fed
     * through the shunting yard; a ')' without '(' is passed over, and what is
     * left on the stack, '(' included, ends up in the queue.
     */
    method Parse(conv: string -> Option<V>, s: string) returns (outcome: Outcome<string>)
      modifies this
      ensures var r := TokenVector(conv, Words(Prepared(s)));
              && (r.Err? ==> outcome == Fail(r.error) && mainQueue == [])
              && (r.Ok? ==> outcome == Pass && mainQueue == LenientCompile(r.value))
    {
      mainQueue := [];
      var r := Tokenize(conv, s);
      if r.Err? {
        return Fail(r.error);
      }
      var opStack := ShuntTokens(r.value);
      FlushStack(opStack);
      outcome := Pass;
    }

    /** The `for` loop of `parse`, starting from an empty queue. */
    method ShuntTokens(v: seq<Token<V>>) returns (opStack: seq<Token<V>>)
      requires mainQueue == []
      modifies this
      ensures (mainQueue, opStack) == LenientShunt(v)
    {
      opStack := [];
      for i := 0 to |v|
        invariant LenientShunt(v[..i]) == (mainQueue, opStack)
      {
        assert v[..i + 1] == v[..i] + [v[i]];
        LenientShuntSnoc(v[..i], v[i]);
        opStack := FeedToken(v[i], opStack);
      }
      assert v[..|v|] == v;
    }

    /** The final `while` of `parse`: every entry left on the stack moves to the queue, top first. */
    method FlushStack(opStack: seq<Token<V>>)
      modifies this
      ensures mainQueue == old(mainQueue) + Reversed(opStack)
    {
      var st := opStack;
      while st != []
        invariant mainQueue + Reversed(st) == old(mainQueue) + Reversed(opStack)
        decreases |st|
      {
        var top := st[|st| - 1];
        assert mainQueue + Reversed(st) == (mainQueue + [top]) + Reversed(st[..|st| - 1]);
        mainQueue := mainQueue + [top];
        st := st[..|st| - 1];
      }
      assert mainQueue + Reversed(st) == mainQueue;
    }

    /** One iteration of the `for` loop of `parse`. */
    method FeedToken(t: Token<V>, opStack: seq<Token<V>>) returns (st: seq<Token<V>>)
      modifies this
      ensures (mainQueue, st) == LenientFeed(old(mainQueue), opStack, t)
    {
      st := opStack;
      if t.Type() == Number {
        mainQueue := mainQueue + [t];
      } else if t.Type() == Function {
        st := st + [t];
      } else if t.Type() == Operator {
        st := MoveWhile(st, Before(t));
        st := st + [t];
      } else if t.Type() == LeftParen {
        st := st + [t];
      } else if t.Type() == RightParen {
        st := MoveWhile(st, UntilLeftParen);
        if st != [] && st[|st| - 1].Type() == LeftParen {
          st := st[..|st| - 1];
        }
      }
    }

    /** The inner `while` loops of `parse`: the top of the stack moves to `mainQueue` as long as `rule` holds for it. */
    method MoveWhile(opStack: seq<Token<V>>, rule: PopRule<V>) returns (st: seq<Token<V>>)
      modifies this
      ensures (mainQueue, st) == PopWhile(old(mainQueue), opStack, rule)
    {
      st := opStack;
      while st != [] && Pops(rule, st[|st| - 1])
        invariant PopWhile(mainQueue, st, rule) == PopWhile(old(mainQueue), opStack, rule)
        decreases |st|
      {
        mainQueue := mainQueue + [st[|st| - 1]];
        st := st[..|st| - 1];
      }
    }

    /**
     * `evaluate()`: the queue is drained front first, each token acting on
     * one `std::stack<double>`, and the top is returned. The program must
     * run without reading below the stack and must leave a value.
     */
    method Evaluate(ops: Arith<V>) returns (v: V)
      requires Run(ops, mainQueue, []).Some? && Run(ops, mainQueue, []).value != []
      modifies this
      ensures v == Last(Run(ops, old(mainQueue), []).value)
      ensures mainQueue == []
    {
      ghost var prog := mainQueue;
      var s := new ValueStack<V>();
      ghost var done: seq<Token<V>> := [];
      while mainQueue != []
        invariant done + mainQueue == prog
        invariant Run(ops, done, []) == Some(s.items)
        decreases |mainQueue|
      {
        done := EvaluateFront(ops, s, prog, done);
      }
      assert done == prog;
      v := s.Top();
    }

    /** One iteration of the loop of `evaluate`: the front token acts on `s` and leaves the queue. */
    method EvaluateFront(ops: Arith<V>, s: ValueStack<V>, ghost prog: seq<Token<V>>, ghost done: seq<Token<V>>)
      returns (ghost done': seq<Token<V>>)
      requires mainQueue != [] && done + mainQueue == prog
      requires Run(ops, prog, []).Some? && Run(ops, done, []) == Some(s.items)
      modifies this, s
      ensures done' + mainQueue == prog && Run(ops, done', []) == Some(s.items)
      ensures mainQueue == old(mainQueue)[1..]
    {
      var t, rest := mainQueue[0], mainQueue[1..];
      assert prog == done + [t] + rest by {
        assert mainQueue == [t] + rest;
      }
      RunStep(ops, done, t, rest, s.items);
      EvaluateToken(ops, t, s, []);
      mainQueue := rest;
      done' := done + [t];
      assert done' + rest == prog;
    }
  }
}
