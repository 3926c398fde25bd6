/**
 * The interpreted path of `Expression<Value>::evaluate`
 * (src/expression/Expression.cpp): every token of the postfix program acts
 * on one value stack, and the result is what ends on top.
 */
module Interpreter {
  import opened Wrappers
  import opened Tokens

  /**
   * The stack after running `prog` from `st`; `None` where some token would
   * read below the bottom of the stack or past the end of `vars`, which the
   * C++ code leaves undefined.
   */
  function Exec<V>(ops: Arith<V>, st: seq<V>, prog: seq<Token<V>>, vars: seq<V>): Option<seq<V>>
    decreases |prog|
  {
    if prog == [] then Some(st)
    else
      match Exec(ops, st, prog[..|prog| - 1], vars)
      case None => None
      case Some(s) =>
        var t := prog[|prog| - 1];
        if CanApply(t, s, vars) then Some(Apply(ops, t, s, vars)) else None
  }

  /** The top of a stack written bottom first. */
  function Last<T>(s: seq<T>): T
    requires s != []
  {
    s[|s| - 1]
  }

  /** The stack `evaluate` builds from an empty `std::stack`. */
  function Run<V>(ops: Arith<V>, prog: seq<Token<V>>, vars: seq<V>): Option<seq<V>> {
    Exec(ops, [], prog, vars)
  }

  /** Change in stack height a token causes. */
  function Effect<V>(t: Token<V>): int {
    t.Pushes() as int - t.Arity() as int
  }

  /** Change in stack height the whole program causes. */
  function NetEffect<V>(prog: seq<Token<V>>): int
    decreases |prog|
  {
    if prog == [] then 0 else NetEffect(prog[..|prog| - 1]) + Effect(prog[|prog| - 1])
  }

  lemma {:induction false} ExecSnoc<V>(ops: Arith<V>, st: seq<V>, prog: seq<Token<V>>, t: Token<V>, vars: seq<V>)
    ensures Exec(ops, st, prog + [t], vars) ==
              match Exec(ops, st, prog, vars)
              case None => None
              case Some(s) => if CanApply(t, s, vars) then Some(Apply(ops, t, s, vars)) else None
  {
    assert (prog + [t])[..|prog|] == prog;
  }

  /** Running `a + b` is running `a`, then `b` from where `a` left the stack. */
  lemma {:induction false} ExecAppend<V>(ops: Arith<V>, st: seq<V>, a: seq<Token<V>>, b: seq<Token<V>>, vars: seq<V>)
    ensures Exec(ops, st, a + b, vars) ==
              match Exec(ops, st, a, vars)
              case None => None
              case Some(s) => Exec(ops, s, b, vars)
    decreases |b|
  {
    if b == [] {
      assert a + b == a;
    } else {
      var b', t := b[..|b| - 1], b[|b| - 1];
      assert a + b == (a + b') + [t];
      ExecAppend(ops, st, a, b', vars);
      ExecSnoc(ops, st, a + b', t, vars);
    }
  }

  /** The final height is the starting height plus the net effect of the program. */
  lemma {:induction false} ExecHeight<V>(ops: Arith<V>, st: seq<V>, prog: seq<Token<V>>, vars: seq<V>)
    requires Exec(ops, st, prog, vars).Some?
    ensures |Exec(ops, st, prog, vars).value| == |st| + NetEffect(prog)
    decreases |prog|
  {
    if prog != [] {
      ExecHeight(ops, st, prog[..|prog| - 1], vars);
    }
  }

  /**
   * Entries below what the program consumes are never touched: running from
   * a deeper stack gives the same result on top of the extra entries.
   */
  lemma {:induction false} ExecFrame<V>(ops: Arith<V>, below: seq<V>, st: seq<V>, prog: seq<Token<V>>, vars: seq<V>)
    requires Exec(ops, st, prog, vars).Some?
    ensures Exec(ops, below + st, prog, vars) == Some(below + Exec(ops, st, prog, vars).value)
    decreases |prog|
  {
    if prog != [] {
      var init, t := prog[..|prog| - 1], prog[|prog| - 1];
      ExecFrame(ops, below, st, init, vars);
      var s := Exec(ops, st, init, vars).value;
      ApplyFrame(ops, below, s, t, vars);
    }
  }

  /** One token leaves the entries below its operands alone. */
  lemma {:induction false} ApplyFrame<V>(ops: Arith<V>, below: seq<V>, s: seq<V>, t: Token<V>, vars: seq<V>)
    requires CanApply(t, s, vars)
    ensures CanApply(t, below + s, vars)
    ensures Apply(ops, t, below + s, vars) == below + Apply(ops, t, s, vars)
  {
    if t.Arity() == 2 {
      BinaryFrame(ops, below, s, t, vars);
    } else if t.Arity() == 1 {
      UnaryFrame(ops, below, s, t, vars);
    } else {
      NullaryFrame(ops, below, s, t, vars);
    }
  }

  lemma {:induction false} BinaryFrame<V>(ops: Arith<V>, below: seq<V>, s: seq<V>, t: Token<V>, vars: seq<V>)
    requires CanApply(t, s, vars) && t.Arity() == 2
    ensures Apply(ops, t, below + s, vars) == below + Apply(ops, t, s, vars)
  {
    var n, m := |s|, |below + s|;
    assert (below + s)[m - 1] == s[n - 1];
    assert (below + s)[m - 2] == s[n - 2];
    assert (below + s)[..m - 2] == below + s[..n - 2];
  }

  lemma {:induction false} UnaryFrame<V>(ops: Arith<V>, below: seq<V>, s: seq<V>, t: Token<V>, vars: seq<V>)
    requires CanApply(t, s, vars) && t.Arity() == 1
    ensures Apply(ops, t, below + s, vars) == below + Apply(ops, t, s, vars)
  {
    var n, m := |s|, |below + s|;
    assert (below + s)[m - 1] == s[n - 1];
    assert (below + s)[..m - 1] == below + s[..n - 1];
  }

  lemma NullaryFrame<V>(ops: Arith<V>, below: seq<V>, s: seq<V>, t: Token<V>, vars: seq<V>)
    requires CanApply(t, s, vars) && t.Arity() == 0
    ensures Apply(ops, t, below + s, vars) == below + Apply(ops, t, s, vars)
  {
  }

  /** A program that fails on some prefix fails as a whole. */
  lemma {:induction false} PrefixFails<V>(ops: Arith<V>, st: seq<V>, a: seq<Token<V>>, b: seq<Token<V>>, vars: seq<V>)
    requires Exec(ops, st, a, vars).None?
    ensures Exec(ops, st, a + b, vars).None?
  {
    ExecAppend(ops, st, a, b, vars);
  }

  /** A program that runs has prefixes that run. */
  lemma {:induction false} PrefixRuns<V>(ops: Arith<V>, st: seq<V>, a: seq<Token<V>>, b: seq<Token<V>>, vars: seq<V>)
    requires Exec(ops, st, a + b, vars).Some?
    ensures Exec(ops, st, a, vars).Some?
  {
    ExecAppend(ops, st, a, b, vars);
  }

  /** Parentheses and commas do nothing when run. */
  lemma {:induction false} StructuralTokensAreSkips<V>(ops: Arith<V>, st: seq<V>, t: Token<V>, vars: seq<V>)
    requires t.LeftParenToken? || t.RightParenToken? || t.DelimiterToken?
    ensures Exec(ops, st, [t], vars) == Some(st)
  {
    assert [t][..0] == [];
  }
}
