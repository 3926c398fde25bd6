/**
 * Two formulas of the repository's parse tests (test/tests/1.cpp), taken
 * through the shunting-yard pass and the interpreter with `Value` = `real`.
 */
module Scenarios {
  import opened Wrappers
  import opened Utils
  import opened Tokens
  import opened Shunting
  import opened Interpreter
  import opened ProtoParser

  /** Real arithmetic; `sin` and `pow` stay parameters, and division by zero is not looked at. */
  function RealOps(sin: real -> real, pow: (real, real) -> real): Arith<real> {
    Arith((a, b) => a + b, (a, b) => a - b, (a, b) => a * b, (a, b) => if b == 0.0 then 0.0 else a / b,
          a => -a, sin, pow)
  }

  // "2 * x + y" over the variables x, y: the tokens 2 * x + y, one `for` iteration at a time.

  const Two: Token<real> := NumberToken(2.0)
  const X: Token<real> := VariableToken(0)
  const Y: Token<real> := VariableToken(1)

  lemma Fed1() ensures Feed(Yard([], [], None), Two) == Yard([Two], [], None) {}
  lemma Fed2() ensures Feed(Yard([Two], [], None), MulToken) == Yard([Two], [MulToken], None) {}
  lemma Fed3() ensures Feed(Yard([Two], [MulToken], None), X) == Yard([Two, X], [MulToken], None) {}
  lemma Fed4() ensures Feed(Yard([Two, X], [MulToken], None), SumToken) == Yard([Two, X, MulToken], [SumToken], None)
  {
    var mul: Token<real> := MulToken;
    assert [mul][..0] == [];
  }
  lemma Fed5() ensures Feed(Yard([Two, X, MulToken], [SumToken], None), Y) == Yard([Two, X, MulToken, Y], [SumToken], None) {}

  lemma TwoXPlusYShunt()
    ensures Shunt([Two, MulToken, X, SumToken, Y]) == Yard([Two, X, MulToken, Y], [SumToken], None)
  {
    Fed1(); Fed2(); Fed3(); Fed4(); Fed5();
    ShuntSnoc([], Two);
    assert [] + [Two] == [Two];
    ShuntSnoc([Two], MulToken);
    assert [Two] + [MulToken] == [Two, MulToken];
    ShuntSnoc([Two, MulToken], X);
    assert [Two, MulToken] + [X] == [Two, MulToken, X];
    ShuntSnoc([Two, MulToken, X], SumToken);
    assert [Two, MulToken, X] + [SumToken] == [Two, MulToken, X, SumToken];
    ShuntSnoc([Two, MulToken, X, SumToken], Y);
    assert [Two, MulToken, X, SumToken] + [Y] == [Two, MulToken, X, SumToken, Y];
  }

  /** The postfix program `parse` builds from "2 * x + y". */
  lemma TwoXPlusYCompiles()
    ensures Compile([Two, MulToken, X, SumToken, Y]) == Yard([Two, X, MulToken, Y, SumToken], [], None)
  {
    TwoXPlusYShunt();
    var sum: Token<real> := SumToken;
    assert [sum][..0] == [];
  }

  /** Running one token more after a program that leaves `before`. */
  lemma {:induction false} RunsThen(ops: Arith<real>, prog: seq<Token<real>>, t: Token<real>, vars: seq<real>, before: seq<real>, after: seq<real>)
    requires Run(ops, prog, vars) == Some(before)
    requires CanApply(t, before, vars) && Apply(ops, t, before, vars) == after
    ensures Run(ops, prog + [t], vars) == Some(after)
  {
    ExecSnoc(ops, [], prog, t, vars);
  }

  lemma TwoXRuns(sin: real -> real, pow: (real, real) -> real, a: real, b: real)
    ensures Run(RealOps(sin, pow), [Two, X, MulToken], [a, b]) == Some([a * 2.0])
  {
    var ops, v := RealOps(sin, pow), [a, b];
    RunsThen(ops, [], Two, v, [], [2.0]);
    assert [] + [Two] == [Two];
    RunsThen(ops, [Two], X, v, [2.0], [2.0, a]);
    assert [Two] + [X] == [Two, X];
    RunsThen(ops, [Two, X], MulToken, v, [2.0, a], [a * 2.0]);
    assert [Two, X] + [MulToken] == [Two, X, MulToken];
  }

  /** 2 x * y + evaluates to 2x + y at every point: 0, 1, 2, 3, 4 at (0,0), (0,1), (1,0), (1,1), (1,2). */
  lemma TwoXPlusYRuns(sin: real -> real, pow: (real, real) -> real, a: real, b: real)
    ensures Run(RealOps(sin, pow), [Two, X, MulToken, Y, SumToken], [a, b]) == Some([2.0 * a + b])
  {
    var ops, v := RealOps(sin, pow), [a, b];
    TwoXRuns(sin, pow, a, b);
    RunsThen(ops, [Two, X, MulToken], Y, v, [a * 2.0], [a * 2.0, b]);
    assert [Two, X, MulToken] + [Y] == [Two, X, MulToken, Y];
    RunsThen(ops, [Two, X, MulToken, Y], SumToken, v, [a * 2.0, b], [2.0 * a + b]);
    assert [Two, X, MulToken, Y] + [SumToken] == [Two, X, MulToken, Y, SumToken];
  }

  // "pow(e, x)" over the variable x (test/tests/1.cpp:144, with the base 2 here): the comma is
  // dropped and `pow` takes its arguments in order.

  const Pw: Token<real> := PowToken
  const Lp: Token<real> := LeftParenToken
  const Rp: Token<real> := RightParenToken
  const Comma: Token<real> := DelimiterToken

  lemma PowFed1() ensures Feed(Yard([], [], None), Pw) == Yard([], [Pw], None) {}
  lemma PowFed2() ensures Feed(Yard([], [Pw], None), Lp) == Yard([], [Pw, Lp], None) {}
  lemma PowFed3() ensures Feed(Yard([], [Pw, Lp], None), Two) == Yard([Two], [Pw, Lp], None) {}
  lemma PowFed4() ensures Feed(Yard([Two], [Pw, Lp], None), Comma) == Yard([Two], [Pw, Lp], None) {}
  lemma PowFed5() ensures Feed(Yard([Two], [Pw, Lp], None), X) == Yard([Two, X], [Pw, Lp], None) {}
  lemma PowFed6() ensures Feed(Yard([Two, X], [Pw, Lp], None), Rp) == Yard([Two, X], [Pw], None)
  {
    assert [Pw, Lp][..1] == [Pw];
  }

  lemma PowShunt()
    ensures Shunt([Pw, Lp, Two, Comma, X, Rp]) == Yard([Two, X], [Pw], None)
  {
    PowFed1(); PowFed2(); PowFed3(); PowFed4(); PowFed5(); PowFed6();
    ShuntSnoc([], Pw);
    assert [] + [Pw] == [Pw];
    ShuntSnoc([Pw], Lp);
    assert [Pw] + [Lp] == [Pw, Lp];
    ShuntSnoc([Pw, Lp], Two);
    assert [Pw, Lp] + [Two] == [Pw, Lp, Two];
    ShuntSnoc([Pw, Lp, Two], Comma);
    assert [Pw, Lp, Two] + [Comma] == [Pw, Lp, Two, Comma];
    ShuntSnoc([Pw, Lp, Two, Comma], X);
    assert [Pw, Lp, Two, Comma] + [X] == [Pw, Lp, Two, Comma, X];
    ShuntSnoc([Pw, Lp, Two, Comma, X], Rp);
    assert [Pw, Lp, Two, Comma, X] + [Rp]
        == [Pw, Lp, Two, Comma, X, Rp];
  }

  /** The postfix program `parse` builds from "pow(2, x)". */
  lemma PowCompiles()
    ensures Compile([Pw, Lp, Two, Comma, X, Rp]) == Yard([Two, X, Pw], [], None)
  {
    PowShunt();
    assert [Pw][..0] == [];
    assert [Two, X] + [Pw] == [Two, X, Pw];
    assert PopWhile([Two, X], [Pw], UntilParen) == ([Two, X, Pw], []);
  }

  lemma PowApplied(sin: real -> real, pow: (real, real) -> real, a: real, vars: seq<real>)
    ensures Apply(RealOps(sin, pow), PowToken, [2.0, a], vars) == [pow(2.0, a)]
  {
  }

  /** 2 x pow evaluates to pow(2, x): the first argument is the base. */
  lemma {:induction false} PowRuns(sin: real -> real, pow: (real, real) -> real, a: real)
    ensures Run(RealOps(sin, pow), [Two, X, Pw], [a]) == Some([pow(2.0, a)])
  {
    var ops, v := RealOps(sin, pow), [a];
    ExecSnoc(ops, [], [], Two, v);
    assert [] + [Two] == [Two];
    ExecSnoc(ops, [], [Two], X, v);
    assert [Two] + [X] == [Two, X];
    ExecSnoc(ops, [], [Two, X], Pw, v);
    assert [Two, X] + [Pw] == [Two, X, Pw];
    PowApplied(sin, pow, a, v);
  }

  // The first parser on parentheses that do not match, where the later one throws.

  const One: Token<real> := NumberToken(1.0)

  /** "1 )": the ')' finds no '(' and is passed over. */
  lemma UnmatchedCloseSkipped()
    ensures LenientCompile([One, Rp]) == [One]
    ensures Compile([One, Rp]).error == Some(MismatchedParentheses)
  {
    LenientShuntSnoc([One], Rp);
    ShuntSnoc([One], Rp);
    assert [One] + [Rp] == [One, Rp];
  }

  /** "( 1": the '(' left on the stack is moved into the program. */
  lemma UnclosedOpenKept()
    ensures LenientCompile([Lp, One]) == [One, Lp]
    ensures Compile([Lp, One]).error == Some(MismatchedParentheses)
  {
    LenientShuntSnoc([Lp], One);
    ShuntSnoc([Lp], One);
    assert [Lp] + [One] == [Lp, One];
    assert [Lp][..0] == [];
  }

  lemma LowerTwoTimesThree()
    ensures Lower("2*3") == "2*3"
  {
  }

  lemma PadTimes()
    ensures ReplaceAll("2*3", "*", Pad("*")) == "2 * 3"
  {
    assert "2*3"[0..1] == "2" && "2*3"[1..2] == "*" && "2*3"[2..] == "3";
    assert Find("2*3", "*", 0) == Some(1);
    assert "3"[0..1] == "3";
    assert Find("3", "*", 0) == None;
  }

  lemma {:induction false} PadNothing(x: string, k: string)
    requires x == "2*3" || x == "2 * 3"
    requires k in ["(", ")", "+", "-", "--", "/", "sin"]
    ensures ReplaceAll(x, k, Pad(k)) == x
  {
    forall j: nat
      ensures !OccursAt(x, k, j)
    {
      if j + |k| <= |x| {
        assert x[j..j + |k|][0] == x[j] != k[0];
      }
    }
    ReplaceAbsent(x, k, Pad(k));
  }

  /** Keys that do not occur leave the text as it is. */
  lemma {:induction false} PaddedUnchanged(x: string, keys: seq<string>)
    requires NonEmptyKeys(keys)
    requires forall i :: 0 <= i < |keys| ==> ReplaceAll(x, keys[i], Pad(keys[i])) == x
    ensures Padded(x, keys) == x
    decreases |keys|
  {
    if keys != [] {
      PaddedUnchanged(x, keys[1..]);
    }
  }

  lemma PaddedFront()
    ensures Padded("2*3", ["(", ")", "*"]) == "2 * 3"
  {
    PadNothing("2*3", "(");
    PadNothing("2*3", ")");
    PadTimes();
    var a: seq<string> := ["(", ")", "*"];
    assert a[1..] == [")", "*"] && a[1..][1..] == ["*"] && ["*"][1..] == [];
  }

  lemma PaddedBack()
    ensures Padded("2 * 3", ["+", "-", "--", "/", "sin"]) == "2 * 3"
  {
    var b: seq<string> := ["+", "-", "--", "/", "sin"];
    forall i | 0 <= i < |b|
      ensures ReplaceAll("2 * 3", b[i], Pad(b[i])) == "2 * 3"
    {
      PadNothing("2 * 3", b[i]);
    }
    PaddedUnchanged("2 * 3", b);
  }

  /** `prepareString("2*3")` spaces out the operator and leaves the rest as it is. */
  lemma PreparedTwoTimesThree()
    ensures Prepared("2*3") == "2 * 3"
  {
    var a: seq<string> := ["(", ")", "*"];
    var b: seq<string> := ["+", "-", "--", "/", "sin"];
    assert Keys() == a + b;
    LowerTwoTimesThree();
    PaddedSplit("2*3", a, b);
    PaddedFront();
    PaddedBack();
  }

  // "-x * x * x + y * y" over the variables x, y (main.cpp:7-8): the leading '-' is unary and
  // binds tighter than '*'.

  const Neg: Token<real> := UnaryMinusToken
  const Mul: Token<real> := MulToken
  const Sum: Token<real> := SumToken

  lemma CubeShunt1()
    ensures Shunt([Neg]) == Yard([], [Neg], None)
  {
    ShuntSnoc([], Neg);
    assert [] + [Neg] == [Neg];
  }

  lemma CubeShunt2()
    ensures Shunt([Neg, X]) == Yard([X], [Neg], None)
  {
    CubeShunt1();
    ShuntSnoc([Neg], X);
    assert [Neg] + [X] == [Neg, X];
  }

  lemma CubeShunt3()
    ensures Shunt([Neg, X, Mul]) == Yard([X, Neg], [Mul], None)
  {
    CubeShunt2();
    ShuntSnoc([Neg, X], Mul);
    assert [Neg, X] + [Mul] == [Neg, X, Mul];
    assert PopWhile([X], [Neg], Before(Mul)) == PopWhile([X] + [Neg], [], Before(Mul));
    assert [X] + [Neg] == [X, Neg];
  }

  lemma CubeShunt4()
    ensures Shunt([Neg, X, Mul, X]) == Yard([X, Neg, X], [Mul], None)
  {
    CubeShunt3();
    ShuntSnoc([Neg, X, Mul], X);
    assert [Neg, X, Mul] + [X] == [Neg, X, Mul, X];
  }

  lemma CubeShunt5()
    ensures Shunt([Neg, X, Mul, X, Mul]) == Yard([X, Neg, X, Mul], [Mul], None)
  {
    CubeShunt4();
    ShuntSnoc([Neg, X, Mul, X], Mul);
    assert [Neg, X, Mul, X] + [Mul] == [Neg, X, Mul, X, Mul];
    assert PopWhile([X, Neg, X], [Mul], Before(Mul)) == PopWhile([X, Neg, X] + [Mul], [], Before(Mul));
    assert [X, Neg, X] + [Mul] == [X, Neg, X, Mul];
  }

  lemma CubeShunt6()
    ensures Shunt([Neg, X, Mul, X, Mul, X]) == Yard([X, Neg, X, Mul, X], [Mul], None)
  {
    CubeShunt5();
    ShuntSnoc([Neg, X, Mul, X, Mul], X);
    assert [Neg, X, Mul, X, Mul] + [X] == [Neg, X, Mul, X, Mul, X];
  }

  lemma CubeShunt7()
    ensures Shunt([Neg, X, Mul, X, Mul, X, Sum]) == Yard([X, Neg, X, Mul, X, Mul], [Sum], None)
  {
    CubeShunt6();
    ShuntSnoc([Neg, X, Mul, X, Mul, X], Sum);
    assert [Neg, X, Mul, X, Mul, X] + [Sum] == [Neg, X, Mul, X, Mul, X, Sum];
    assert PopWhile([X, Neg, X, Mul, X], [Mul], Before(Sum)) == PopWhile([X, Neg, X, Mul, X] + [Mul], [], Before(Sum));
    assert [X, Neg, X, Mul, X] + [Mul] == [X, Neg, X, Mul, X, Mul];
  }

  lemma CubeShunt8()
    ensures Shunt([Neg, X, Mul, X, Mul, X, Sum, Y]) == Yard([X, Neg, X, Mul, X, Mul, Y], [Sum], None)
  {
    CubeShunt7();
    ShuntSnoc([Neg, X, Mul, X, Mul, X, Sum], Y);
    assert [Neg, X, Mul, X, Mul, X, Sum] + [Y] == [Neg, X, Mul, X, Mul, X, Sum, Y];
  }

  lemma CubeShunt9()
    ensures Shunt([Neg, X, Mul, X, Mul, X, Sum, Y, Mul]) == Yard([X, Neg, X, Mul, X, Mul, Y], [Sum, Mul], None)
  {
    CubeShunt8();
    ShuntSnoc([Neg, X, Mul, X, Mul, X, Sum, Y], Mul);
    assert [Neg, X, Mul, X, Mul, X, Sum, Y] + [Mul] == [Neg, X, Mul, X, Mul, X, Sum, Y, Mul];
  }

  lemma CubeShunt10()
    ensures Shunt([Neg, X, Mul, X, Mul, X, Sum, Y, Mul, Y]) == Yard([X, Neg, X, Mul, X, Mul, Y, Y], [Sum, Mul], None)
  {
    CubeShunt9();
    ShuntSnoc([Neg, X, Mul, X, Mul, X, Sum, Y, Mul], Y);
    assert [Neg, X, Mul, X, Mul, X, Sum, Y, Mul] + [Y] == [Neg, X, Mul, X, Mul, X, Sum, Y, Mul, Y];
  }

  /** The postfix program `parse` builds from "-x * x * x + y * y": x -- x * x * y y * +. */
  lemma CubeCompiles()
    ensures Compile([Neg, X, Mul, X, Mul, X, Sum, Y, Mul, Y]) == Yard([X, Neg, X, Mul, X, Mul, Y, Y, Mul, Sum], [], None)
  {
    CubeShunt10();
    var q: seq<Token<real>> := [X, Neg, X, Mul, X, Mul, Y, Y];
    assert [Sum, Mul][..1] == [Sum] && [Sum][..0] == [];
    assert PopWhile(q, [Sum, Mul], UntilParen) == PopWhile(q + [Mul], [Sum], UntilParen);
    assert PopWhile(q + [Mul], [Sum], UntilParen) == PopWhile(q + [Mul] + [Sum], [], UntilParen);
    assert q + [Mul] + [Sum] == [X, Neg, X, Mul, X, Mul, Y, Y, Mul, Sum];
  }

  lemma CubeRuns1(sin: real -> real, pow: (real, real) -> real)
    ensures Run(RealOps(sin, pow), [X], [2.0, 3.0]) == Some([2.0])
  {
    var ops, v := RealOps(sin, pow), [2.0, 3.0];
    RunsThen(ops, [], X, v, [], [2.0]);
    assert [] + [X] == [X];
  }

  lemma NegTwo(sin: real -> real, pow: (real, real) -> real, vars: seq<real>)
    ensures Apply(RealOps(sin, pow), Neg, [2.0], vars) == [-2.0]
  {
    assert RealOps(sin, pow).neg(2.0) == -2.0 && [2.0][..0] == [];
  }

  lemma CubeRuns2(sin: real -> real, pow: (real, real) -> real)
    ensures Run(RealOps(sin, pow), [X, Neg], [2.0, 3.0]) == Some([-2.0])
  {
    var ops, v := RealOps(sin, pow), [2.0, 3.0];
    CubeRuns1(sin, pow);
    NegTwo(sin, pow, v);
    RunsThen(ops, [X], Neg, v, [2.0], [-2.0]);
    assert [X] + [Neg] == [X, Neg];
  }

  lemma CubeRuns3(sin: real -> real, pow: (real, real) -> real)
    ensures Run(RealOps(sin, pow), [X, Neg, X], [2.0, 3.0]) == Some([-2.0, 2.0])
  {
    var ops, v := RealOps(sin, pow), [2.0, 3.0];
    CubeRuns2(sin, pow);
    RunsThen(ops, [X, Neg], X, v, [-2.0], [-2.0, 2.0]);
    assert [X, Neg] + [X] == [X, Neg, X];
  }

  lemma CubeRuns4(sin: real -> real, pow: (real, real) -> real)
    ensures Run(RealOps(sin, pow), [X, Neg, X, Mul], [2.0, 3.0]) == Some([-4.0])
  {
    var ops, v := RealOps(sin, pow), [2.0, 3.0];
    CubeRuns3(sin, pow);
    RunsThen(ops, [X, Neg, X], Mul, v, [-2.0, 2.0], [-4.0]);
    assert [X, Neg, X] + [Mul] == [X, Neg, X, Mul];
  }

  lemma CubeRuns5(sin: real -> real, pow: (real, real) -> real)
    ensures Run(RealOps(sin, pow), [X, Neg, X, Mul, X], [2.0, 3.0]) == Some([-4.0, 2.0])
  {
    var ops, v := RealOps(sin, pow), [2.0, 3.0];
    CubeRuns4(sin, pow);
    RunsThen(ops, [X, Neg, X, Mul], X, v, [-4.0], [-4.0, 2.0]);
    assert [X, Neg, X, Mul] + [X] == [X, Neg, X, Mul, X];
  }

  lemma CubeRuns6(sin: real -> real, pow: (real, real) -> real)
    ensures Run(RealOps(sin, pow), [X, Neg, X, Mul, X, Mul], [2.0, 3.0]) == Some([-8.0])
  {
    var ops, v := RealOps(sin, pow), [2.0, 3.0];
    CubeRuns5(sin, pow);
    RunsThen(ops, [X, Neg, X, Mul, X], Mul, v, [-4.0, 2.0], [-8.0]);
    assert [X, Neg, X, Mul, X] + [Mul] == [X, Neg, X, Mul, X, Mul];
  }

  lemma CubeRuns7(sin: real -> real, pow: (real, real) -> real)
    ensures Run(RealOps(sin, pow), [X, Neg, X, Mul, X, Mul, Y], [2.0, 3.0]) == Some([-8.0, 3.0])
  {
    var ops, v := RealOps(sin, pow), [2.0, 3.0];
    CubeRuns6(sin, pow);
    RunsThen(ops, [X, Neg, X, Mul, X, Mul], Y, v, [-8.0], [-8.0, 3.0]);
    assert [X, Neg, X, Mul, X, Mul] + [Y] == [X, Neg, X, Mul, X, Mul, Y];
  }

  lemma CubeRuns8(sin: real -> real, pow: (real, real) -> real)
    ensures Run(RealOps(sin, pow), [X, Neg, X, Mul, X, Mul, Y, Y], [2.0, 3.0]) == Some([-8.0, 3.0, 3.0])
  {
    var ops, v := RealOps(sin, pow), [2.0, 3.0];
    CubeRuns7(sin, pow);
    RunsThen(ops, [X, Neg, X, Mul, X, Mul, Y], Y, v, [-8.0, 3.0], [-8.0, 3.0, 3.0]);
    assert [X, Neg, X, Mul, X, Mul, Y] + [Y] == [X, Neg, X, Mul, X, Mul, Y, Y];
  }

  lemma CubeRuns9(sin: real -> real, pow: (real, real) -> real)
    ensures Run(RealOps(sin, pow), [X, Neg, X, Mul, X, Mul, Y, Y, Mul], [2.0, 3.0]) == Some([-8.0, 9.0])
  {
    var ops, v := RealOps(sin, pow), [2.0, 3.0];
    CubeRuns8(sin, pow);
    RunsThen(ops, [X, Neg, X, Mul, X, Mul, Y, Y], Mul, v, [-8.0, 3.0, 3.0], [-8.0, 9.0]);
    assert [X, Neg, X, Mul, X, Mul, Y, Y] + [Mul] == [X, Neg, X, Mul, X, Mul, Y, Y, Mul];
  }

  /** x -- x * x * y y * + at x = 2, y = 3 is -2*2*2 + 3*3 = 1, the value main.cpp prints. */
  lemma CubeRuns(sin: real -> real, pow: (real, real) -> real)
    ensures Run(RealOps(sin, pow), [X, Neg, X, Mul, X, Mul, Y, Y, Mul, Sum], [2.0, 3.0]) == Some([1.0])
  {
    var ops, v := RealOps(sin, pow), [2.0, 3.0];
    CubeRuns9(sin, pow);
    RunsThen(ops, [X, Neg, X, Mul, X, Mul, Y, Y, Mul], Sum, v, [-8.0, 9.0], [1.0]);
    assert [X, Neg, X, Mul, X, Mul, Y, Y, Mul] + [Sum] == [X, Neg, X, Mul, X, Mul, Y, Y, Mul, Sum];
  }
}
