/**
 * The token classes of the templated expression engine (src/expression/Tokens.h):
 * kind, precedence, associativity and the effect of each token on the operand
 * stack, plus the `std::stack<Value>` the interpreter works on.
 *
 * `Value` is a type parameter. Floating-point arithmetic, `sin` and `pow` are
 * not interpreted: they come in as an `Arith` record.
 */
module Tokens {
  import opened Wrappers

  /** `TokenType`. The shown enum has no `Delimiter`; the comma token needs one. */
  datatype TokenType = Undefined | Number | Function | Operator | LeftParen | RightParen | Variable | Delimiter

  /** `TokenAssociativity`: `Both` marks the commutative operators. */
  datatype Associativity = Both | Right | Left

  /** The operations a `Value` supports, standing for C++ arithmetic, `std::sin` and `std::pow`. */
  datatype Arith<!V> = Arith(
    add: (V, V) -> V,
    sub: (V, V) -> V,
    mul: (V, V) -> V,
    div: (V, V) -> V,
    neg: V -> V,
    sin: V -> V,
    pow: (V, V) -> V)

  /** Errors `Expression::parse` throws as `std::logic_error`. */
  datatype ParseError =
    | WrongSyntax(pos: int)        // a '-' as the last character; `pos` is |s| - 1
    | UnknownToken(name: string)   // a word that is no number, table entry or variable
    | MismatchedParentheses

  /** One token object; the operator and function tokens are the shared singletons of the token table. */
  datatype Token<V> =
    | NumberToken(value: V)
    | VariableToken(num: nat)
    | SumToken
    | SubToken
    | MulToken
    | DivToken
    | UnaryMinusToken
    | SinToken
    | PowToken
    | LeftParenToken
    | RightParenToken
    | DelimiterToken
  {
    /** `type()`. */
    function Type(): TokenType {
      match this
      case NumberToken(_) => Number
      case VariableToken(_) => Variable
      case SumToken | SubToken | MulToken | DivToken | UnaryMinusToken => Operator
      case SinToken | PowToken => Function
      case LeftParenToken => LeftParen
      case RightParenToken => RightParen
      case DelimiterToken => Delimiter
    }

    /** `precedence()`: a smaller number binds tighter; -1 is the base-class default. */
    function Precedence(): (r: int)
      ensures r == -1 <==> Type() != Operator
      ensures Type() == Operator ==> 0 <= r <= 2
    {
      match this
      case UnaryMinusToken => 0
      case MulToken | DivToken => 1
      case SumToken | SubToken => 2
      case _ => -1
    }

    /** `associativity()`: `Both` is the base-class default. */
    function Associativity(): Associativity {
      match this
      case SubToken | DivToken => Left
      case UnaryMinusToken => Right
      case _ => Both
    }

    /** Number of operands `evaluate` pops. */
    function Arity(): nat {
      match this
      case SumToken | SubToken | MulToken | DivToken | PowToken => 2
      case UnaryMinusToken | SinToken => 1
      case _ => 0
    }

    /** Number of values `evaluate` pushes; the structural tokens keep the base-class no-op. */
    function Pushes(): nat {
      match this
      case LeftParenToken | RightParenToken | DelimiterToken => 0
      case _ => 1
    }
  }

  /** `isLeftAssociative`: `Both` or `Left`. */
  predicate IsLeftAssociative<V>(t: Token<V>) {
    t.Associativity() == Both || t.Associativity() == Left
  }

  /** `isParen`. */
  predicate IsParen<V>(t: Token<V>) {
    t.Type() == LeftParen || t.Type() == RightParen
  }

  /** Unary minus binds tightest, then `*` and `/`, then `+` and `-`. */
  lemma PrecedenceOrder<V>()
    ensures Token<V>.UnaryMinusToken.Precedence() < Token<V>.MulToken.Precedence()
    ensures Token<V>.MulToken.Precedence() == Token<V>.DivToken.Precedence()
    ensures Token<V>.DivToken.Precedence() < Token<V>.SumToken.Precedence()
    ensures Token<V>.SumToken.Precedence() == Token<V>.SubToken.Precedence()
  {
  }

  /** Unary minus is the only right-associative token, so every other token counts as left-associative. */
  lemma LeftAssociativeUnlessUnaryMinus<V>(t: Token<V>)
    ensures IsLeftAssociative(t) <==> !t.UnaryMinusToken?
  {
  }

  /** Only the two parenthesis tokens are parentheses; the comma is not. */
  lemma ParenTokens<V>(t: Token<V>)
    ensures IsParen(t) <==> t.LeftParenToken? || t.RightParenToken?
  {
  }

  /** `evaluate` is defined on a stack holding its operands and, for a variable, on a long enough value vector. */
  predicate CanApply<V>(t: Token<V>, st: seq<V>, vars: seq<V>) {
    t.Arity() <= |st| && (t.VariableToken? ==> t.num < |vars|)
  }

  /**
   * `evaluate(s, vars)` on a stack written bottom first. A binary token pops
   * `a` (the top) and then `b`; `SubToken`, `DivToken` and `PowToken` use `b`
   * as the left operand.
   */
  function Apply<V>(ops: Arith<V>, t: Token<V>, st: seq<V>, vars: seq<V>): (r: seq<V>)
    requires CanApply(t, st, vars)
    ensures |r| == |st| - t.Arity() + t.Pushes()
    ensures r[..|st| - t.Arity()] == st[..|st| - t.Arity()]
  {
    var n := |st|;
    match t
    case NumberToken(v) => st + [v]
    case VariableToken(i) => st + [vars[i]]
    case SumToken => st[..n - 2] + [ops.add(st[n - 1], st[n - 2])]
    case SubToken => st[..n - 2] + [ops.sub(st[n - 2], st[n - 1])]
    case MulToken => st[..n - 2] + [ops.mul(st[n - 1], st[n - 2])]
    case DivToken => st[..n - 2] + [ops.div(st[n - 2], st[n - 1])]
    case UnaryMinusToken => st[..n - 1] + [ops.neg(st[n - 1])]
    case SinToken => st[..n - 1] + [ops.sin(st[n - 1])]
    case PowToken => st[..n - 2] + [ops.pow(st[n - 2], st[n - 1])]
    case LeftParenToken | RightParenToken | DelimiterToken => st
  }

  /** `std::stack<Value>`; `items` lists the stack bottom first, so the top is the last element. */
  class ValueStack<V> {
    var items: seq<V>

    constructor ()
      ensures items == []
    {
      items := [];
    }

    method Top() returns (v: V)
      requires items != []
      ensures v == items[|items| - 1]
    {
      v := items[|items| - 1];
    }

    method Pop()
      requires items != []
      modifies this
      ensures items == old(items)[..|old(items)| - 1]
    {
      items := items[..|items| - 1];
    }

    method Push(v: V)
      modifies this
      ensures items == old(items) + [v]
    {
      items := items + [v];
    }
  }

  /** A binary token's body: pop `a`, pop `b`, push `f(a, b)`. */
  method PopTwoPushOne<V>(s: ValueStack<V>, f: (V, V) -> V)
    requires |s.items| >= 2
    modifies s
    ensures s.items == old(s.items)[..|old(s.items)| - 2] + [f(old(s.items)[|old(s.items)| - 1], old(s.items)[|old(s.items)| - 2])]
  {
    var a := s.Top();
    s.Pop();
    var b := s.Top();
    s.Pop();
    s.Push(f(a, b));
  }

  /** A unary token's body: pop `a`, push `f(a)`. */
  method PopOnePushOne<V>(s: ValueStack<V>, f: V -> V)
    requires |s.items| >= 1
    modifies s
    ensures s.items == old(s.items)[..|old(s.items)| - 1] + [f(old(s.items)[|old(s.items)| - 1])]
  {
    var a := s.Top();
    s.Pop();
    s.Push(f(a));
  }

  /** The virtual `evaluate(s, vars)`, changing the caller's stack in place. */
  method EvaluateToken<V>(ops: Arith<V>, t: Token<V>, s: ValueStack<V>, vars: seq<V>)
    requires CanApply(t, s.items, vars)
    modifies s
    ensures s.items == Apply(ops, t, old(s.items), vars)
  {
    match t
    case NumberToken(v) => s.Push(v);
    case VariableToken(i) => s.Push(vars[i]);
    case SumToken => PopTwoPushOne(s, ops.add);
    case SubToken => PopTwoPushOne(s, (a, b) => ops.sub(b, a));
    case MulToken => PopTwoPushOne(s, ops.mul);
    case DivToken => PopTwoPushOne(s, (a, b) => ops.div(b, a));
    case UnaryMinusToken => PopOnePushOne(s, ops.neg);
    case SinToken => PopOnePushOne(s, ops.sin);
    case PowToken => PopTwoPushOne(s, (a, b) => ops.pow(b, a));
    case LeftParenToken =>
    case RightParenToken =>
    case DelimiterToken =>
  }
}
