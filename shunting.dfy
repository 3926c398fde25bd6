/**
 * The shunting-yard pass of `Expression<Value>::parse`
 * (src/expression/Expression.cpp), as reference definitions: the token list
 * is fed left to right into an output queue and an operator stack, and the
 * stack is flushed at the end. Parentheses that do not match make it fail.
 */
module Shunting {
  import opened Wrappers
  import opened Tokens

  /** `mainQueue`, `opStack` written bottom first, and the error thrown, if any. */
  datatype Yard<V> = Yard(queue: seq<Token<V>>, stack: seq<Token<V>>, error: Option<ParseError>)

  /** The condition of the inner `while` of the Operator branch: the top of `opStack` moves to the queue before `t` is pushed. */
  predicate PopsBefore<V>(top: Token<V>, t: Token<V>) {
    && top.Type() != LeftParen
    && (|| top.Type() == Function
        || (&& top.Type() == Operator
            && (top.Precedence() < t.Precedence() || (top.Precedence() == t.Precedence() && IsLeftAssociative(t)))))
  }

  /** The three popping loops of `parse`: before an operator `t`, at a ')', and the final flush. */
  datatype PopRule<V> = Before(t: Token<V>) | UntilLeftParen | UntilParen

  /** The top of the stack `top` is popped under `rule`. */
  predicate Pops<V>(rule: PopRule<V>, top: Token<V>) {
    match rule
    case Before(t) => PopsBefore(top, t)
    case UntilLeftParen => !top.LeftParenToken?
    case UntilParen => !(top.LeftParenToken? || top.RightParenToken?)
  }

  /** `s` last element first. */
  function Reversed<T>(s: seq<T>): (r: seq<T>)
    ensures |r| == |s|
  {
    if s == [] then [] else [s[|s| - 1]] + Reversed(s[..|s| - 1])
  }

  /** Moves the top of the stack `st` to the end of the queue `q` while `rule` holds for it. */
  function PopWhile<V>(q: seq<Token<V>>, st: seq<Token<V>>, rule: PopRule<V>): (r: (seq<Token<V>>, seq<Token<V>>))
    ensures |r.1| <= |st|
    decreases |st|
  {
    if st != [] && Pops(rule, st[|st| - 1]) then PopWhile(q + [st[|st| - 1]], st[..|st| - 1], rule)
    else (q, st)
  }

  /** The stack keeps a prefix of itself, and the popped entries reach the queue top first. */
  lemma {:induction false} PopWhileMoves<V>(q: seq<Token<V>>, st: seq<Token<V>>, rule: PopRule<V>)
    ensures var r := PopWhile(q, st, rule);
            r.1 == st[..|r.1|] && r.0 == q + Reversed(st[|r.1|..])
    decreases |st|
  {
    if st != [] && Pops(rule, st[|st| - 1]) {
      var x, st' := st[|st| - 1], st[..|st| - 1];
      PopWhileMoves(q + [x], st', rule);
      var m := |PopWhile(q + [x], st', rule).1|;
      assert st[m..][..|st[m..]| - 1] == st'[m..];
      assert st'[..m] == st[..m];
    }
  }

  /** Every popped entry satisfies `rule`, and the new top does not. */
  lemma {:induction false} PopWhileStops<V>(q: seq<Token<V>>, st: seq<Token<V>>, rule: PopRule<V>)
    ensures var r := PopWhile(q, st, rule);
            && (forall k :: |r.1| <= k < |st| ==> Pops(rule, st[k]))
            && (r.1 == [] || !Pops(rule, r.1[|r.1| - 1]))
    decreases |st|
  {
    if st != [] && Pops(rule, st[|st| - 1]) {
      var x, st' := st[|st| - 1], st[..|st| - 1];
      PopWhileStops(q + [x], st', rule);
    }
  }

  /** The Number and Variable branch: the token goes to the queue. */
  function Shift<V>(y: Yard<V>, t: Token<V>): Yard<V> {
    y.(queue := y.queue + [t])
  }

  /** The LeftParen and Function branch: the token goes onto the stack. */
  function Open<V>(y: Yard<V>, t: Token<V>): Yard<V> {
    y.(stack := y.stack + [t])
  }

  /** The Operator branch: pop what binds at least as tightly as `t`, then push `t`. */
  function Reduce<V>(y: Yard<V>, t: Token<V>): Yard<V> {
    var (q, st) := PopWhile(y.queue, y.stack, Before(t));
    Yard(q, st + [t], None)
  }

  /** The RightParen branch: pop until a '(' and drop it; an empty stack means there was none. */
  function Close<V>(y: Yard<V>): (r: Yard<V>)
    ensures r.error.Some? ==> r.error == Some(MismatchedParentheses)
  {
    var (q, st) := PopWhile(y.queue, y.stack, UntilLeftParen);
    if st == [] then Yard(q, st, Some(MismatchedParentheses))
    else Yard(q, st[..|st| - 1], None)
  }

  /** `parse` after one more token `t`. A comma (Delimiter) matches no branch and is dropped. */
  function Feed<V>(y: Yard<V>, t: Token<V>): (r: Yard<V>)
    requires y.error.None?
    ensures r.error.Some? ==> t.RightParenToken? && r.error == Some(MismatchedParentheses)
  {
    match t.Type()
    case Number | Variable => Shift(y, t)
    case LeftParen | Function => Open(y, t)
    case Operator => Reduce(y, t)
    case RightParen => Close(y)
    case Delimiter | Undefined => y
  }

  /** The `for` loop of `parse` over `ts`; after an error the remaining tokens are not looked at. */
  function Shunt<V>(ts: seq<Token<V>>): Yard<V>
    decreases |ts|
  {
    if ts == [] then Yard([], [], None)
    else
      var y := Shunt(ts[..|ts| - 1]);
      if y.error.Some? then y else Feed(y, ts[|ts| - 1])
  }

  /** The final `while` of `parse`: operators move to the queue until a parenthesis, which is an error. */
  function Flush<V>(y: Yard<V>): (r: Yard<V>)
    requires y.error.None?
    ensures r.error.None? <==> r.stack == []
  {
    var (q, st) := PopWhile(y.queue, y.stack, UntilParen);
    if st == [] then Yard(q, [], None) else Yard(q, st, Some(MismatchedParentheses))
  }

  /** Reference definition of the shunting-yard part of `parse`. */
  function Compile<V>(ts: seq<Token<V>>): Yard<V> {
    var y := Shunt(ts);
    if y.error.Some? then y else Flush(y)
  }

  /** Token classes the invariants of `parse` count. */
  datatype Class = Operands | Operations | LeftParens

  predicate InClass<V>(c: Class, t: Token<V>) {
    match c
    case Operands => t.NumberToken? || t.VariableToken?
    case Operations => IsOperator(t) || t.SinToken? || t.PowToken?
    case LeftParens => t.LeftParenToken?
  }

  predicate IsOperator<V>(t: Token<V>) {
    t.SumToken? || t.SubToken? || t.MulToken? || t.DivToken? || t.UnaryMinusToken?
  }

  /** The classes are the token types `parse` tells apart. */
  lemma ClassesByType<V>(t: Token<V>)
    ensures InClass(Operands, t) <==> t.Type() == Number || t.Type() == Variable
    ensures InClass(Operations, t) <==> t.Type() == Operator || t.Type() == Function
    ensures IsOperator(t) <==> t.Type() == Operator
    ensures InClass(LeftParens, t) <==> t.Type() == LeftParen
  {
  }

  /** The tokens of class `c` in `ts`, in order. */
  function Select<V>(c: Class, ts: seq<Token<V>>): (r: seq<Token<V>>)
    ensures |r| <= |ts|
    decreases |ts|
  {
    if ts == [] then []
    else Select(c, ts[..|ts| - 1]) + (if InClass(c, ts[|ts| - 1]) then [ts[|ts| - 1]] else [])
  }

  lemma {:induction false} SelectAppend<V>(c: Class, a: seq<Token<V>>, b: seq<Token<V>>)
    ensures Select(c, a + b) == Select(c, a) + Select(c, b)
    decreases |b|
  {
    if b == [] {
      assert a + b == a;
    } else {
      assert (a + b)[..|a + b| - 1] == a + b[..|b| - 1];
      SelectAppend(c, a, b[..|b| - 1]);
    }
  }

  /** The tokens of class `c` in `ts`, as a multiset. */
  ghost function Bag<V>(c: Class, ts: seq<Token<V>>): multiset<Token<V>>
    decreases |ts|
  {
    if ts == [] then multiset{}
    else Bag(c, ts[..|ts| - 1]) + (if InClass(c, ts[|ts| - 1]) then multiset{ts[|ts| - 1]} else multiset{})
  }

  lemma {:induction false} BagOfSelect<V>(c: Class, ts: seq<Token<V>>)
    ensures Bag(c, ts) == multiset(Select(c, ts))
    decreases |ts|
  {
    if ts != [] {
      BagOfSelect(c, ts[..|ts| - 1]);
    }
  }

  lemma {:induction false} BagSnoc<V>(c: Class, s: seq<Token<V>>, x: Token<V>)
    ensures Bag(c, s + [x]) == Bag(c, s) + (if InClass(c, x) then multiset{x} else multiset{})
  {
    assert (s + [x])[..|s|] == s;
  }

  /** Nesting depth after `ts`: '(' opens, ')' closes. */
  function Depth<V>(ts: seq<Token<V>>): int
    decreases |ts|
  {
    if ts == [] then 0
    else
      var t := ts[|ts| - 1];
      Depth(ts[..|ts| - 1]) + (if t.LeftParenToken? then 1 else if t.RightParenToken? then -1 else 0)
  }

  /** No prefix of `ts` closes more parentheses than it opened. */
  predicate NeverBelowZero<V>(ts: seq<Token<V>>) {
    forall k :: 0 <= k <= |ts| ==> Depth(ts[..k]) >= 0
  }

  /** Parentheses of `ts` match: never more ')' than '(' so far, and as many of each overall. */
  predicate Balanced<V>(ts: seq<Token<V>>) {
    NeverBelowZero(ts) && Depth(ts) == 0
  }

  /** What may stand in the queue: operands, operators and functions. */
  predicate Queued<V>(t: Token<V>) {
    InClass(Operands, t) || InClass(Operations, t)
  }

  /** What may stand on the operator stack: operators, functions and '('. */
  predicate Stacked<V>(t: Token<V>) {
    InClass(Operations, t) || InClass(LeftParens, t)
  }

  /** Every entry of `st` is an operation or a '('. */
  predicate AllStacked<V>(st: seq<Token<V>>)
    decreases |st|
  {
    st != [] ==> AllStacked(st[..|st| - 1]) && Stacked(st[|st| - 1])
  }

  /** Every entry of `q` is an operand or an operation. */
  predicate AllQueued<V>(q: seq<Token<V>>)
    decreases |q|
  {
    q != [] ==> AllQueued(q[..|q| - 1]) && Queued(q[|q| - 1])
  }

  lemma {:induction false} AllQueuedSnoc<V>(q: seq<Token<V>>, t: Token<V>)
    ensures AllQueued(q + [t]) <==> AllQueued(q) && Queued(t)
  {
    assert (q + [t])[..|q|] == q;
  }

  lemma {:induction false} AllStackedSnoc<V>(st: seq<Token<V>>, t: Token<V>)
    ensures AllStacked(st + [t]) <==> AllStacked(st) && Stacked(t)
  {
    assert (st + [t])[..|st|] == st;
  }

  /** The shape of the queue and the stack. */
  predicate Shaped<V>(q: seq<Token<V>>, st: seq<Token<V>>) {
    AllQueued(q) && AllStacked(st)
  }

  /** The counting form of `AllQueued` says it of each entry. */
  lemma {:induction false} AllQueuedEach<V>(q: seq<Token<V>>)
    requires AllQueued(q)
    ensures forall k :: 0 <= k < |q| ==> Queued(q[k])
    decreases |q|
  {
    if q != [] {
      var q' := q[..|q| - 1];
      AllQueuedEach(q');
      assert forall k :: 0 <= k < |q'| ==> q[k] == q'[k];
    }
  }

  lemma {:induction false} SelectSnoc<V>(c: Class, s: seq<Token<V>>, x: Token<V>)
    ensures Select(c, s + [x]) == Select(c, s) + (if InClass(c, x) then [x] else [])
  {
    assert (s + [x])[..|s|] == s;
  }

  /** None of the popping loops moves a '(' off the stack. */
  lemma PopsOnlyOperations<V>(rule: PopRule<V>, x: Token<V>)
    requires Stacked(x) && Pops(rule, x)
    ensures InClass(Operations, x)
  {
  }

  /** The popping loops keep the shape. */
  lemma {:induction false} PopWhileKeepsShape<V>(q: seq<Token<V>>, st: seq<Token<V>>, rule: PopRule<V>)
    requires Shaped(q, st)
    ensures var r := PopWhile(q, st, rule); Shaped(r.0, r.1)
    decreases |st|
  {
    if st != [] && Pops(rule, st[|st| - 1]) {
      PopsOnlyOperations(rule, st[|st| - 1]);
      AllQueuedSnoc(q, st[|st| - 1]);
      PopWhileKeepsShape(q + [st[|st| - 1]], st[..|st| - 1], rule);
    }
  }

  /** The popping loops move no operand, so the operands of the queue stay as they are. */
  lemma {:induction false} PopWhileKeepsOperands<V>(q: seq<Token<V>>, st: seq<Token<V>>, rule: PopRule<V>)
    requires AllStacked(st)
    ensures Select(Operands, PopWhile(q, st, rule).0) == Select(Operands, q)
    decreases |st|
  {
    if st != [] && Pops(rule, st[|st| - 1]) {
      var x, rest := st[|st| - 1], st[..|st| - 1];
      assert Stacked(x) && AllStacked(rest);
      assert !InClass(Operands, x);
      SelectSnoc(Operands, q, x);
      PopWhileKeepsOperands(q + [x], rest, rule);
      assert PopWhile(q, st, rule) == PopWhile(q + [x], rest, rule);
    }
  }

  /** The popping loops move operations from the stack to the queue, so queue and stack together keep theirs. */
  lemma {:induction false} PopWhileKeepsOperations<V>(q: seq<Token<V>>, st: seq<Token<V>>, rule: PopRule<V>)
    requires AllStacked(st)
    ensures var r := PopWhile(q, st, rule);
            Bag(Operations, r.0) + Bag(Operations, r.1)
            == Bag(Operations, q) + Bag(Operations, st)
    decreases |st|
  {
    if st != [] && Pops(rule, st[|st| - 1]) {
      PopsOnlyOperations(rule, st[|st| - 1]);
      BagSnoc(Operations, q, st[|st| - 1]);
      PopWhileKeepsOperations(q + [st[|st| - 1]], st[..|st| - 1], rule);
    }
  }

  /** The popping loops leave every '(' on the stack. */
  lemma {:induction false} PopWhileKeepsLeftParens<V>(q: seq<Token<V>>, st: seq<Token<V>>, rule: PopRule<V>)
    requires AllStacked(st)
    ensures |Select(LeftParens, PopWhile(q, st, rule).1)| == |Select(LeftParens, st)|
    decreases |st|
  {
    if st != [] && Pops(rule, st[|st| - 1]) {
      PopsOnlyOperations(rule, st[|st| - 1]);
      PopWhileKeepsLeftParens(q + [st[|st| - 1]], st[..|st| - 1], rule);
    }
  }

  /** The invariant of the `for` loop of `parse`, stated for the tokens `ts` seen so far. */
  ghost predicate ShuntInvariant<V>(ts: seq<Token<V>>, y: Yard<V>) {
    && Shaped(y.queue, y.stack)
    && Select(Operands, y.queue) == Select(Operands, ts)
    && Bag(Operations, y.queue) + Bag(Operations, y.stack) == Bag(Operations, ts)
    && |Select(LeftParens, y.stack)| == Depth(ts)
  }

  /** The stack holds a '(' exactly when a ')' finds one. */
  lemma {:induction false} LeftParenFound<V>(q: seq<Token<V>>, st: seq<Token<V>>)
    ensures var r := PopWhile(q, st, UntilLeftParen);
            && (r.1 == [] <==> |Select(LeftParens, st)| == 0)
            && (r.1 != [] ==> |Select(LeftParens, r.1[..|r.1| - 1])| == |Select(LeftParens, st)| - 1)
    decreases |st|
  {
    if st != [] {
      if !st[|st| - 1].LeftParenToken? {
        LeftParenFound(q + [st[|st| - 1]], st[..|st| - 1]);
      }
    }
  }

  lemma {:induction false} DepthSnoc<V>(ts: seq<Token<V>>, t: Token<V>)
    ensures Depth(ts + [t]) == Depth(ts) + (if t.LeftParenToken? then 1 else if t.RightParenToken? then -1 else 0)
  {
    assert (ts + [t])[..|ts|] == ts;
  }

  // Each clause of the invariant, for each branch of `parse`, is proved on its own.

  lemma {:induction false} ShiftKeepsShape<V>(y: Yard<V>, t: Token<V>)
    requires Shaped(y.queue, y.stack) && InClass(Operands, t)
    ensures Shaped(Shift(y, t).queue, Shift(y, t).stack)
  {
    AllQueuedSnoc(y.queue, t);
  }

  lemma {:induction false} ShiftKeepsOperands<V>(ts: seq<Token<V>>, y: Yard<V>, t: Token<V>)
    requires Select(Operands, y.queue) == Select(Operands, ts) && InClass(Operands, t)
    ensures Select(Operands, Shift(y, t).queue) == Select(Operands, ts + [t])
  {
    SelectSnoc(Operands, ts, t);
    SelectSnoc(Operands, y.queue, t);
  }

  lemma {:induction false} ShiftKeepsOperations<V>(ts: seq<Token<V>>, y: Yard<V>, t: Token<V>)
    requires Bag(Operations, y.queue) + Bag(Operations, y.stack) == Bag(Operations, ts) && !InClass(Operations, t)
    ensures Bag(Operations, Shift(y, t).queue) + Bag(Operations, Shift(y, t).stack) == Bag(Operations, ts + [t])
  {
    BagSnoc(Operations, ts, t);
    BagSnoc(Operations, y.queue, t);
  }

  lemma {:induction false} ShiftTracksDepth<V>(ts: seq<Token<V>>, y: Yard<V>, t: Token<V>)
    requires |Select(LeftParens, y.stack)| == Depth(ts) && !t.LeftParenToken? && !t.RightParenToken?
    ensures |Select(LeftParens, Shift(y, t).stack)| == Depth(ts + [t])
  {
    DepthSnoc(ts, t);
  }

  lemma {:induction false} OpenKeepsShape<V>(y: Yard<V>, t: Token<V>)
    requires Shaped(y.queue, y.stack) && Stacked(t)
    ensures Shaped(Open(y, t).queue, Open(y, t).stack)
  {
    AllStackedSnoc(y.stack, t);
  }

  lemma {:induction false} OpenKeepsOperands<V>(ts: seq<Token<V>>, y: Yard<V>, t: Token<V>)
    requires Select(Operands, y.queue) == Select(Operands, ts) && !InClass(Operands, t)
    ensures Select(Operands, Open(y, t).queue) == Select(Operands, ts + [t])
  {
    SelectSnoc(Operands, ts, t);
  }

  lemma {:induction false} OpenKeepsOperations<V>(ts: seq<Token<V>>, y: Yard<V>, t: Token<V>)
    requires Bag(Operations, y.queue) + Bag(Operations, y.stack) == Bag(Operations, ts)
    ensures Bag(Operations, Open(y, t).queue) + Bag(Operations, Open(y, t).stack) == Bag(Operations, ts + [t])
  {
    BagSnoc(Operations, ts, t);
    BagSnoc(Operations, y.stack, t);
  }

  lemma {:induction false} OpenTracksDepth<V>(ts: seq<Token<V>>, y: Yard<V>, t: Token<V>)
    requires |Select(LeftParens, y.stack)| == Depth(ts) && !t.RightParenToken?
    ensures |Select(LeftParens, Open(y, t).stack)| == Depth(ts + [t])
  {
    DepthSnoc(ts, t);
    SelectSnoc(LeftParens, y.stack, t);
  }

  lemma {:induction false} ReduceKeepsShape<V>(y: Yard<V>, t: Token<V>)
    requires Shaped(y.queue, y.stack) && Stacked(t)
    ensures Shaped(Reduce(y, t).queue, Reduce(y, t).stack)
  {
    PopWhileKeepsShape(y.queue, y.stack, Before(t));
    AllStackedSnoc(PopWhile(y.queue, y.stack, Before(t)).1, t);
  }

  lemma {:induction false} ReduceKeepsOperands<V>(ts: seq<Token<V>>, y: Yard<V>, t: Token<V>)
    requires AllStacked(y.stack) && Select(Operands, y.queue) == Select(Operands, ts) && !InClass(Operands, t)
    ensures Select(Operands, Reduce(y, t).queue) == Select(Operands, ts + [t])
  {
    SelectSnoc(Operands, ts, t);
    PopWhileKeepsOperands(y.queue, y.stack, Before(t));
  }

  lemma {:induction false} ReduceKeepsOperations<V>(ts: seq<Token<V>>, y: Yard<V>, t: Token<V>)
    requires AllStacked(y.stack) && Bag(Operations, y.queue) + Bag(Operations, y.stack) == Bag(Operations, ts)
    ensures Bag(Operations, Reduce(y, t).queue) + Bag(Operations, Reduce(y, t).stack) == Bag(Operations, ts + [t])
  {
    BagSnoc(Operations, ts, t);
    PopWhileKeepsOperations(y.queue, y.stack, Before(t));
    BagSnoc(Operations, PopWhile(y.queue, y.stack, Before(t)).1, t);
  }

  lemma {:induction false} ReduceTracksDepth<V>(ts: seq<Token<V>>, y: Yard<V>, t: Token<V>)
    requires AllStacked(y.stack) && |Select(LeftParens, y.stack)| == Depth(ts) && !t.LeftParenToken? && !t.RightParenToken?
    ensures |Select(LeftParens, PopWhile(y.queue, y.stack, Before(t)).1 + [t])| == Depth(ts + [t])
  {
    DepthSnoc(ts, t);
    PopWhileKeepsLeftParens(y.queue, y.stack, Before(t));
    SelectSnoc(LeftParens, PopWhile(y.queue, y.stack, Before(t)).1, t);
  }

  lemma {:induction false} CloseKeepsShape<V>(y: Yard<V>)
    requires Shaped(y.queue, y.stack)
    ensures Shaped(Close(y).queue, Close(y).stack)
  {
    PopWhileKeepsShape(y.queue, y.stack, UntilLeftParen);
  }

  lemma {:induction false} CloseKeepsOperands<V>(ts: seq<Token<V>>, y: Yard<V>, t: Token<V>)
    requires AllStacked(y.stack) && Select(Operands, y.queue) == Select(Operands, ts) && !InClass(Operands, t)
    ensures Select(Operands, Close(y).queue) == Select(Operands, ts + [t])
  {
    SelectSnoc(Operands, ts, t);
    PopWhileKeepsOperands(y.queue, y.stack, UntilLeftParen);
  }

  lemma {:induction false} CloseKeepsOperations<V>(ts: seq<Token<V>>, y: Yard<V>, t: Token<V>)
    requires AllStacked(y.stack) && Bag(Operations, y.queue) + Bag(Operations, y.stack) == Bag(Operations, ts) && !InClass(Operations, t)
    ensures Bag(Operations, Close(y).queue) + Bag(Operations, Close(y).stack) == Bag(Operations, ts + [t])
  {
    BagSnoc(Operations, ts, t);
    PopWhileKeepsOperations(y.queue, y.stack, UntilLeftParen);
    var st := PopWhile(y.queue, y.stack, UntilLeftParen).1;
    if st != [] {
      PopWhileStops(y.queue, y.stack, UntilLeftParen);
      DropLeftParen(st);
    }
  }

  /** Dropping a '(' off the top leaves the operations of the stack as they are. */
  lemma DropLeftParen<V>(st: seq<Token<V>>)
    requires st != [] && st[|st| - 1].LeftParenToken?
    ensures Bag(Operations, st[..|st| - 1]) == Bag(Operations, st)
  {
  }

  lemma {:induction false} CloseTracksDepth<V>(ts: seq<Token<V>>, y: Yard<V>, t: Token<V>)
    requires |Select(LeftParens, y.stack)| == Depth(ts) >= 0 && t.RightParenToken?
    ensures Close(y).error.None? <==> Depth(ts + [t]) >= 0
    ensures Close(y).error.None? ==> |Select(LeftParens, Close(y).stack)| == Depth(ts + [t])
  {
    DepthSnoc(ts, t);
    LeftParenFound(y.queue, y.stack);
  }

  lemma {:induction false} ShiftKeepsInvariant<V>(ts: seq<Token<V>>, y: Yard<V>, t: Token<V>)
    requires ShuntInvariant(ts, y) && InClass(Operands, t)
    ensures ShuntInvariant(ts + [t], Shift(y, t))
  {
    ShiftKeepsShape(y, t);
    ShiftKeepsOperands(ts, y, t);
    ShiftKeepsOperations(ts, y, t);
    ShiftTracksDepth(ts, y, t);
  }

  lemma {:induction false} OpenKeepsInvariant<V>(ts: seq<Token<V>>, y: Yard<V>, t: Token<V>)
    requires ShuntInvariant(ts, y) && Stacked(t)
    ensures ShuntInvariant(ts + [t], Open(y, t))
  {
    OpenKeepsShape(y, t);
    OpenKeepsOperands(ts, y, t);
    OpenKeepsOperations(ts, y, t);
    OpenTracksDepth(ts, y, t);
  }

  lemma {:induction false} ReduceKeepsInvariant<V>(ts: seq<Token<V>>, y: Yard<V>, t: Token<V>)
    requires ShuntInvariant(ts, y) && IsOperator(t)
    ensures ShuntInvariant(ts + [t], Reduce(y, t))
  {
    ReduceKeepsShape(y, t);
    ReduceKeepsOperands(ts, y, t);
    ReduceKeepsOperations(ts, y, t);
    ReduceTracksDepth(ts, y, t);
  }

  lemma {:induction false} CloseKeepsInvariant<V>(ts: seq<Token<V>>, y: Yard<V>, t: Token<V>)
    requires ShuntInvariant(ts, y) && Depth(ts) >= 0 && t.RightParenToken?
    ensures Close(y).error.None? <==> Depth(ts + [t]) >= 0
    ensures Close(y).error.None? ==> ShuntInvariant(ts + [t], Close(y))
  {
    CloseKeepsShape(y);
    CloseKeepsOperands(ts, y, t);
    CloseKeepsOperations(ts, y, t);
    CloseTracksDepth(ts, y, t);
  }

  lemma {:induction false} SkipKeepsInvariant<V>(ts: seq<Token<V>>, y: Yard<V>, t: Token<V>)
    requires ShuntInvariant(ts, y) && t.DelimiterToken?
    ensures ShuntInvariant(ts + [t], y)
  {
    SelectSnoc(Operands, ts, t);
    BagSnoc(Operations, ts, t);
    DepthSnoc(ts, t);
  }

  // `Feed` takes the branch of `parse` that the kind of the token selects.

  lemma {:induction false} FeedShifts<V>(ts: seq<Token<V>>, y: Yard<V>, t: Token<V>)
    requires y.error.None? && ShuntInvariant(ts, y) && InClass(Operands, t)
    ensures ShuntInvariant(ts + [t], Feed(y, t))
  {
    ShiftKeepsInvariant(ts, y, t);
  }

  lemma {:induction false} FeedOpensParen<V>(ts: seq<Token<V>>, y: Yard<V>, t: Token<V>)
    requires y.error.None? && ShuntInvariant(ts, y) && t.LeftParenToken?
    ensures ShuntInvariant(ts + [t], Feed(y, t))
  {
    OpenKeepsInvariant(ts, y, t);
  }

  lemma {:induction false} FeedOpensFunction<V>(ts: seq<Token<V>>, y: Yard<V>, t: Token<V>)
    requires y.error.None? && ShuntInvariant(ts, y) && (t.SinToken? || t.PowToken?)
    ensures ShuntInvariant(ts + [t], Feed(y, t))
  {
    OpenKeepsInvariant(ts, y, t);
  }

  lemma {:induction false} FeedReduces<V>(ts: seq<Token<V>>, y: Yard<V>, t: Token<V>)
    requires y.error.None? && ShuntInvariant(ts, y) && IsOperator(t)
    ensures ShuntInvariant(ts + [t], Feed(y, t))
  {
    ReduceKeepsInvariant(ts, y, t);
  }

  lemma {:induction false} FeedCloses<V>(ts: seq<Token<V>>, y: Yard<V>, t: Token<V>)
    requires y.error.None? && ShuntInvariant(ts, y) && Depth(ts) >= 0 && t.RightParenToken?
    ensures Feed(y, t).error.None? <==> Depth(ts + [t]) >= 0
    ensures Feed(y, t).error.None? ==> ShuntInvariant(ts + [t], Feed(y, t))
  {
    CloseKeepsInvariant(ts, y, t);
  }

  lemma {:induction false} FeedSkips<V>(ts: seq<Token<V>>, y: Yard<V>, t: Token<V>)
    requires y.error.None? && ShuntInvariant(ts, y) && t.DelimiterToken?
    ensures ShuntInvariant(ts + [t], Feed(y, t))
  {
    SkipKeepsInvariant(ts, y, t);
  }

  /** `Feed` keeps the invariant and fails exactly on a ')' at depth zero. */
  lemma {:induction false} FeedKeepsInvariant<V>(ts: seq<Token<V>>, y: Yard<V>, t: Token<V>)
    requires y.error.None? && ShuntInvariant(ts, y) && Depth(ts) >= 0
    ensures Feed(y, t).error.None? <==> Depth(ts + [t]) >= 0
    ensures Feed(y, t).error.None? ==> ShuntInvariant(ts + [t], Feed(y, t))
  {
    DepthSnoc(ts, t);
    if InClass(Operands, t) {
      FeedShifts(ts, y, t);
    } else if t.LeftParenToken? {
      FeedOpensParen(ts, y, t);
    } else if t.SinToken? || t.PowToken? {
      FeedOpensFunction(ts, y, t);
    } else if IsOperator(t) {
      FeedReduces(ts, y, t);
    } else if t.RightParenToken? {
      FeedCloses(ts, y, t);
    } else {
      FeedSkips(ts, y, t);
    }
  }

  lemma {:induction false} ShuntSnoc<V>(ts: seq<Token<V>>, t: Token<V>)
    ensures Shunt(ts + [t]) == if Shunt(ts).error.Some? then Shunt(ts) else Feed(Shunt(ts), t)
  {
    assert (ts + [t])[..|ts|] == ts;
  }

  lemma {:induction false} NeverBelowZeroDepth<V>(ts: seq<Token<V>>)
    requires NeverBelowZero(ts)
    ensures Depth(ts) >= 0
  {
    assert ts[..|ts|] == ts;
  }

  lemma {:induction false} NeverBelowZeroSnoc<V>(ts: seq<Token<V>>, t: Token<V>)
    ensures NeverBelowZero(ts + [t]) <==> NeverBelowZero(ts) && Depth(ts + [t]) >= 0
  {
    var s := ts + [t];
    assert forall k :: 0 <= k <= |ts| ==> s[..k] == ts[..k];
    assert s[..|s|] == s;
  }

  /** Once the `for` loop of `parse` has thrown, the remaining tokens change nothing. */
  lemma {:induction false} ShuntStopsAtError<V>(ts: seq<Token<V>>, k: nat)
    requires k <= |ts| && Shunt(ts[..k]).error.Some?
    ensures Shunt(ts) == Shunt(ts[..k])
    decreases |ts| - k
  {
    if k < |ts| {
      var init := ts[..|ts| - 1];
      assert init[..k] == ts[..k];
      ShuntStopsAtError(init, k);
    } else {
      assert ts[..k] == ts;
    }
  }

  /** A failing `parse` fails on a parenthesis mismatch, never on anything else. */
  lemma {:induction false} ShuntFailsOnParens<V>(ts: seq<Token<V>>)
    ensures Shunt(ts).error.Some? ==> Shunt(ts).error == Some(MismatchedParentheses)
    decreases |ts|
  {
    if ts != [] {
      ShuntFailsOnParens(ts[..|ts| - 1]);
    }
  }

  /** The `for` loop of `parse` keeps its invariant and fails exactly when some prefix closes an unopened parenthesis. */
  lemma {:induction false} ShuntSpec<V>(ts: seq<Token<V>>)
    ensures Shunt(ts).error.None? <==> NeverBelowZero(ts)
    ensures Shunt(ts).error.None? ==> ShuntInvariant(ts, Shunt(ts))
    decreases |ts|
  {
    if ts == [] {
      assert ts[..0] == ts;
    } else {
      var init, t := ts[..|ts| - 1], ts[|ts| - 1];
      assert ts == init + [t];
      ShuntSpec(init);
      ShuntSnoc(init, t);
      NeverBelowZeroSnoc(init, t);
      if Shunt(init).error.None? {
        NeverBelowZeroDepth(init);
        FeedKeepsInvariant(init, Shunt(init), t);
      }
    }
  }

  /**
   * `parse` succeeds exactly on balanced parentheses, and every failure is a
   * parenthesis mismatch. On success the program holds no parenthesis and no
   * comma, its numbers and variables are those of the input in input order,
   * and its operators and functions are those of the input, each once.
   */
  lemma {:induction false} CompileSpec<V>(ts: seq<Token<V>>)
    ensures var y := Compile(ts);
            && (y.error.None? <==> Balanced(ts))
            && (y.error.Some? ==> y.error == Some(MismatchedParentheses))
            && (y.error.None? ==>
                  && y.stack == []
                  && (forall k :: 0 <= k < |y.queue| ==> Queued(y.queue[k]))
                  && Select(Operands, y.queue) == Select(Operands, ts)
                  && multiset(Select(Operations, y.queue)) == multiset(Select(Operations, ts)))
  {
    ShuntSpec(ts);
    ShuntFailsOnParens(ts);
    var y := Shunt(ts);
    if y.error.None? {
      PopWhileKeepsShape(y.queue, y.stack, UntilParen);
      PopWhileKeepsOperands(y.queue, y.stack, UntilParen);
      PopWhileKeepsOperations(y.queue, y.stack, UntilParen);
      FlushFindsLeftParen(y.queue, y.stack);
      var r := PopWhile(y.queue, y.stack, UntilParen);
      AllQueuedEach(r.0);
      BagOfSelect(Operations, r.0);
      BagOfSelect(Operations, ts);
    }
  }

  /** The final flush stops early exactly when a '(' is left on the stack. */
  lemma {:induction false} FlushFindsLeftParen<V>(q: seq<Token<V>>, st: seq<Token<V>>)
    requires AllStacked(st)
    ensures PopWhile(q, st, UntilParen).1 == [] <==> |Select(LeftParens, st)| == 0
    decreases |st|
  {
    if st != [] {
      if !st[|st| - 1].LeftParenToken? {
        FlushFindsLeftParen(q + [st[|st| - 1]], st[..|st| - 1]);
      }
    }
  }
}
