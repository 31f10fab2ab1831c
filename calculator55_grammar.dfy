/**
 * What the recursive descent of the 5-5 calculator computes, stated against
 * expression trees: printing a tree in the calculator's syntax (parentheses
 * only where precedence needs them) and evaluating the printed tokens gives
 * the tree's value. This is the precedence of `*` and `/` over `+` and `-`,
 * and the left-associative folding of both levels.
 */
module Calculator55Grammar {
  import opened Wrappers
  import opened Slots
  import opened Calculator55

  datatype Op = Add | Sub | Mul | Div

  datatype Expr = Num(value: real) | Ref(name: string) | Bin(op: Op, left: Expr, right: Expr)

  predicate IsAdditive(e: Expr)
  {
    e.Bin? && (e.op == Add || e.op == Sub)
  }

  predicate IsMultiplicative(e: Expr)
  {
    e.Bin? && (e.op == Mul || e.op == Div)
  }

  /** The value of an expression over the memory slots; None once it divides by zero. */
  function Value(e: Expr, slots: map<string, real>): Float
  {
    match e
    case Num(v) => Some(v)
    case Ref(name) => Some(Lookup(slots, name))
    case Bin(op, l, r) => Combine(op, Value(l, slots), Value(r, slots))
  }

  /** The evaluator's arithmetic for each operator. */
  function Combine(op: Op, a: Float, b: Float): Float
  {
    match op
    case Add => Sum(a, b)
    case Sub => Difference(a, b)
    case Mul => Product(a, b)
    case Div => Quotient(a, b)
  }

  function OpToken(op: Op): Token
  {
    match op
    case Add => Plus
    case Sub => Minus
    case Mul => Asterisk
    case Div => Slash
  }

  /** Printing at the additive level: a left-nested chain of `+` / `-`. */
  function PrintAdditive(e: Expr): seq<Token>
    decreases e, if IsAdditive(e) then 0 else if IsMultiplicative(e) then 1 else 2
  {
    if IsAdditive(e) then PrintAdditive(e.left) + [OpToken(e.op)] + PrintMultiplicative(e.right)
    else PrintMultiplicative(e)
  }

  /** Printing at the multiplicative level: a left-nested chain of `*` / `/`. */
  function PrintMultiplicative(e: Expr): seq<Token>
    decreases e, if IsAdditive(e) then 2 else if IsMultiplicative(e) then 0 else 1
  {
    if IsMultiplicative(e) then PrintMultiplicative(e.left) + [OpToken(e.op)] + PrintPrimary(e.right)
    else PrintPrimary(e)
  }

  /** Printing a primary: an atom, or a parenthesised expression. */
  function PrintPrimary(e: Expr): seq<Token>
    decreases e, if IsAdditive(e) then 1 else if IsMultiplicative(e) then 2 else 0
  {
    match e
    case Num(v) => [Number(v)]
    case Ref(name) => [MemoryRef(name)]
    case Bin(_, _, _) => [LParen] + PrintAdditive(e) + [RParen]
  }

  /** `p` occurs in `tokens` at position `i`. */
  predicate At(tokens: seq<Token>, i: nat, p: seq<Token>)
  {
    i + |p| <= |tokens| && tokens[i..i + |p|] == p
  }

  /** The token at `k`, if any, is not `*` or `/`. */
  predicate NoMultiplicativeAt(tokens: seq<Token>, k: nat)
  {
    k >= |tokens| || !(tokens[k].Asterisk? || tokens[k].Slash?)
  }

  /** The token at `k`, if any, is none of the four operators. */
  predicate NoOperatorAt(tokens: seq<Token>, k: nat)
  {
    k >= |tokens| || !(tokens[k].Asterisk? || tokens[k].Slash? || tokens[k].Plus? || tokens[k].Minus?)
  }

  lemma AtParts(tokens: seq<Token>, i: nat, a: seq<Token>, t: Token, b: seq<Token>)
    requires At(tokens, i, a + [t] + b)
    ensures At(tokens, i, a) && tokens[i + |a|] == t && At(tokens, i + |a| + 1, b)
  {
    var p := a + [t] + b;
    assert tokens[i..i + |a|] == tokens[i..i + |p|][..|a|];
    assert tokens[i + |a|] == tokens[i..i + |p|][|a|];
    assert tokens[i + |a| + 1..i + |p|] == tokens[i..i + |p|][|a| + 1..];
  }

  lemma AtSingle(tokens: seq<Token>, i: nat, t: Token)
    requires At(tokens, i, [t])
    ensures tokens[i] == t
  {
    assert tokens[i] == tokens[i..i + 1][0];
  }

  lemma {:induction false} PrimaryOfPrinted(e: Expr, tokens: seq<Token>, i: nat, slots: map<string, real>)
    requires At(tokens, i, PrintPrimary(e))
    ensures Primary(tokens, i, slots) == Ok(Value(e, slots), i + |PrintPrimary(e)|)
    decreases e, if IsAdditive(e) then 3 else if IsMultiplicative(e) then 5 else 0
  {
    match e
    case Num(v) =>
      AtSingle(tokens, i, Number(v));
    case Ref(name) =>
      AtSingle(tokens, i, MemoryRef(name));
    case Bin(_, _, _) =>
      var p := PrintAdditive(e);
      ParenthesisedAt(tokens, i, p);
      AdditiveOfPrinted(e, tokens, i + 1, slots);
      ParenthesisedPrimary(tokens, i, p, slots, Value(e, slots));
  }

  /** A parenthesised part: `(`, then `p`, then `)`, which is not an operator. */
  lemma ParenthesisedAt(tokens: seq<Token>, i: nat, p: seq<Token>)
    requires At(tokens, i, [LParen] + p + [RParen])
    ensures tokens[i] == LParen && At(tokens, i + 1, p) && tokens[i + 1 + |p|] == RParen
    ensures NoOperatorAt(tokens, i + 1 + |p|)
  {
    assert [LParen] + p + [RParen] == [] + [LParen] + (p + [RParen]);
    AtParts(tokens, i, [], LParen, p + [RParen]);
    assert p + [RParen] == p + [RParen] + [];
    AtParts(tokens, i + 1, p, RParen, []);
  }

  /** A primary that opens a parenthesis reads an additive expression up to the closing one. */
  lemma ParenthesisedPrimary(tokens: seq<Token>, i: nat, p: seq<Token>, slots: map<string, real>, v: Float)
    requires i + |p| + 2 <= |tokens|
    requires tokens[i] == LParen && tokens[i + 1 + |p|] == RParen
    requires Additive(tokens, i + 1, slots) == Ok(v, i + 1 + |p|)
    ensures Primary(tokens, i, slots) == Ok(v, i + |p| + 2)
  {
  }

  /** One more `+` / `-` operand appended to an additive chain. */
  lemma AdditiveCompose(tokens: seq<Token>, i: nat, k: nat, next: nat, slots: map<string, real>,
                        op: Op, a: Float, b: Float)
    requires i <= k < next <= |tokens|
    requires op == Add || op == Sub
    requires tokens[k] == OpToken(op)
    requires Additive(tokens, i, slots) == AdditiveTail(tokens, a, k, slots)
    requires Multiplicative(tokens, k + 1, slots) == Ok(b, next)
    ensures Additive(tokens, i, slots) == AdditiveTail(tokens, Combine(op, a, b), next, slots)
  {
  }

  /** One more `*` / `/` operand appended to a multiplicative chain. */
  lemma MultiplicativeCompose(tokens: seq<Token>, i: nat, k: nat, next: nat, slots: map<string, real>,
                              op: Op, a: Float, b: Float)
    requires i <= k < next <= |tokens|
    requires op == Mul || op == Div
    requires tokens[k] == OpToken(op)
    requires Multiplicative(tokens, i, slots) == MultiplicativeTail(tokens, a, k, slots)
    requires Primary(tokens, k + 1, slots) == Ok(b, next)
    ensures Multiplicative(tokens, i, slots) == MultiplicativeTail(tokens, Combine(op, a, b), next, slots)
  {
  }

  /** The first operand of an additive chain, after which the additive loop starts. */
  lemma AdditiveStart(tokens: seq<Token>, i: nat, next: nat, slots: map<string, real>, v: Float)
    requires i < next <= |tokens|
    requires Multiplicative(tokens, i, slots) == Ok(v, next)
    ensures Additive(tokens, i, slots) == AdditiveTail(tokens, v, next, slots)
  {
  }

  /** The first operand of a multiplicative chain, after which the multiplicative loop starts. */
  lemma MultiplicativeStart(tokens: seq<Token>, i: nat, next: nat, slots: map<string, real>, v: Float)
    requires i < next <= |tokens|
    requires Primary(tokens, i, slots) == Ok(v, next)
    ensures Multiplicative(tokens, i, slots) == MultiplicativeTail(tokens, v, next, slots)
  {
  }

  /** The additive chain is read up to its end, where the additive loop carries on. */
  lemma {:induction false} AdditiveSpine(e: Expr, tokens: seq<Token>, i: nat, slots: map<string, real>)
    requires At(tokens, i, PrintAdditive(e))
    requires NoMultiplicativeAt(tokens, i + |PrintAdditive(e)|)
    ensures Additive(tokens, i, slots) == AdditiveTail(tokens, Value(e, slots), i + |PrintAdditive(e)|, slots)
    decreases e, if IsAdditive(e) then 1 else 3
  {
    if IsAdditive(e) {
      AdditiveSpineStep(e, tokens, i, slots);
    } else {
      MultiplicativeOfPrinted(e, tokens, i, slots);
      AdditiveStart(tokens, i, i + |PrintMultiplicative(e)|, slots, Value(e, slots));
    }
  }

  /** `AdditiveSpine` for a `+` / `-` node: its left chain, then one more operand. */
  lemma {:induction false} AdditiveSpineStep(e: Expr, tokens: seq<Token>, i: nat, slots: map<string, real>)
    requires IsAdditive(e)
    requires At(tokens, i, PrintAdditive(e))
    requires NoMultiplicativeAt(tokens, i + |PrintAdditive(e)|)
    ensures Additive(tokens, i, slots) == AdditiveTail(tokens, Value(e, slots), i + |PrintAdditive(e)|, slots)
    decreases e, 0
  {
    var pl, pr := PrintAdditive(e.left), PrintMultiplicative(e.right);
    var k := i + |pl|;
    var end := k + 1 + |pr|;
    assert PrintAdditive(e) == pl + [OpToken(e.op)] + pr;
    AtParts(tokens, i, pl, OpToken(e.op), pr);
    AdditiveSpine(e.left, tokens, i, slots);
    MultiplicativeOfPrinted(e.right, tokens, k + 1, slots);
    AdditiveNode(e, tokens, i, k, end, slots);
  }

  /** `AdditiveCompose` for the two operands of a `+` / `-` node. */
  lemma AdditiveNode(e: Expr, tokens: seq<Token>, i: nat, k: nat, next: nat, slots: map<string, real>)
    requires IsAdditive(e)
    requires i <= k < next <= |tokens| && tokens[k] == OpToken(e.op)
    requires Additive(tokens, i, slots) == AdditiveTail(tokens, Value(e.left, slots), k, slots)
    requires Multiplicative(tokens, k + 1, slots) == Ok(Value(e.right, slots), next)
    ensures Additive(tokens, i, slots) == AdditiveTail(tokens, Value(e, slots), next, slots)
  {
    AdditiveCompose(tokens, i, k, next, slots, e.op, Value(e.left, slots), Value(e.right, slots));
  }

  /** An expression followed by no operator is evaluated to its value at the additive level. */
  lemma {:induction false} AdditiveOfPrinted(e: Expr, tokens: seq<Token>, i: nat, slots: map<string, real>)
    requires At(tokens, i, PrintAdditive(e))
    requires NoOperatorAt(tokens, i + |PrintAdditive(e)|)
    ensures Additive(tokens, i, slots) == Ok(Value(e, slots), i + |PrintAdditive(e)|)
    decreases e, if IsAdditive(e) then 2 else 4
  {
    AdditiveSpine(e, tokens, i, slots);
  }

  /** The multiplicative chain is read up to its end, where the multiplicative loop carries on. */
  lemma {:induction false} MultiplicativeSpine(e: Expr, tokens: seq<Token>, i: nat, slots: map<string, real>)
    requires At(tokens, i, PrintMultiplicative(e))
    ensures Multiplicative(tokens, i, slots) == MultiplicativeTail(tokens, Value(e, slots), i + |PrintMultiplicative(e)|, slots)
    decreases e, if IsAdditive(e) then 4 else 1
  {
    if IsMultiplicative(e) {
      MultiplicativeSpineStep(e, tokens, i, slots);
    } else {
      PrimaryOfPrinted(e, tokens, i, slots);
      MultiplicativeStart(tokens, i, i + |PrintPrimary(e)|, slots, Value(e, slots));
    }
  }

  /** `MultiplicativeSpine` for a `*` / `/` node: its left chain, then one more operand. */
  lemma {:induction false} MultiplicativeSpineStep(e: Expr, tokens: seq<Token>, i: nat, slots: map<string, real>)
    requires IsMultiplicative(e)
    requires At(tokens, i, PrintMultiplicative(e))
    ensures Multiplicative(tokens, i, slots) == MultiplicativeTail(tokens, Value(e, slots), i + |PrintMultiplicative(e)|, slots)
    decreases e, 0
  {
    var pl, pr := PrintMultiplicative(e.left), PrintPrimary(e.right);
    var k := i + |pl|;
    assert PrintMultiplicative(e) == pl + [OpToken(e.op)] + pr;
    AtParts(tokens, i, pl, OpToken(e.op), pr);
    PrimaryOfPrinted(e.right, tokens, k + 1, slots);
    MultiplicativeSpine(e.left, tokens, i, slots);
    MultiplicativeNode(e, tokens, i, k, k + 1 + |pr|, slots);
  }

  /** `MultiplicativeCompose` for the two operands of a `*` / `/` node. */
  lemma MultiplicativeNode(e: Expr, tokens: seq<Token>, i: nat, k: nat, next: nat, slots: map<string, real>)
    requires IsMultiplicative(e)
    requires i <= k < next <= |tokens| && tokens[k] == OpToken(e.op)
    requires Multiplicative(tokens, i, slots) == MultiplicativeTail(tokens, Value(e.left, slots), k, slots)
    requires Primary(tokens, k + 1, slots) == Ok(Value(e.right, slots), next)
    ensures Multiplicative(tokens, i, slots) == MultiplicativeTail(tokens, Value(e, slots), next, slots)
  {
    MultiplicativeCompose(tokens, i, k, next, slots, e.op, Value(e.left, slots), Value(e.right, slots));
  }

  /** A multiplicative-level expression followed by no `*` or `/` is evaluated to its value. */
  lemma {:induction false} MultiplicativeOfPrinted(e: Expr, tokens: seq<Token>, i: nat, slots: map<string, real>)
    requires At(tokens, i, PrintMultiplicative(e))
    requires NoMultiplicativeAt(tokens, i + |PrintMultiplicative(e)|)
    ensures Multiplicative(tokens, i, slots) == Ok(Value(e, slots), i + |PrintMultiplicative(e)|)
    decreases e, if IsAdditive(e) then 5 else 2
  {
    MultiplicativeSpine(e, tokens, i, slots);
  }

  /** Evaluating a printed expression consumes all of it and gives its value. */
  lemma ExpressionOfPrinted(e: Expr, slots: map<string, real>)
    ensures Expression(PrintAdditive(e), slots) == Ok(Value(e, slots), |PrintAdditive(e)|)
  {
    var tokens := PrintAdditive(e);
    assert tokens[0..|tokens|] == tokens;
    AdditiveOfPrinted(e, tokens, 0, slots);
  }

  /** `1 + 2 * 3` is 7: the product is taken first. */
  lemma PrecedenceExample(slots: map<string, real>)
    ensures Expression([Number(1.0), Plus, Number(2.0), Asterisk, Number(3.0)], slots) == Ok(Some(7.0), 5)
  {
    var product := Bin(Mul, Num(2.0), Num(3.0));
    var e := Bin(Add, Num(1.0), product);
    assert PrintMultiplicative(product) == [Number(2.0)] + [Asterisk] + [Number(3.0)] by {
      assert PrintMultiplicative(Num(2.0)) == [Number(2.0)];
    }
    assert PrintAdditive(Num(1.0)) == [Number(1.0)];
    assert PrintAdditive(e) == [Number(1.0)] + [Plus] + PrintMultiplicative(product);
    assert Value(product, slots) == Some(6.0);
    assert Value(e, slots) == Some(7.0);
    ExpressionOfPrinted(e, slots);
  }

  /** `8 - 3 - 2` is 3: subtraction folds from the left. */
  lemma LeftAssociativeExample(slots: map<string, real>)
    ensures Expression([Number(8.0), Minus, Number(3.0), Minus, Number(2.0)], slots) == Ok(Some(3.0), 5)
  {
    var difference := Bin(Sub, Num(8.0), Num(3.0));
    var e := Bin(Sub, difference, Num(2.0));
    assert PrintMultiplicative(Num(3.0)) == [Number(3.0)];
    assert PrintMultiplicative(Num(2.0)) == [Number(2.0)];
    assert PrintAdditive(difference) == [Number(8.0)] + [Minus] + [Number(3.0)] by {
      assert PrintAdditive(Num(8.0)) == [Number(8.0)];
    }
    assert PrintAdditive(e) == PrintAdditive(difference) + [Minus] + [Number(2.0)];
    assert Value(difference, slots) == Some(5.0);
    assert Value(e, slots) == Some(3.0);
    ExpressionOfPrinted(e, slots);
  }

  /** `( 1 + 2 ) * 3` is 9: parentheses override precedence. */
  lemma ParenthesesExample(slots: map<string, real>)
    ensures Expression([LParen, Number(1.0), Plus, Number(2.0), RParen, Asterisk, Number(3.0)], slots) == Ok(Some(9.0), 7)
  {
    var sum := Bin(Add, Num(1.0), Num(2.0));
    var e := Bin(Mul, sum, Num(3.0));
    assert PrintAdditive(sum) == [Number(1.0)] + [Plus] + [Number(2.0)] by {
      assert PrintAdditive(Num(1.0)) == [Number(1.0)];
      assert PrintMultiplicative(Num(2.0)) == [Number(2.0)];
    }
    assert PrintMultiplicative(sum) == [LParen] + PrintAdditive(sum) + [RParen];
    assert PrintMultiplicative(e) == PrintMultiplicative(sum) + [Asterisk] + [Number(3.0)];
    assert PrintAdditive(e) == PrintMultiplicative(e);
    assert Value(sum, slots) == Some(3.0);
    assert Value(e, slots) == Some(9.0);
    assert PrintAdditive(e) == [LParen, Number(1.0), Plus, Number(2.0), RParen, Asterisk, Number(3.0)];
    ExpressionOfPrinted(e, slots);
  }

  /** `1 / 0` is non-finite; followed by a stray `)` or `+`, or inside an unclosed `(`, the line still panics. */
  lemma DivisionByZeroExample(slots: map<string, real>)
    ensures Expression([Number(1.0), Slash, Number(0.0)], slots) == Ok(None, 3)
    ensures Expression([Number(1.0), Slash, Number(0.0), RParen], slots) == Panic
    ensures Expression([Number(1.0), Slash, Number(0.0), Plus], slots) == Panic
    ensures Expression([LParen, Number(1.0), Slash, Number(0.0)], slots) == Panic
  {
    var e := Bin(Div, Num(1.0), Num(0.0));
    var q := [Number(1.0), Slash, Number(0.0)];
    assert PrintMultiplicative(e) == q by {
      assert PrintMultiplicative(Num(1.0)) == [Number(1.0)];
    }
    assert Value(e, slots) == None;
    assert At(q, 0, q);
    MultiplicativeOfPrinted(e, q, 0, slots);
    var closed := q + [RParen];
    assert At(closed, 0, q) by { assert closed[0..3] == q; }
    MultiplicativeOfPrinted(e, closed, 0, slots);
    var plus := q + [Plus];
    assert At(plus, 0, q) by { assert plus[0..3] == q; }
    MultiplicativeOfPrinted(e, plus, 0, slots);
    assert Primary(plus, 4, slots) == Panic;
    var open := [LParen] + q;
    assert At(open, 1, q) by { assert open[1..4] == q; }
    MultiplicativeOfPrinted(e, open, 1, slots);
  }
}
