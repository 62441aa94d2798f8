/**
 * What the precedence climber of src/parser.rs computes on whole symbol lists: precedence,
 * left-associativity, the operand that `next_operator` skips, and the failures.
 */
module ExpressionFacts {
  import opened Wrappers
  import opened Common
  import opened Expressions

  /** An operand followed by an operator: the scan stops at the operator. */
  lemma OperatorAfterOperand(items: seq<SymbolType>, i: nat)
    requires i + 1 < |items| && !items[i].IsOperator() && items[i + 1].IsOperator()
    ensures FirstOperator(items, i) == Some(i + 1)
  {
    assert FirstOperator(items, i + 1) == Some(i + 1);
  }

  /** A successful parse starts and ends on an operand. */
  lemma ParsedListsEndOnOperands(items: seq<SymbolType>, line: nat)
    requires ExpressionOf(items, line).Ok?
    ensures |items| > 0 && IsLeaf(items[0]) && IsLeaf(items[|items| - 1])
  {
    var first := Leaf(items[0], line).value;
    var i := Climb(items, 0, first, LowestPrecedence, line).value.1;
    assert i == |items| - 1;
  }

  /** Without operators only a single operand parses; more symbols are unbalanced. */
  lemma {:induction false} OperandsWithoutOperators(items: seq<SymbolType>, line: nat)
    requires |items| > 0
    requires forall k :: 0 <= k < |items| ==> !items[k].IsOperator()
    ensures |items| == 1 ==> ExpressionOf(items, line) == Leaf(items[0], line)
    ensures |items| > 1 && Leaf(items[0], line).Ok? ==> ExpressionOf(items, line) == Err(UnbalancedExpression(items, line))
  {
    assert FirstOperator(items, 0).None?;
  }

  /** `a op1 b op2 c` where op2 binds tighter: op2 takes `b` as its left operand. */
  lemma TighterOperatorBindsFirst(a: SymbolType, op1: Operator, b: SymbolType, op2: Operator, c: SymbolType, line: nat)
    requires Leaf(a, line).Ok? && Leaf(b, line).Ok? && Leaf(c, line).Ok?
    requires Rank(op1) < Rank(op2)
    ensures ExpressionOf([a, op1, b, op2, c], line) ==
      Ok(Binary(op1, Leaf(a, line).value, Binary(op2, Leaf(b, line).value, Leaf(c, line).value)))
  {
    var items := [a, op1, b, op2, c];
    var A, B, C := Leaf(a, line).value, Leaf(b, line).value, Leaf(c, line).value;
    OperatorAfterOperand(items, 0);
    OperatorAfterOperand(items, 2);
    assert FirstOperator(items, 4) == None;
    var inner := Binary(op2, B, C);
    assert Climb(items, 4, inner, Rank(op2), line) == Ok((inner, 4));
    assert Climb(items, 2, B, Rank(op2), line) == Ok((inner, 4));
    assert Climb(items, 4, Binary(op1, A, inner), LowestPrecedence, line) == Ok((Binary(op1, A, inner), 4));
    assert Fold(items, 4, inner, op1, A, LowestPrecedence, line) == Ok((Binary(op1, A, inner), 4));
    assert Fold(items, 2, B, op1, A, LowestPrecedence, line) == Ok((Binary(op1, A, inner), 4));
  }

  /** `a op1 b op2 c` where op2 binds no tighter: op1 is folded first (left-associative). */
  lemma LooserOperatorFoldsLeft(a: SymbolType, op1: Operator, b: SymbolType, op2: Operator, c: SymbolType, line: nat)
    requires Leaf(a, line).Ok? && Leaf(b, line).Ok? && Leaf(c, line).Ok?
    requires Rank(op1) >= Rank(op2)
    ensures ExpressionOf([a, op1, b, op2, c], line) ==
      Ok(Binary(op2, Binary(op1, Leaf(a, line).value, Leaf(b, line).value), Leaf(c, line).value))
  {
    var items := [a, op1, b, op2, c];
    var A, B, C := Leaf(a, line).value, Leaf(b, line).value, Leaf(c, line).value;
    OperatorAfterOperand(items, 0);
    OperatorAfterOperand(items, 2);
    assert FirstOperator(items, 4) == None;
    var left := Binary(op1, A, B);
    assert Climb(items, 4, Binary(op2, left, C), LowestPrecedence, line) == Ok((Binary(op2, left, C), 4));
    assert Fold(items, 4, C, op2, left, LowestPrecedence, line) == Ok((Binary(op2, left, C), 4));
    assert Climb(items, 2, left, LowestPrecedence, line) == Ok((Binary(op2, left, C), 4));
    assert Fold(items, 2, B, op1, A, LowestPrecedence, line) == Ok((Binary(op2, left, C), 4));
  }

  /**
   * An operand followed by another operand before the operator is skipped by the scan for
   * the next operator: `[a, b, Is, c]` parses as `a is c`.
   */
  lemma SkippedOperand(a: SymbolType, b: SymbolType, c: SymbolType, line: nat)
    requires Leaf(a, line).Ok? && Leaf(c, line).Ok? && !b.IsOperator()
    ensures ExpressionOf([a, b, SymbolType.Is, c], line) ==
      Ok(Binary(SymbolType.Is, Leaf(a, line).value, Leaf(c, line).value))
  {
    var items := [a, b, SymbolType.Is, c];
    OperatorAfterOperand(items, 1);
    assert FirstOperator(items, 0) == Some(2);
    assert FirstOperator(items, 3) == None;
    var e := Binary(SymbolType.Is, Leaf(a, line).value, Leaf(c, line).value);
    assert Climb(items, 3, e, LowestPrecedence, line) == Ok((e, 3));
    assert Fold(items, 3, Leaf(c, line).value, SymbolType.Is, Leaf(a, line).value, LowestPrecedence, line) == Ok((e, 3));
  }

  /** `a op b` is the one binary node. */
  lemma SingleOperator(a: SymbolType, op: Operator, b: SymbolType, line: nat)
    requires Leaf(a, line).Ok? && Leaf(b, line).Ok?
    ensures ExpressionOf([a, op, b], line) == Ok(Binary(op, Leaf(a, line).value, Leaf(b, line).value))
  {
    var items := [a, op, b];
    var e := Binary(op, Leaf(a, line).value, Leaf(b, line).value);
    OperatorAfterOperand(items, 0);
    assert FirstOperator(items, 2) == None;
    assert Climb(items, 2, e, LowestPrecedence, line) == Ok((e, 2));
    assert Fold(items, 2, Leaf(b, line).value, op, Leaf(a, line).value, LowestPrecedence, line) == Ok((e, 2));
  }

  /** An operator with nothing after it is an unbalanced expression. */
  lemma TrailingOperator(a: SymbolType, op: Operator, line: nat)
    requires Leaf(a, line).Ok?
    ensures ExpressionOf([a, op], line) == Err(UnbalancedExpression([a, op], line))
  {
    assert FirstOperator([a, op], 0) == Some(1);
  }

  /** An operator where an operand is due is reported as unimplemented. */
  lemma OperatorAsOperand(a: SymbolType, op1: Operator, op2: Operator, b: SymbolType, line: nat)
    requires Leaf(a, line).Ok?
    ensures ExpressionOf([a, op1, op2, b], line) == Err(Unimplemented(op2, line))
  {
    assert FirstOperator([a, op1, op2, b], 0) == Some(1);
  }

  /**
   * `a op1 b op2 c op3 d` where op2 binds looser than both neighbours: two comparisons joined
   * by a conjunction, say.
   */
  lemma LooseOperatorInTheMiddle(a: SymbolType, op1: Operator, b: SymbolType, op2: Operator,
                                 c: SymbolType, op3: Operator, d: SymbolType, line: nat)
    requires Leaf(a, line).Ok? && Leaf(b, line).Ok? && Leaf(c, line).Ok? && Leaf(d, line).Ok?
    requires Rank(op2) < Rank(op1) && Rank(op2) < Rank(op3)
    ensures ExpressionOf([a, op1, b, op2, c, op3, d], line) ==
      Ok(Binary(op2, Binary(op1, Leaf(a, line).value, Leaf(b, line).value),
                     Binary(op3, Leaf(c, line).value, Leaf(d, line).value)))
  {
    var items := [a, op1, b, op2, c, op3, d];
    var A, B, C, D := Leaf(a, line).value, Leaf(b, line).value, Leaf(c, line).value, Leaf(d, line).value;
    var whole := Binary(op2, Binary(op1, A, B), Binary(op3, C, D));
    LooseMiddleClimb(items, A, B, C, D, line);
    assert items[0] == a && Climb(items, 0, A, LowestPrecedence, line) == Ok((whole, 6));
  }

  /** The climb behind LooseOperatorInTheMiddle, from the first operand to the end. */
  lemma LooseMiddleClimb(items: seq<SymbolType>, A: Expression, B: Expression, C: Expression, D: Expression, line: nat)
    requires |items| == 7
    requires forall k | k in {0, 2, 4, 6} :: !items[k].IsOperator()
    requires items[1].IsOperator() && items[3].IsOperator() && items[5].IsOperator()
    requires Leaf(items[2], line) == Ok(B) && Leaf(items[4], line) == Ok(C) && Leaf(items[6], line) == Ok(D)
    requires Rank(items[3]) < Rank(items[1]) && Rank(items[3]) < Rank(items[5])
    ensures Climb(items, 0, A, LowestPrecedence, line) ==
      Ok((Binary(items[3], Binary(items[1], A, B), Binary(items[5], C, D)), 6))
  {
    var op1: Operator := items[1];
    OperatorAfterOperand(items, 0);
    var left := Binary(op1, A, B);
    var whole := Binary(items[3], left, Binary(items[5], C, D));
    LooseMiddleTail(items, left, C, D, line);
    assert Fold(items, 2, B, op1, A, LowestPrecedence, line) == Ok((whole, 6));
  }

  /** The second half of LooseMiddleClimb: from the folded `a op1 b` to the end. */
  lemma LooseMiddleTail(items: seq<SymbolType>, left: Expression, C: Expression, D: Expression, line: nat)
    requires |items| == 7
    requires !items[2].IsOperator() && !items[4].IsOperator() && !items[6].IsOperator()
    requires items[3].IsOperator() && items[5].IsOperator()
    requires Leaf(items[4], line) == Ok(C) && Leaf(items[6], line) == Ok(D)
    requires LowestPrecedence < Rank(items[3]) < Rank(items[5])
    ensures Climb(items, 2, left, LowestPrecedence, line) == Ok((Binary(items[3], left, Binary(items[5], C, D)), 6))
  {
    var op2, op3: Operator := items[3], items[5];
    OperatorAfterOperand(items, 2);
    var right := Binary(op3, C, D);
    var whole := Binary(op2, left, right);
    TightRightOperand(items, C, D, op3, line);
    assert FirstOperator(items, 6) == None;
    assert Climb(items, 6, whole, LowestPrecedence, line) == Ok((whole, 6));
    assert Fold(items, 6, right, op2, left, LowestPrecedence, line) == Ok((whole, 6));
    assert Fold(items, 4, C, op2, left, LowestPrecedence, line) == Ok((whole, 6));
  }

  /** The last three items `c op3 d` of seven climb to `c op3 d` at the precedence of `op3`. */
  lemma TightRightOperand(items: seq<SymbolType>, C: Expression, D: Expression, op3: Operator, line: nat)
    requires |items| == 7 && !items[4].IsOperator() && items[5] == op3 && !items[6].IsOperator()
    requires Leaf(items[6], line) == Ok(D)
    ensures Climb(items, 4, C, Rank(op3), line) == Ok((Binary(op3, C, D), 6))
  {
    OperatorAfterOperand(items, 4);
    var right := Binary(op3, C, D);
    assert FirstOperator(items, 6) == None;
    assert Climb(items, 6, right, Rank(op3), line) == Ok((right, 6));
    assert Fold(items, 6, D, op3, C, Rank(op3), line) == Ok((right, 6));
  }

  /** `nothing` lexes as the digits `0`, which read as zero. */
  lemma NothingIsZero(line: nat)
    ensures Leaf(SymbolType.Integer("0"), line) == Ok(Expression.Integer(0))
  {
    assert DigitsValue("0") == 0 by { assert "0"[..0] == []; }
  }

  /** A call with two arguments reads each argument as a variable reference. */
  lemma TwoArgumentCall(target: string, a: string, b: string, line: nat)
    ensures Leaf(Taking(target, [a, b]), line) ==
      Ok(Expression.Call(target, [Expression.Variable(a), Expression.Variable(b)]))
  {
    assert VariableReferences([a, b]) == [Expression.Variable(a), Expression.Variable(b)];
  }

  /**
   * The symbols of `Midnight taking my world, Fire is nothing and Midnight taking my world,
   * Hate is nothing`: `and` binds looser than `is`.
   */
  lemma MidnightTakingMyWorld(line: nat)
    ensures ExpressionOf([
        Taking("Midnight", ["my world", "Fire"]), SymbolType.Is, SymbolType.Integer("0"), SymbolType.And,
        Taking("Midnight", ["my world", "Hate"]), SymbolType.Is, SymbolType.Integer("0")], line) ==
      Ok(Binary(SymbolType.And,
        Binary(SymbolType.Is, Expression.Call("Midnight", [Expression.Variable("my world"), Expression.Variable("Fire")]), Expression.Integer(0)),
        Binary(SymbolType.Is, Expression.Call("Midnight", [Expression.Variable("my world"), Expression.Variable("Hate")]), Expression.Integer(0))))
  {
    NothingIsZero(line);
    TwoArgumentCall("Midnight", "my world", "Fire", line);
    TwoArgumentCall("Midnight", "my world", "Hate", line);
    LooseOperatorInTheMiddle(Taking("Midnight", ["my world", "Fire"]), SymbolType.Is, SymbolType.Integer("0"), SymbolType.And,
                             Taking("Midnight", ["my world", "Hate"]), SymbolType.Is, SymbolType.Integer("0"), line);
  }
}
