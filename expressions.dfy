/**
 * The expression half of src/parser.rs: integer parsing as Rust's `i128::from_str` does it,
 * the poetic number literal rule (`evaluate`), leaf conversion
 * (`single_symbol_to_expression`) and operator-precedence climbing (`next_operator`,
 * `parse_expression_1`, `parse_expression`).
 */
module Expressions {
  import opened Wrappers
  import opened Common

  // ----- i128 parsing -----

  const I128Max: int := 0x7fff_ffff_ffff_ffff_ffff_ffff_ffff_ffff
  const I128Min: int := -0x8000_0000_0000_0000_0000_0000_0000_0000

  predicate IsDigit(c: char) { '0' <= c <= '9' }

  predicate AllDigits(s: string) { forall k :: 0 <= k < |s| ==> IsDigit(s[k]) }

  /** The value of a run of decimal digits, most significant first. */
  function DigitsValue(s: string): nat
    requires AllDigits(s)
    decreases |s|
  {
    if s == [] then 0 else DigitsValue(s[..|s| - 1]) * 10 + (s[|s| - 1] as int - '0' as int)
  }

  /**
   * `str::parse::<i128>`: an optional `+` or `-`, then one or more ASCII digits, and the value
   * must fit in 128 signed bits. `None` stands for the `ParseIntError`.
   */
  function ParseI128(s: string): (r: Option<int>)
    ensures r.Some? ==> I128Min <= r.value <= I128Max
  {
    if s == [] then None
    else
      var digits := if s[0] == '+' || s[0] == '-' then s[1..] else s;
      if digits == [] || !AllDigits(digits) then None
      else
        var v: int := if s[0] == '-' then -(DigitsValue(digits) as int) else DigitsValue(digits);
        if I128Min <= v <= I128Max then Some(v) else None
  }

  /** The decimal rendering of `n`, without sign or leading zeros. */
  function DecimalDigits(n: nat): (s: string)
    ensures |s| > 0 && AllDigits(s) && s[0] != '+' && s[0] != '-'
  {
    if n < 10 then [('0' as int + n) as char]
    else DecimalDigits(n / 10) + [('0' as int + n % 10) as char]
  }

  lemma {:induction false} DecimalDigitsValue(n: nat)
    ensures DigitsValue(DecimalDigits(n)) == n
  {
    if n >= 10 {
      DecimalDigitsValue(n / 10);
      var s := DecimalDigits(n);
      assert s[..|s| - 1] == DecimalDigits(n / 10);
    }
  }

  /**
   * Parsing inverts rendering within the i128 range, for both signs, and a rendering beyond
   * the largest i128 does not parse.
   */
  lemma ParseI128RoundTrip(n: nat)
    ensures n <= I128Max ==> ParseI128(DecimalDigits(n)) == Some(n)
    ensures n > I128Max ==> ParseI128(DecimalDigits(n)) == None
    ensures n <= -I128Min ==> ParseI128("-" + DecimalDigits(n)) == Some(-(n as int))
  {
    DecimalDigitsValue(n);
    assert ("-" + DecimalDigits(n))[1..] == DecimalDigits(n);
  }

  lemma {:induction false} Pow10Add(a: nat, b: nat)
    ensures Pow10(a + b) == Pow10(a) * Pow10(b)
  {
    if a > 0 {
      Pow10Add(a - 1, b);
    }
  }

  /** A run of digits is at least its leading digit times the place value of that digit. */
  lemma {:induction false} LeadingDigitBound(s: string)
    requires |s| > 0 && AllDigits(s)
    ensures DigitsValue(s) >= (s[0] as int - '0' as int) * Pow10(|s| - 1)
    decreases |s|
  {
    if |s| > 1 {
      var d: nat := s[0] as int - '0' as int;
      var front := s[..|s| - 1];
      assert front[0] == s[0] && AllDigits(front);
      LeadingDigitBound(front);
      var last: nat := s[|s| - 1] as int - '0' as int;
      assert DigitsValue(s) == DigitsValue(front) * 10 + last;
      ShiftedBound(DigitsValue(front), d, Pow10(|s| - 2), last);
    }
  }

  lemma ShiftedBound(v: nat, d: nat, p: nat, last: nat)
    requires v >= d * p
    ensures v * 10 + last >= d * (10 * p)
  {
    MulMonotone(d * p, v, 10);
  }

  /** A word made of letters only, as every lexed word is, never parses as an integer. */
  lemma LettersNeverParse(w: string)
    requires forall k :: 0 <= k < |w| ==> 'A' <= w[k] <= 'Z' || 'a' <= w[k] <= 'z'
    ensures ParseI128(w) == None
  {
    if w != [] {
      assert !IsDigit(w[0]);
    }
  }

  // ----- Poetic number literals -----

  function Pow10(n: nat): (p: nat)
    ensures p >= 1
  {
    if n == 0 then 1 else 10 * Pow10(n - 1)
  }

  /** Each word is a decimal digit, its length modulo 10, the first word most significant. */
  function PoeticNumber(words: seq<string>): nat
    decreases |words|
  {
    if words == [] then 0
    else PoeticNumber(words[..|words| - 1]) * 10 + |words[|words| - 1]| % 10
  }

  /** A poetic number of n words has at most n digits. */
  lemma {:induction false} PoeticNumberBound(words: seq<string>)
    ensures PoeticNumber(words) < Pow10(|words|)
    decreases |words|
  {
    if words != [] {
      PoeticNumberBound(words[..|words| - 1]);
    }
  }

  /** The digits of a concatenation are the digits of the first part followed by the second's. */
  lemma {:induction false} PoeticNumberAppend(a: seq<string>, b: seq<string>)
    ensures PoeticNumber(a + b) == PoeticNumber(a) * Pow10(|b|) + PoeticNumber(b)
    decreases |b|
  {
    if b == [] {
      assert a + b == a;
    } else {
      var b' := b[..|b| - 1];
      assert (a + b)[..|a + b| - 1] == a + b';
      PoeticNumberAppend(a, b');
      calc {
        PoeticNumber(a + b);
        PoeticNumber(a + b') * 10 + |b[|b| - 1]| % 10;
        (PoeticNumber(a) * Pow10(|b'|) + PoeticNumber(b')) * 10 + |b[|b| - 1]| % 10;
        { assert (PoeticNumber(a) * Pow10(|b'|)) * 10 == PoeticNumber(a) * (Pow10(|b'|) * 10); }
        PoeticNumber(a) * Pow10(|b|) + PoeticNumber(b);
      }
    }
  }

  lemma DivModAdd(x: nat, m: nat, y: nat)
    requires 0 <= y < m
    ensures (x * m + y) / m == x && (x * m + y) % m == y
  {
    var z := x * m + y;
    var q, r := z / m, z % m;
    assert z == q * m + r;
    if q > x {
      MulMonotone(x + 1, q, m);
    } else if q < x {
      MulMonotone(q + 1, x, m);
    }
  }

  lemma MulMonotone(a: nat, b: nat, m: nat)
    requires a <= b
    ensures a * m <= b * m
  {
  }

  /** The k-th word, counted from the first, is the k-th decimal digit from the most significant. */
  lemma PoeticDigit(words: seq<string>, k: nat)
    requires k < |words|
    ensures PoeticNumber(words) / Pow10(|words| - 1 - k) % 10 == |words[k]| % 10
  {
    var a, w, b := words[..k], words[k], words[k + 1..];
    var head, p := PoeticNumber(a + [w]), Pow10(|b|);
    assert |words| - 1 - k == |b|;
    assert PoeticNumber(words) == head * p + PoeticNumber(b) by {
      assert words == (a + [w]) + b;
      PoeticNumberAppend(a + [w], b);
    }
    assert PoeticNumber(words) / p == head by {
      PoeticNumberBound(b);
      DivModAdd(head, p, PoeticNumber(b));
    }
    assert head % 10 == |w| % 10 by {
      assert (a + [w])[..|a + [w]| - 1] == a;
      DivModAdd(PoeticNumber(a), 10, |w| % 10);
    }
  }

  /** The digit rule on the words `a lovestruck ladykiller`: digits 1, 0, 0. */
  lemma LovestruckLadykiller()
    ensures PoeticNumber(["a", "lovestruck", "ladykiller"]) == 100
  {
    var w := ["a", "lovestruck", "ladykiller"];
    assert w[..2] == ["a", "lovestruck"] && w[..2][..1] == ["a"] && ["a"][..0] == [];
  }

  // ----- evaluate -----

  /**
   * What `evaluate` produces: a single word `nothing` is 0, a single word that parses as an
   * i128 is that integer, any other word list is its poetic number, a string is itself, and
   * every other symbol is unimplemented.
   */
  function Evaluation(value: SymbolType, line: nat): (r: Result<Expression>)
    ensures r.Ok? <==> value.Words? || value.String?
    ensures r.Err? ==> r.error == Unimplemented(value, line)
    ensures value.Words? ==> r.value.Integer?
  {
    match value
    case Words(words) =>
      if |words| == 1 && words[0] == "nothing" then Ok(Expression.Integer(0))
      else if |words| == 1 && ParseI128(words[0]).Some? then Ok(Expression.Integer(ParseI128(words[0]).value))
      else Ok(Expression.Integer(PoeticNumber(words)))
    case String(phrase) => Ok(Expression.String(phrase))
    case _ => Err(Unimplemented(value, line))
  }

  /**
   * Words of letters only, which is every `Words` the lexer builds, are the poetic number of
   * the list unless they are the single word `nothing`.
   */
  lemma EvaluateLetterWords(words: seq<string>, line: nat)
    requires forall i, k :: 0 <= i < |words| && 0 <= k < |words[i]| ==>
      'A' <= words[i][k] <= 'Z' || 'a' <= words[i][k] <= 'z'
    ensures Evaluation(Words(words), line) ==
      if words == ["nothing"] then Ok(Expression.Integer(0)) else Ok(Expression.Integer(PoeticNumber(words)))
  {
    if |words| == 1 {
      LettersNeverParse(words[0]);
      assert words == [words[0]];
    }
  }

  /** evaluate: the poetic digits are folded by a loop over the words. */
  method Evaluate(value: SymbolType, line: nat) returns (r: Result<Expression>)
    ensures r == Evaluation(value, line)
  {
    match value {
      case Words(words) =>
        if |words| == 1 {
          if words[0] == "nothing" {
            return Ok(Expression.Integer(0));
          }
          var asInt := ParseI128(words[0]);
          if asInt.Some? {
            return Ok(Expression.Integer(asInt.value));
          }
        }
        var number := 0;
        var i := 0;
        while i < |words|
          invariant 0 <= i <= |words|
          invariant number == PoeticNumber(words[..i])
        {
          assert words[..i + 1][..i] == words[..i];
          number := number * 10 + |words[i]| % 10;
          i := i + 1;
        }
        assert words[..i] == words;
        return Ok(Expression.Integer(number));
      case String(phrase) =>
        return Ok(Expression.String(phrase));
      case _ =>
        return Err(Unimplemented(value, line));
    }
  }

  // ----- Leaves -----

  function VariableReferences(names: seq<string>): (r: seq<Expression>)
    ensures |r| == |names| && forall k :: 0 <= k < |names| ==> r[k] == Expression.Variable(names[k])
  {
    if names == [] then [] else [Expression.Variable(names[0])] + VariableReferences(names[1..])
  }

  /** A symbol the expression parser accepts as an operand. */
  predicate IsLeaf(sym: SymbolType)
  {
    sym.Words? || sym.Variable? || sym.String? || sym.Integer? || sym.Taking?
  }

  /**
   * single_symbol_to_expression: an operand symbol as an expression. A call's arguments are
   * always variable references.
   */
  function Leaf(sym: SymbolType, line: nat): (r: Result<Expression>)
    ensures r.Ok? <==> IsLeaf(sym) && (sym.Integer? ==> ParseI128(sym.digits).Some?)
    ensures r.Ok? ==> !r.value.Binary?
    ensures !IsLeaf(sym) ==> r == Err(Unimplemented(sym, line))
    ensures sym.Integer? && ParseI128(sym.digits).None? ==> r == Err(ParseIntError(sym.digits, line))
  {
    match sym
    case Words(_) => Evaluation(sym, line)
    case Variable(name) => Ok(Expression.Variable(name))
    case String(phrase) => Ok(Expression.String(phrase))
    case Integer(digits) =>
      (match ParseI128(digits)
       case Some(i) => Ok(Expression.Integer(i))
       case None => Err(ParseIntError(digits, line)))
    case Taking(target, args) => Ok(Expression.Call(target, VariableReferences(args)))
    case _ => Err(Unimplemented(sym, line))
  }

  // ----- Precedence climbing -----

  /**
   * Binding strength of the operators, from the derived ordering of the symbol type: every
   * operator has a rank of its own, `And` lowest, then `Is`, `Aint`, `>=`, `>`, `<`, `Add`,
   * `Subtract`, `Times`. `LowestPrecedence` is below all of them.
   */
  function Rank(op: Operator): (r: nat)
    ensures LowestPrecedence < r
  {
    match op
    case And => 1
    case Is => 2
    case Aint => 3
    case GreaterThanOrEqual => 4
    case GreaterThan => 5
    case LessThan => 6
    case Add => 7
    case Subtract => 8
    case Times => 9
  }

  /** A derived ordering never ties two different operators. */
  lemma RankIsStrict(a: Operator, b: Operator)
    ensures Rank(a) == Rank(b) <==> a == b
    ensures a.And? && !b.And? ==> Rank(a) < Rank(b)
    ensures a.Times? && !b.Times? ==> Rank(b) < Rank(a)
  {
  }

  const LowestPrecedence: nat := 0

  /** The index of the first operator at or after `index`. */
  function FirstOperator(items: seq<SymbolType>, index: nat): (r: Option<nat>)
    ensures r.Some? ==> index <= r.value < |items| && items[r.value].IsOperator()
    ensures r.Some? ==> forall k :: index <= k < r.value ==> !items[k].IsOperator()
    ensures r.None? ==> forall k :: index <= k < |items| ==> !items[k].IsOperator()
    decreases |items| - index
  {
    if index >= |items| then None
    else if items[index].IsOperator() then Some(index)
    else FirstOperator(items, index + 1)
  }

  /** next_operator: a linear scan from `index`. */
  method NextOperator(items: seq<SymbolType>, index: nat) returns (r: Option<nat>)
    ensures r == FirstOperator(items, index)
  {
    var i := index;
    while i < |items|
      invariant index <= i
      invariant FirstOperator(items, i) == FirstOperator(items, index)
      decreases |items| - i
    {
      if items[i].IsOperator() {
        return Some(i);
      }
      i := i + 1;
    }
    return None;
  }

  /** The operator found by a lookahead binds at least `prec`. */
  predicate BindsAtLeast(items: seq<SymbolType>, lookahead: Option<nat>, prec: nat)
    requires lookahead.Some? ==> lookahead.value < |items| && items[lookahead.value].IsOperator()
  {
    lookahead.Some? && Rank(items[lookahead.value]) >= prec
  }

  /**
   * The outer loop of parse_expression_1 from cursor `index` with left operand `lhs`: while
   * the next operator binds at least `prec`, read the operand after it and fold. The result
   * is the expression and the cursor, which only moves forward and stops on an operand.
   */
  function Climb(items: seq<SymbolType>, index: nat, lhs: Expression, prec: nat, line: nat): (r: Result<(Expression, nat)>)
    ensures r.Ok? ==> r.value.1 == index || (index < r.value.1 < |items| && Leaf(items[r.value.1], line).Ok?)
    ensures r.Ok? && BindsAtLeast(items, FirstOperator(items, index), prec) ==> index < r.value.1
    ensures r.Ok? ==> !BindsAtLeast(items, FirstOperator(items, r.value.1), prec)
    decreases |items| - index, 0
  {
    var la := FirstOperator(items, index);
    if !BindsAtLeast(items, la, prec) then Ok((lhs, index))
    else
      var op: Operator := items[la.value];
      var next := la.value + 1;
      if next >= |items| then Err(UnbalancedExpression(items, line))
      else
        match Leaf(items[next], line)
        case Err(e) => Err(e)
        case Ok(rhs) => Fold(items, next, rhs, op, lhs, prec, line)
  }

  /**
   * The inner loop of parse_expression_1 with the right operand `rhs` of `op` read up to
   * `index`: while the next operator binds tighter than `op`, it takes `rhs` as its left
   * operand; then `op` is folded into `lhs` and the outer loop resumes.
   */
  function Fold(items: seq<SymbolType>, index: nat, rhs: Expression, op: Operator, lhs: Expression, prec: nat, line: nat): (r: Result<(Expression, nat)>)
    ensures r.Ok? ==> r.value.1 == index || (index < r.value.1 < |items| && Leaf(items[r.value.1], line).Ok?)
    ensures r.Ok? ==> !BindsAtLeast(items, FirstOperator(items, r.value.1), prec)
    decreases |items| - index, 1
  {
    var la := FirstOperator(items, index);
    if BindsAtLeast(items, la, Rank(op) + 1) then
      match Climb(items, index, rhs, Rank(items[la.value]), line)
      case Err(e) => Err(e)
      case Ok((rhs', index')) => Fold(items, index', rhs', op, lhs, prec, line)
    else
      Climb(items, index, Binary(op, lhs, rhs), prec, line)
  }

  /** parse_expression_1: two nested loops, the inner one recursing at a higher precedence. */
  method ParseExpression1(items: seq<SymbolType>, index0: nat, lhs0: Expression, prec: nat, line: nat)
    returns (r: Result<(Expression, nat)>)
    ensures r == Climb(items, index0, lhs0, prec, line)
    decreases |items| - index0
  {
    var index := index0;
    var lhs := lhs0;
    var lookahead := NextOperator(items, index);
    while BindsAtLeast(items, lookahead, prec)
      invariant index0 <= index
      invariant lookahead == FirstOperator(items, index)
      invariant Climb(items, index, lhs, prec, line) == Climb(items, index0, lhs0, prec, line)
      decreases |items| - index
    {
      ghost var before := index;
      var op: Operator := items[lookahead.value];
      index := lookahead.value + 1;
      if index >= |items| {
        return Err(UnbalancedExpression(items, line));
      }
      var rhs :- Leaf(items[index], line);
      lookahead := NextOperator(items, index);
      while BindsAtLeast(items, lookahead, Rank(op) + 1)
        invariant before < index
        invariant lookahead == FirstOperator(items, index)
        invariant Fold(items, index, rhs, op, lhs, prec, line) == Climb(items, index0, lhs0, prec, line)
        decreases |items| - index
      {
        var l := lookahead.value;
        var res := ParseExpression1(items, index, rhs, Rank(items[l]), line);
        if res.Err? {
          return Err(res.error);
        }
        rhs, index := res.value.0, res.value.1;
        lookahead := NextOperator(items, index);
      }
      lhs := Binary(op, lhs, rhs);
    }
    return Ok((lhs, index));
  }

  /**
   * parse_expression: the first symbol is the initial left operand, the climb starts below
   * every operator, and it must stop on the last symbol.
   */
  function ExpressionOf(items: seq<SymbolType>, line: nat): (r: Result<Expression>)
    ensures items == [] ==> r == Err(UnbalancedExpression([], line))
  {
    if items == [] then Err(UnbalancedExpression(items, line))
    else
      match Leaf(items[0], line)
      case Err(e) => Err(e)
      case Ok(first) =>
        match Climb(items, 0, first, LowestPrecedence, line)
        case Err(e) => Err(e)
        case Ok((e, i)) => if i != |items| - 1 then Err(UnbalancedExpression(items, line)) else Ok(e)
  }

  method ParseExpression(items: seq<SymbolType>, line: nat) returns (r: Result<Expression>)
    ensures r == ExpressionOf(items, line)
  {
    if |items| == 0 {
      return Err(UnbalancedExpression(items, line));
    }
    var first :- Leaf(items[0], line);
    var res :- ParseExpression1(items, 0, first, LowestPrecedence, line);
    if res.1 != |items| - 1 {
      return Err(UnbalancedExpression(items, line));
    }
    return Ok(res.0);
  }
}
