/** The problem generators of the worksheet engine: four base generators, the
    parenthesised-expression generator with its retry-on-rejection, and the
    fill-in-the-blank generator. Every random draw is an explicit argument. */
module Generators {
  import opened Problems

  /** The random values one generator call draws. Each generator reads the
      fields it needs:
      - base generators: x, y (for division x is the quotient, y the divisor);
      - parentheses: op1, op2, x, y (drawn from op1's range), cAdd and cMul (the
        two candidates for the third operand), cFromAdd (which one is chosen),
        bracketLeft (the coin flip for the bracket side);
      - fill-in-the-blank: op1, x, y (for division x is the divisor, y the
        quotient), blankFirst (blank position 0). */
  datatype Draw = Draw(
    op1: Op, op2: Op, x: int, y: int,
    cAdd: int, cMul: int, cFromAdd: bool,
    bracketLeft: bool, blankFirst: bool)

  /** The operand pair a subtraction shows: the two draws, swapped exactly when
      no_negative is set and the first is the smaller. */
  function Ordered(x: int, y: int, noNegative: bool): (int, int)
  {
    if noNegative && x < y then (y, x) else (x, y)
  }

  /** The pair is the two draws in some order, the larger first under
      no_negative, and differs from the draws exactly when they were swapped. */
  lemma OrderedPair(x: int, y: int, noNegative: bool)
    ensures var pair := Ordered(x, y, noNegative);
      && multiset{pair.0, pair.1} == multiset{x, y}
      && (noNegative ==> pair.0 >= pair.1)
      && (pair != (x, y) <==> noNegative && x < y)
  {
  }

  // ---------------------------------------------------------------------------
  // Base generators
  // ---------------------------------------------------------------------------

  /** "a + b = " */
  function Addition(a: int, b: int): Problem
  {
    Problem(Ask(Bin(Add, Lit(a), Lit(b))), a + b)
  }

  /** The addition question is true and shows a and b in the order drawn. */
  lemma AdditionSound(a: int, b: int)
    ensures var p := Addition(a, b);
      Holds(p) && Kind(p) == Some(Add) && Literals(p.display.e) == [a, b] && p.answer == a + b
  {
  }

  /** "a - b = ", the operands first put in order when no_negative is set. */
  function Subtraction(x: int, y: int, noNegative: bool): Problem
  {
    var (a, b) := Ordered(x, y, noNegative);
    Problem(Ask(Bin(Sub, Lit(a), Lit(b))), a - b)
  }

  /** The subtraction question is true, shows the two draws in some order, and
      under no_negative has no negative answer. */
  lemma SubtractionSound(x: int, y: int, noNegative: bool)
    ensures var p := Subtraction(x, y, noNegative);
      && Holds(p) && Kind(p) == Some(Sub)
      && multiset(Literals(p.display.e)) == multiset{x, y}
      && (noNegative ==> p.answer >= 0)
  {
    var (a, b) := Ordered(x, y, noNegative);
    OrderedPair(x, y, noNegative);
    assert multiset([a] + [b]) == multiset{a, b};
  }

  /** "a x b = " */
  function Multiplication(a: int, b: int): Problem
  {
    Problem(Ask(Bin(Mul, Lit(a), Lit(b))), a * b)
  }

  /** The multiplication question is true and shows a and b in the order drawn. */
  lemma MultiplicationSound(a: int, b: int)
    ensures var p := Multiplication(a, b);
      Holds(p) && Kind(p) == Some(Mul) && Literals(p.display.e) == [a, b] && p.answer == a * b
  {
  }

  /** "dividend ÷ divisor = " with the dividend built as quotient * divisor, so
      the division is exact by construction; the answer is the quotient. */
  function Division(quotient: int, divisor: int): Problem
  {
    Problem(Ask(Bin(Div, Lit(quotient * divisor), Lit(divisor))), quotient)
  }

  /** The division question shows the dividend quotient * divisor, its answer
      is the quotient, and it is true exactly when the divisor is non-zero. */
  lemma DivisionSound(quotient: int, divisor: int)
    ensures var p := Division(quotient, divisor);
      && HoldsWhenDefined(p) && Kind(p) == Some(Div)
      && (Holds(p) <==> divisor != 0)
      && p.answer == quotient
      && Literals(p.display.e) == [quotient * divisor, divisor]
  {
    ExactQuotient(quotient, divisor);
  }

  lemma MulAtLeast(m: int, d: int)
    requires m >= 1 && d >= 1
    ensures m * d >= d
  {
    var t := m - 1;
    assert t * d >= 0;
    assert m * d == t * d + d;
  }

  /** quotient * divisor divided by a non-zero divisor leaves no remainder and
      gives back the quotient. */
  lemma ExactQuotient(q: int, d: int)
    ensures d != 0 ==> (q * d) % d == 0 && (q * d) / d == q
  {
    if d != 0 {
      var r, k := (q * d) % d, (q * d) / d;
      assert q * d == k * d + r && 0 <= r < if d < 0 then -d else d;
      var m := q - k;
      assert m * d == r;
      if m != 0 {
        var am, ad := if m < 0 then -m else m, if d < 0 then -d else d;
        MulAtLeast(am, ad);
      }
    }
  }

  /** The base generator for op, as the assembler calls it. */
  function BaseProblem(op: Op, x: int, y: int, noNegative: bool): Problem
  {
    match op
    case Add => Addition(x, y)
    case Sub => Subtraction(x, y, noNegative)
    case Mul => Multiplication(x, y)
    case Div => Division(x, y)
  }

  /** Whatever the operator, a base problem is a question about that operator
      that is never false, and a no_negative subtraction has no negative answer. */
  lemma BaseProblemSound(op: Op, x: int, y: int, noNegative: bool)
    ensures var p := BaseProblem(op, x, y, noNegative);
      && p.display.Ask? && HoldsWhenDefined(p) && Kind(p) == Some(op)
      && (op == Sub && noNegative ==> p.answer >= 0)
  {
    match op {
      case Add => AdditionSound(x, y);
      case Sub => SubtractionSound(x, y, noNegative);
      case Mul => MultiplicationSound(x, y);
      case Div => DivisionSound(x, y);
    }
  }

  // ---------------------------------------------------------------------------
  // Parenthesised expressions
  // ---------------------------------------------------------------------------

  /** The operands a and b the first operator works on: for '-' in order when
      no_negative is set, for '÷' the dividend quotient * divisor and the divisor. */
  function BracketOperands(op1: Op, x: int, y: int, noNegative: bool): (int, int)
  {
    match op1
    case Add => (x, y)
    case Sub => Ordered(x, y, noNegative)
    case Mul => (x, y)
    case Div => (x * y, y)
  }

  /** The third operand: one of the two candidate draws. */
  function ThirdOperand(d: Draw): int
  {
    if d.cFromAdd then d.cAdd else d.cMul
  }

  /** The expression an attempt prints: "(a op1 b) op2 c" when the bracket goes
      left, "a op2 (b op1 c)" otherwise. */
  function ParensExpr(d: Draw, noNegative: bool): Expr
  {
    var (a, b) := BracketOperands(d.op1, d.x, d.y, noNegative);
    var c := ThirdOperand(d);
    if d.bracketLeft then Bin(d.op2, Paren(Bin(d.op1, Lit(a), Lit(b))), Lit(c))
    else Bin(d.op2, Lit(a), Paren(Bin(d.op1, Lit(b), Lit(c))))
  }

  /** The final guard of an attempt: retry when the text came out empty. */
  function Finish(e: Expr, answer: int): Option<Problem>
  {
    var p := Problem(Ask(e), answer);
    if Text(p) == "" then None else Some(p)
  }

  // The bracket's value paren_result (lines 1006-1016 and 1034-1044) and the
  // answer of the bracket-left form (1018-1031) are Problems.Apply: a division
  // by zero or an inexact one has no value, and the attempt starts over.

  /** The answer of the bracket-right form "a op2 (..)": None when an outer
      division is by zero or inexact, or an outer '-' would go negative under
      no_negative. */
  function RightAnswer(op2: Op, a: int, v: int, noNegative: bool): Option<int>
  {
    match op2
    case Add => Some(a + v)
    case Sub => if a < v && noNegative then None else Some(a - v)
    case Mul => Some(a * v)
    case Div => if v == 0 then None else if a % v != 0 then None else Some(a / v)
  }

  /** The bracket-right answer is the operator's meaning, except that an
      outer '-' going negative under no_negative is rejected. */
  lemma RightAnswerApply(op: Op, l: int, r: int, noNegative: bool)
    ensures RightAnswer(op, l, r, noNegative) ==
      if op == Sub && noNegative && l - r < 0 then None else Apply(op, l, r)
  {
  }

  /** One attempt of the parenthesised-expression generator on one set of draws.
      None is a rejection, after which the generator starts over with fresh draws:
      an inexact or by-zero division in the bracket or outside it, or, in the
      bracket-right form only, an outer '-' that would go negative under
      no_negative. */
  function ParensAttempt(d: Draw, noNegative: bool): Option<Problem>
  {
    var (a, b) := BracketOperands(d.op1, d.x, d.y, noNegative);
    var c := ThirdOperand(d);
    if d.bracketLeft then
      var bracket := Paren(Bin(d.op1, Lit(a), Lit(b)));
      var inner := Apply(d.op1, a, b);
      if inner.None? then None
      else
        var answer := Apply(d.op2, inner.value, c);
        if answer.None? then None else Finish(Bin(d.op2, bracket, Lit(c)), answer.value)
    else
      var bracket := Paren(Bin(d.op1, Lit(b), Lit(c)));
      var inner := Apply(d.op1, b, c);
      if inner.None? then None
      else
        var answer := RightAnswer(d.op2, a, inner.value, noNegative);
        if answer.None? then None else Finish(Bin(d.op2, Lit(a), bracket), answer.value)
  }

  /** The no_negative guard of an attempt: it applies only to an outer '-' in
      the bracket-right form. */
  predicate GuardRejects(d: Draw, noNegative: bool, value: int)
  {
    noNegative && !d.bracketLeft && d.op2 == Sub && value < 0
  }

  /** The value an attempt's expression has, the form ParensAttemptMeaning
      compares the attempt with. */
  function Meaning(d: Draw, noNegative: bool): Option<Problem>
  {
    var e := ParensExpr(d, noNegative);
    match Eval(e)
    case None => None
    case Some(v) => if GuardRejects(d, noNegative, v) then None else Some(Problem(Ask(e), v))
  }

  lemma ParensLeftMeaning(d: Draw, noNegative: bool)
    requires d.bracketLeft
    ensures ParensAttempt(d, noNegative) == Meaning(d, noNegative)
  {
    var (a, b) := BracketOperands(d.op1, d.x, d.y, noNegative);
    var c := ThirdOperand(d);
    var inner := Apply(d.op1, a, b);
    assert Eval(Bin(d.op1, Lit(a), Lit(b))) == inner;
    assert Eval(Paren(Bin(d.op1, Lit(a), Lit(b)))) == inner;
    if inner.Some? {
      assert Eval(ParensExpr(d, noNegative)) == Apply(d.op2, inner.value, c);
    }
  }

  lemma ParensRightMeaning(d: Draw, noNegative: bool)
    requires !d.bracketLeft
    ensures ParensAttempt(d, noNegative) == Meaning(d, noNegative)
  {
    var (a, b) := BracketOperands(d.op1, d.x, d.y, noNegative);
    var c := ThirdOperand(d);
    var inner := Apply(d.op1, b, c);
    assert Eval(Bin(d.op1, Lit(b), Lit(c))) == inner;
    assert Eval(Paren(Bin(d.op1, Lit(b), Lit(c)))) == inner;
    if inner.Some? {
      RightAnswerApply(d.op2, a, inner.value, noNegative);
      assert Eval(ParensExpr(d, noNegative)) == Apply(d.op2, a, inner.value);
    }
  }

  /** An attempt is accepted exactly when the printed expression has a value
      (every division in it is exact and by a non-zero divisor) that the
      no_negative guard lets through; the answer is then that value. */
  lemma ParensAttemptMeaning(d: Draw, noNegative: bool)
    ensures ParensAttempt(d, noNegative) == Meaning(d, noNegative)
  {
    if d.bracketLeft {
      ParensLeftMeaning(d, noNegative);
    } else {
      ParensRightMeaning(d, noNegative);
    }
  }

  /** Every accepted attempt is a true statement about its own printed
      expression, whose outer operator is op2. */
  lemma ParensAccepted(d: Draw, noNegative: bool)
    requires ParensAttempt(d, noNegative).Some?
    ensures var p := ParensAttempt(d, noNegative).value;
      Holds(p) && Kind(p) == Some(d.op2) && p.display == Ask(ParensExpr(d, noNegative))
    ensures !d.bracketLeft && d.op2 == Sub && noNegative ==> ParensAttempt(d, noNegative).value.answer >= 0
  {
    ParensAttemptMeaning(d, noNegative);
  }

  /** no_negative does not guard the bracket-left outer '-': "(1 + 1) - 5 = " is
      accepted with answer -3 although no_negative is set. */
  lemma ParensLeftMinusUnguarded()
    ensures var d := Draw(Add, Sub, 1, 1, 5, 5, true, true, false);
      ParensAttempt(d, true) == Some(Problem(Ask(ParensExpr(d, true)), -3))
  {
  }

  /** no_negative does not guard the subtraction inside the bracket of the
      bracket-right form: "9 + (1 - 5) = " is accepted, with the bracket at -4. */
  lemma ParensInnerMinusUnguarded()
    ensures var d := Draw(Sub, Add, 9, 1, 5, 5, true, false, false);
      ParensExpr(d, true) == Bin(Add, Lit(9), Paren(Bin(Sub, Lit(1), Lit(5))))
      && Eval(Paren(Bin(Sub, Lit(1), Lit(5)))) == Some(-4)
      && ParensAttempt(d, true) == Some(Problem(Ask(ParensExpr(d, true)), 5))
  {
  }

  /** The outcome an attempt would have on each draw of the stream. */
  function Attempts(draws: seq<Draw>, noNegative: bool): (a: seq<Option<Problem>>)
    ensures |a| == |draws|
  {
    if draws == [] then []
    else Attempts(draws[..|draws| - 1], noNegative) + [ParensAttempt(draws[|draws| - 1], noNegative)]
  }

  lemma {:induction false} AttemptsAt(draws: seq<Draw>, noNegative: bool, i: nat)
    requires i < |draws|
    ensures Attempts(draws, noNegative)[i] == ParensAttempt(draws[i], noNegative)
    decreases |draws|
  {
    if i < |draws| - 1 {
      var front := draws[..|draws| - 1];
      AttemptsAt(front, noNegative, i);
      assert front[i] == draws[i];
    }
  }

  /** The outcome of the retry loop over attempt outcomes from position k: the
      first accepted attempt and the position after it, or None with the
      outcomes used up. */
  function FirstAccepted(attempts: seq<Option<Problem>>, k: nat): (Option<Problem>, nat)
    decreases |attempts| - k
  {
    if k >= |attempts| then (None, k)
    else
      match attempts[k]
      case Some(p) => (Some(p), k + 1)
      case None => FirstAccepted(attempts, k + 1)
  }

  /** FirstAccepted returns the first accepted attempt at or after k, having
      rejected every attempt in between; None means every remaining attempt was
      rejected. */
  lemma {:induction false} FirstAcceptedIsFirst(attempts: seq<Option<Problem>>, k: nat)
    requires k <= |attempts|
    ensures var (r, next) := FirstAccepted(attempts, k);
      && k <= next <= |attempts|
      && (r.Some? ==> k < next && attempts[next - 1] == r)
      && (r.None? ==> next == |attempts|)
      && (forall j :: k <= j < |attempts| && (r.None? || j < next - 1) ==> attempts[j].None?)
    decreases |attempts| - k
  {
    if k < |attempts| && attempts[k].None? {
      FirstAcceptedIsFirst(attempts, k + 1);
    }
  }

  /** The parenthesised-expression generator: retries with the next draws until
      an attempt is accepted or the draws run out (the exhaustion fault). */
  method GenerateParentheses(draws: seq<Draw>, k: nat, noNegative: bool) returns (r: Option<Problem>, next: nat)
    ensures (r, next) == FirstAccepted(Attempts(draws, noNegative), k)
  {
    ghost var attempts := Attempts(draws, noNegative);
    r, next := None, k;
    while r.None? && next < |draws|
      invariant k <= next
      invariant r.None? ==> FirstAccepted(attempts, next) == FirstAccepted(attempts, k)
      invariant r.Some? ==> (r, next) == FirstAccepted(attempts, k)
      decreases |draws| - next, if r.None? then 1 else 0
    {
      r := ParensAttempt(draws[next], noNegative);
      AttemptsAt(draws, noNegative, next);
      next := next + 1;
    }
  }

  // ---------------------------------------------------------------------------
  // Fill in the blank
  // ---------------------------------------------------------------------------

  /** The equation "a op b = result" with operand a (blank position 0) or b
      (position 1) replaced by the blank; the hidden operand is the answer. */
  function Hide(op: Op, a: int, b: int, result: int, blankFirst: bool): Problem
  {
    if blankFirst then Problem(Fill(Bin(op, Blank, Lit(b)), result), a)
    else Problem(Fill(Bin(op, Lit(a), Blank), result), b)
  }

  /** Hiding leaves one blank and the result in view; the hidden operand is the
      answer, and writing it in gives back "a op b". */
  lemma HideSound(op: Op, a: int, b: int, result: int, blankFirst: bool)
    ensures var p := Hide(op, a, b, result, blankFirst);
      && p.display.Fill? && p.display.result == result && Blanks(p.display.e) == 1
      && Plug(p.display.e, p.answer) == Bin(op, Lit(a), Lit(b))
      && p.answer == (if blankFirst then a else b)
  {
  }

  /** A solved equation with one operand replaced by "__"; the hidden operand is
      the answer and the result stays visible. */
  function FillBlank(op: Op, x: int, y: int, blankFirst: bool, noNegative: bool): Problem
  {
    match op
    case Add => Hide(Add, x, y, x + y, blankFirst)
    case Sub =>
      var (a, b) := Ordered(x, y, noNegative);
      Hide(Sub, a, b, a - b, blankFirst)
    case Mul => Hide(Mul, x, y, x * y, blankFirst)
    case Div =>
      var (divisor, quotient) := (x, y);
      Hide(Div, divisor * quotient, divisor, quotient, blankFirst)
  }

  /** The equation has exactly one blank and is about op; it is never false,
      it is true unless it divides by a zero divisor, and under no_negative a
      '-' equation shows no negative result. */
  lemma FillBlankSound(op: Op, x: int, y: int, blankFirst: bool, noNegative: bool)
    ensures var p := FillBlank(op, x, y, blankFirst, noNegative);
      && p.display.Fill? && Blanks(p.display.e) == 1 && Kind(p) == Some(op)
      && HoldsWhenDefined(p)
      && (Holds(p) <==> !(op == Div && x == 0))
      && (op == Sub && noNegative ==> p.display.result >= 0)
  {
    match op {
      case Add =>
        HideSound(Add, x, y, x + y, blankFirst);
        assert Eval(Bin(Add, Lit(x), Lit(y))) == Some(x + y);
      case Sub =>
        var (a, b) := Ordered(x, y, noNegative);
        HideSound(Sub, a, b, a - b, blankFirst);
        assert Eval(Bin(Sub, Lit(a), Lit(b))) == Some(a - b);
      case Mul =>
        HideSound(Mul, x, y, x * y, blankFirst);
        assert Eval(Bin(Mul, Lit(x), Lit(y))) == Some(x * y);
      case Div =>
        ExactQuotient(y, x);
        assert x * y == y * x;
        HideSound(Div, x * y, x, y, blankFirst);
        assert Eval(Bin(Div, Lit(x * y), Lit(x))) == Apply(Div, x * y, x);
    }
  }

  /** Writing the answer into the blank gives back the question the base
      generator asks for the same operator and operands, and the visible result
      is that question's answer; the answer is the operand at the blank's
      position (for '÷': the dividend divisor * quotient at position 0, the
      divisor at position 1). */
  lemma FillBlankSolves(op: Op, x: int, y: int, blankFirst: bool, noNegative: bool)
    ensures var p := FillBlank(op, x, y, blankFirst, noNegative);
      var solved := if op == Div then Division(y, x) else BaseProblem(op, x, y, noNegative);
      && Ask(Plug(p.display.e, p.answer)) == solved.display
      && p.display.result == solved.answer
      && |Literals(solved.display.e)| == 2
      && p.answer == Literals(solved.display.e)[if blankFirst then 0 else 1]
  {
    match op {
      case Add => HideSound(Add, x, y, x + y, blankFirst);
      case Sub =>
        var (a, b) := Ordered(x, y, noNegative);
        HideSound(Sub, a, b, a - b, blankFirst);
      case Mul => HideSound(Mul, x, y, x * y, blankFirst);
      case Div =>
        assert x * y == y * x;
        HideSound(Div, x * y, x, y, blankFirst);
    }
  }
}
