/** Arithmetic problems as a worksheet shows them: a small expression language for
    the displayed text, its arithmetic meaning, and its rendering to the exact
    strings the generators format ("3 + 4 = ", "(6 ÷ 2) x 5 = ", "__ - 3 = 6"). */
module Problems {

  datatype Option<T> = None | Some(value: T)

  /** The four operators the generators draw from. */
  datatype Op = Add | Sub | Mul | Div

  /** Displayed arithmetic: integer literals, the blank "__", a binary
      operation written "l op r", and a parenthesised sub-expression. */
  datatype Expr = Lit(n: int) | Blank | Bin(op: Op, left: Expr, right: Expr) | Paren(inner: Expr)

  /** A question "e = " whose answer is asked for, or an equation "e = result"
      in which one operand of e is the blank. */
  datatype Display = Ask(e: Expr) | Fill(e: Expr, result: int)

  /** One worksheet entry: what is printed and the integer the pupil should write. */
  datatype Problem = Problem(display: Display, answer: int)

  // ---------------------------------------------------------------------------
  // Meaning
  // ---------------------------------------------------------------------------

  /** Integer arithmetic as a pupil reads it: a division has a value only when
      the divisor is non-zero and divides exactly. */
  function Apply(op: Op, l: int, r: int): (v: Option<int>)
    ensures v.None? <==> op == Div && (r == 0 || l % r != 0)
    ensures op == Add && v.Some? ==> v.value - r == l
    ensures op == Sub && v.Some? ==> v.value + r == l
  {
    match op
    case Add => Some(l + r)
    case Sub => Some(l - r)
    case Mul => Some(l * r)
    case Div => if r != 0 && l % r == 0 then Some(l / r) else None
  }

  /** An exact division undoes a multiplication by the divisor. */
  lemma ApplyDivExact(l: int, r: int)
    requires Apply(Div, l, r).Some?
    ensures Apply(Div, l, r).value * r == l
  {
  }

  /** The value of a displayed expression; the blank has none. */
  function Eval(e: Expr): Option<int>
  {
    match e
    case Lit(n) => Some(n)
    case Blank => None
    case Paren(inner) => Eval(inner)
    case Bin(op, l, r) =>
      var x, y := Eval(l), Eval(r);
      if x.Some? && y.Some? then Apply(op, x.value, y.value) else None
  }

  /** e with every blank replaced by the literal v. */
  function Plug(e: Expr, v: int): Expr
  {
    match e
    case Lit(n) => e
    case Blank => Lit(v)
    case Paren(inner) => Paren(Plug(inner, v))
    case Bin(op, l, r) => Bin(op, Plug(l, v), Plug(r, v))
  }

  /** The number of blanks in e. */
  function Blanks(e: Expr): nat
  {
    match e
    case Lit(_) => 0
    case Blank => 1
    case Paren(inner) => Blanks(inner)
    case Bin(_, l, r) => Blanks(l) + Blanks(r)
  }

  /** The literals of e, in reading order. */
  function Literals(e: Expr): seq<int>
  {
    match e
    case Lit(n) => [n]
    case Blank => []
    case Paren(inner) => Literals(inner)
    case Bin(_, l, r) => Literals(l) + Literals(r)
  }

  /** The printed statement is true once the answer is written in: the question
      evaluates to the answer, or the equation with the blank filled in
      evaluates to the stated result. */
  predicate Holds(p: Problem)
  {
    match p.display
    case Ask(e) => Eval(e) == Some(p.answer)
    case Fill(e, result) => Eval(Plug(e, p.answer)) == Some(result)
  }

  /** The printed statement is never false: it either holds or has no value
      at all (a division by zero). */
  predicate HoldsWhenDefined(p: Problem)
  {
    match p.display
    case Ask(e) => Eval(e).None? || Holds(p)
    case Fill(e, _) => Eval(Plug(e, p.answer)).None? || Holds(p)
  }

  /** The outermost operator of the printed expression, which is the operator
      a reader takes the problem to be about. */
  function Kind(p: Problem): Option<Op>
  {
    match p.display.e
    case Bin(op, _, _) => Some(op)
    case _ => None
  }

  // ---------------------------------------------------------------------------
  // Rendering
  // ---------------------------------------------------------------------------

  function Symbol(op: Op): string
  {
    match op
    case Add => "+"
    case Sub => "-"
    case Mul => "x"
    case Div => "÷"
  }

  predicate IsDigit(c: char)
  {
    '0' <= c <= '9'
  }

  function DigitChar(d: nat): (c: char)
    requires d < 10
    ensures IsDigit(c) && c as int - '0' as int == d
  {
    ('0' as int + d) as char
  }

  /** Decimal notation of a natural number, as Python's str() writes it. */
  function NatToString(n: nat): (s: string)
    ensures |s| > 0 && forall i :: 0 <= i < |s| ==> IsDigit(s[i])
    decreases n
  {
    if n < 10 then [DigitChar(n)] else NatToString(n / 10) + [DigitChar(n % 10)]
  }

  /** Decimal notation of an integer, with a leading '-' when negative. */
  function IntToString(n: int): (s: string)
    ensures |s| > 0
    ensures s[0] == '-' <==> n < 0
  {
    if n < 0 then "-" + NatToString(-n) else NatToString(n)
  }

  /** Reads back a string of decimal digits. */
  function ParseNat(s: string): nat
    requires forall i :: 0 <= i < |s| ==> IsDigit(s[i])
  {
    if s == [] then 0
    else
      assert IsDigit(s[|s| - 1]);
      10 * ParseNat(s[..|s| - 1]) + (s[|s| - 1] as int - '0' as int)
  }

  /** Reads back an optionally signed decimal integer. */
  function ParseInt(s: string): Option<int>
  {
    if |s| > 0 && s[0] == '-' then
      if forall i :: 1 <= i < |s| ==> IsDigit(s[i]) then Some(0 - ParseNat(s[1..]) as int) else None
    else if forall i :: 0 <= i < |s| ==> IsDigit(s[i]) then Some(ParseNat(s))
    else None
  }

  lemma {:induction false} ParseNatToString(n: nat)
    ensures ParseNat(NatToString(n)) == n
    decreases n
  {
    if n >= 10 {
      var s := NatToString(n / 10);
      var t := s + [DigitChar(n % 10)];
      assert t[..|t| - 1] == s;
      ParseNatToString(n / 10);
    }
  }

  /** Printed integers read back as the same integer. */
  lemma IntToStringRoundTrip(n: int)
    ensures ParseInt(IntToString(n)) == Some(n)
  {
    if n < 0 {
      var s := IntToString(n);
      assert s[1..] == NatToString(-n);
      ParseNatToString(-n);
    } else {
      ParseNatToString(n);
    }
  }

  function RenderExpr(e: Expr): string
  {
    match e
    case Lit(n) => IntToString(n)
    case Blank => "__"
    case Paren(inner) => "(" + RenderExpr(inner) + ")"
    case Bin(op, l, r) => RenderExpr(l) + " " + Symbol(op) + " " + RenderExpr(r)
  }

  /** The problem's display text: "e = " for a question, "e = result" for an equation. */
  function Text(p: Problem): (s: string)
    ensures |s| > 0
  {
    match p.display
    case Ask(e) => RenderExpr(e) + " = "
    case Fill(e, result) => RenderExpr(e) + " = " + IntToString(result)
  }
}
