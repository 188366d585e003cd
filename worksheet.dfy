/** The worksheet assembler: which generator runs how many times for a mode,
    in which order, and the final shuffle. The random source is an explicit
    finite stream of draws (one record per generator attempt) plus the swap
    positions the shuffle draws. */
module Worksheet {
  import opened Problems
  import opened Generators

  const Rows: nat := 18
  const Cols: nat := 5
  /** 18 rows of 5 problems. */
  const TotalProblems: nat := Rows * Cols

  /** The part of the configuration the engine reads besides the number ranges
      (which only bound the draws). */
  datatype Config = Config(mode: string, noNegative: bool)

  /** One generator call of a worksheet. */
  datatype Slot = Base(op: Op) | Parens | FillIn

  /** The draws ran out before the worksheet was complete; this is the bounded
      stand-in for the parenthesised generator's unbounded retry. */
  datatype Fault = Exhausted

  datatype Result<T> = Success(value: T) | Failure(error: Fault)

  function Repeat<T>(x: T, n: nat): (r: seq<T>)
    ensures |r| == n && forall i :: 0 <= i < n ==> r[i] == x
  {
    seq(n, _ => x)
  }

  lemma {:induction false} MultisetRepeat<T>(x: T, n: nat)
    ensures multiset(Repeat(x, n)) == multiset{}[x := n]
  {
    if n > 0 {
      assert Repeat(x, n) == Repeat(x, n - 1) + [x];
      MultisetRepeat(x, n - 1);
    }
  }

  // ---------------------------------------------------------------------------
  // What a mode asks for
  // ---------------------------------------------------------------------------

  /** The generator calls a mode makes, in order. Mixed mode makes
      TotalProblems / 4 calls of each base generator in the order
      '+', '-', 'x', '÷' and pads with '+'; an unknown mode makes none. */
  function Plan(mode: string): seq<Slot>
  {
    if mode == "mixed" then
      var perType := TotalProblems / 4;
      Repeat(Base(Add), perType) + Repeat(Base(Sub), perType) + Repeat(Base(Mul), perType)
        + Repeat(Base(Div), perType) + Repeat(Base(Add), TotalProblems - 4 * perType)
    else if mode == "parens" then Repeat(Parens, TotalProblems)
    else if mode == "fill_blank" then Repeat(FillIn, TotalProblems)
    else if mode == "add" then Repeat(Base(Add), TotalProblems)
    else if mode == "sub" then Repeat(Base(Sub), TotalProblems)
    else if mode == "mul" then Repeat(Base(Mul), TotalProblems)
    else if mode == "div" then Repeat(Base(Div), TotalProblems)
    else []
  }

  predicate KnownMode(mode: string)
  {
    mode in {"add", "sub", "mul", "div", "mixed", "parens", "fill_blank"}
  }

  /** Every known mode asks for exactly 90 problems, any other mode for none. */
  lemma PlanSize(mode: string)
    ensures |Plan(mode)| == if KnownMode(mode) then 90 else 0
  {
  }

  /** Only parens mode calls the parenthesised generator. */
  lemma PlanWithoutParens(mode: string)
    requires mode != "parens"
    ensures forall i :: 0 <= i < |Plan(mode)| ==> !Plan(mode)[i].Parens?
  {
  }

  // ---------------------------------------------------------------------------
  // Running the generator calls on a stream of draws
  // ---------------------------------------------------------------------------

  // A run reads the draws in order. The parenthesised generator's attempt on
  // draw k has the outcome attempts[k]; a worksheet runs with
  // attempts == Attempts(draws, noNegative), and the base and
  // fill-in-the-blank calls never look at it.

  /** One generator call reading the draws from position k: the problem and the
      position after the draws it used, or None when the draws run out. */
  function Step(slot: Slot, draws: seq<Draw>, attempts: seq<Option<Problem>>, k: nat, noNegative: bool)
    : Option<(Problem, nat)>
  {
    if slot.Parens? then
      var (r, next) := FirstAccepted(attempts, k);
      if r.Some? then Some((r.value, next)) else None
    else if k >= |draws| then None
    else if slot.Base? then Some((BaseProblem(slot.op, draws[k].x, draws[k].y, noNegative), k + 1))
    else
      var d := draws[k];
      Some((FillBlank(d.op1, d.x, d.y, d.blankFirst, noNegative), k + 1))
  }

  datatype Outcome = Ran(problems: seq<Problem>, next: nat) | RanOut

  /** One more generator call after an outcome. */
  function Extend(o: Outcome, slot: Slot, draws: seq<Draw>, attempts: seq<Option<Problem>>, noNegative: bool): Outcome
  {
    if o.RanOut? then RanOut
    else
      var step := Step(slot, draws, attempts, o.next, noNegative);
      if step.None? then RanOut else Ran(o.problems + [step.value.0], step.value.1)
  }

  /** The first n generator calls of a plan made one after another: the
      problems they append and the position in the draws after them. */
  function RunTo(plan: seq<Slot>, n: nat, draws: seq<Draw>, attempts: seq<Option<Problem>>, noNegative: bool): Outcome
    requires n <= |plan|
    decreases n
  {
    if n == 0 then Ran([], 0)
    else Extend(RunTo(plan, n - 1, draws, attempts, noNegative), plan[n - 1], draws, attempts, noNegative)
  }

  /** All the generator calls of a plan, one after another, on a stream of draws. */
  function Run(plan: seq<Slot>, draws: seq<Draw>, noNegative: bool): Outcome
  {
    RunTo(plan, |plan|, draws, Attempts(draws, noNegative), noNegative)
  }

  /** The problem's outer operator is '-' with a bracketed right operand:
      "a - (b op1 c)". */
  predicate MinusBracketRight(p: Problem)
  {
    p.display.e.Bin? && p.display.e.op == Sub && p.display.e.right.Paren?
  }

  /** What a generator call promises of the problem it returns: a base
      question about its operator, never false, with no negative '-' answer
      under no_negative; a true parenthesised question whose "a - (..)" form
      has no negative answer under no_negative; a one-blank equation, never
      false, whose '-' result is not negative under no_negative. */
  predicate Produces(slot: Slot, p: Problem, noNegative: bool)
  {
    match slot
    case Base(op) =>
      && p.display.Ask? && Kind(p) == Some(op) && HoldsWhenDefined(p)
      && (op == Sub && noNegative ==> p.answer >= 0)
    case Parens =>
      && p.display.Ask? && Holds(p) && Kind(p).Some?
      && (MinusBracketRight(p) && noNegative ==> p.answer >= 0)
    case FillIn =>
      && p.display.Fill? && Blanks(p.display.e) == 1 && HoldsWhenDefined(p) && Kind(p).Some?
      && (Kind(p) == Some(Sub) && noNegative ==> p.display.result >= 0)
  }

  /** Every accepted attempt is a true question. */
  predicate SoundAttempts(attempts: seq<Option<Problem>>, noNegative: bool)
  {
    forall j :: 0 <= j < |attempts| && attempts[j].Some? ==> Produces(Parens, attempts[j].value, noNegative)
  }

  lemma AttemptsSound(draws: seq<Draw>, noNegative: bool)
    ensures SoundAttempts(Attempts(draws, noNegative), noNegative)
  {
    forall j | 0 <= j < |draws| && Attempts(draws, noNegative)[j].Some?
      ensures Produces(Parens, Attempts(draws, noNegative)[j].value, noNegative)
    {
      AttemptsAt(draws, noNegative, j);
      ParensAccepted(draws[j], noNegative);
    }
  }

  /** A call stays within the draws and uses at least one; a base or
      fill-in-the-blank call uses exactly one and fails only when none is left,
      and a parenthesised call fails only when no remaining attempt is
      accepted. */
  lemma StepUses(slot: Slot, draws: seq<Draw>, attempts: seq<Option<Problem>>, k: nat, noNegative: bool)
    requires k <= |draws| == |attempts|
    ensures var o := Step(slot, draws, attempts, k, noNegative);
      o.Some? ==> k < o.value.1 <= |draws|
    ensures !slot.Parens? ==> (Step(slot, draws, attempts, k, noNegative).Some? <==> k < |draws|)
    ensures slot.Parens? ==>
      (Step(slot, draws, attempts, k, noNegative).Some? <==> exists j :: k <= j < |attempts| && attempts[j].Some?)
    ensures !slot.Parens? && k < |draws| ==> Step(slot, draws, attempts, k, noNegative).value.1 == k + 1
  {
    if slot.Parens? {
      FirstAcceptedIsFirst(attempts, k);
      var (r, next) := FirstAccepted(attempts, k);
      if r.Some? {
        assert attempts[next - 1].Some?;
      }
    }
  }

  /** The problem a call returns is what the call promises. */
  lemma StepProduces(slot: Slot, draws: seq<Draw>, attempts: seq<Option<Problem>>, k: nat, noNegative: bool)
    requires k <= |draws| == |attempts| && SoundAttempts(attempts, noNegative)
    ensures var o := Step(slot, draws, attempts, k, noNegative);
      o.Some? ==> Produces(slot, o.value.0, noNegative)
  {
    if slot.Parens? {
      FirstAcceptedIsFirst(attempts, k);
    } else if k < |draws| && slot.Base? {
      BaseProblemSound(slot.op, draws[k].x, draws[k].y, noNegative);
    } else if k < |draws| {
      var d := draws[k];
      FillBlankSound(d.op1, d.x, d.y, d.blankFirst, noNegative);
    }
  }

  /** A run that completes returns one problem per call and stays within the
      draws. */
  lemma {:induction false} RunLength(plan: seq<Slot>, n: nat, draws: seq<Draw>, attempts: seq<Option<Problem>>,
                                     noNegative: bool)
    requires n <= |plan| && |attempts| == |draws|
    ensures var o := RunTo(plan, n, draws, attempts, noNegative);
      o.Ran? ==> |o.problems| == n && o.next <= |draws|
    decreases n
  {
    if n > 0 {
      RunLength(plan, n - 1, draws, attempts, noNegative);
      var o := RunTo(plan, n - 1, draws, attempts, noNegative);
      if o.Ran? {
        StepUses(plan[n - 1], draws, attempts, o.next, noNegative);
      }
    }
  }

  /** Every problem a run returns is what its generator call promises. */
  lemma {:induction false} RunProduces(plan: seq<Slot>, n: nat, draws: seq<Draw>, attempts: seq<Option<Problem>>,
                                       noNegative: bool)
    requires n <= |plan| && |attempts| == |draws| && SoundAttempts(attempts, noNegative)
    ensures var o := RunTo(plan, n, draws, attempts, noNegative);
      o.Ran? ==> |o.problems| == n && forall i :: 0 <= i < n ==> Produces(plan[i], o.problems[i], noNegative)
    decreases n
  {
    if n > 0 {
      RunProduces(plan, n - 1, draws, attempts, noNegative);
      RunLength(plan, n - 1, draws, attempts, noNegative);
      var o := RunTo(plan, n - 1, draws, attempts, noNegative);
      if o.Ran? {
        StepProduces(plan[n - 1], draws, attempts, o.next, noNegative);
      }
    }
  }

  /** A run whose calls are all base or fill-in-the-blank calls uses exactly
      one draw per call, so it completes whenever there are enough draws. */
  lemma {:induction false} RunCompletes(plan: seq<Slot>, n: nat, draws: seq<Draw>, attempts: seq<Option<Problem>>,
                                        noNegative: bool)
    requires n <= |plan| && n <= |draws| == |attempts|
    requires forall i :: 0 <= i < n ==> !plan[i].Parens?
    ensures RunTo(plan, n, draws, attempts, noNegative).Ran? && RunTo(plan, n, draws, attempts, noNegative).next == n
    decreases n
  {
    if n > 0 {
      RunCompletes(plan, n - 1, draws, attempts, noNegative);
      StepUses(plan[n - 1], draws, attempts, n - 1, noNegative);
    }
  }

  /** The number of accepted attempts among the first hi. */
  function AcceptedCount(attempts: seq<Option<Problem>>, hi: nat): (c: nat)
    requires hi <= |attempts|
    ensures c <= hi
  {
    if hi == 0 then 0 else AcceptedCount(attempts, hi - 1) + if attempts[hi - 1].Some? then 1 else 0
  }

  lemma {:induction false} AcceptedCountGrows(attempts: seq<Option<Problem>>, lo: nat, hi: nat)
    requires lo <= hi <= |attempts|
    ensures AcceptedCount(attempts, lo) <= AcceptedCount(attempts, hi)
    decreases hi - lo
  {
    if lo < hi {
      AcceptedCountGrows(attempts, lo, hi - 1);
    }
  }

  /** When every attempt is accepted, each one counts. */
  lemma {:induction false} AcceptedCountAll(attempts: seq<Option<Problem>>, hi: nat)
    requires hi <= |attempts| && forall j :: 0 <= j < hi ==> attempts[j].Some?
    ensures AcceptedCount(attempts, hi) == hi
  {
    if hi > 0 {
      AcceptedCountAll(attempts, hi - 1);
    }
  }

  /** A parenthesised call from position k consumes exactly one accepted
      attempt, or finds none left. */
  lemma {:induction false} FirstAcceptedCount(attempts: seq<Option<Problem>>, k: nat)
    requires k <= |attempts|
    ensures var (r, next) := FirstAccepted(attempts, k);
      && k <= next <= |attempts|
      && (r.Some? ==> AcceptedCount(attempts, next) == AcceptedCount(attempts, k) + 1)
      && (r.None? ==> AcceptedCount(attempts, |attempts|) == AcceptedCount(attempts, k))
    decreases |attempts| - k
  {
    if k < |attempts| && attempts[k].None? {
      FirstAcceptedCount(attempts, k + 1);
    }
  }

  /** A run of n parenthesised calls completes exactly when at least n
      attempts are accepted, and then stops right after the n-th. */
  lemma {:induction false} RunParensCompletes(plan: seq<Slot>, n: nat, draws: seq<Draw>,
                                              attempts: seq<Option<Problem>>, noNegative: bool)
    requires n <= |plan| && |attempts| == |draws|
    requires forall i :: 0 <= i < n ==> plan[i].Parens?
    ensures var o := RunTo(plan, n, draws, attempts, noNegative);
      && (o.Ran? <==> AcceptedCount(attempts, |attempts|) >= n)
      && (o.Ran? ==> o.next <= |attempts| && AcceptedCount(attempts, o.next) == n)
    decreases n
  {
    if n > 0 {
      RunParensCompletes(plan, n - 1, draws, attempts, noNegative);
      var o := RunTo(plan, n - 1, draws, attempts, noNegative);
      if o.Ran? {
        FirstAcceptedCount(attempts, o.next);
        var (r, next) := FirstAccepted(attempts, o.next);
        if r.Some? {
          AcceptedCountGrows(attempts, next, |attempts|);
        }
      }
    }
  }

  /** Once the draws have run out, the later calls change nothing. */
  lemma {:induction false} RanOutPersists(plan: seq<Slot>, m: nat, n: nat, draws: seq<Draw>,
                                          attempts: seq<Option<Problem>>, noNegative: bool)
    requires m <= n <= |plan| && RunTo(plan, m, draws, attempts, noNegative) == RanOut
    ensures RunTo(plan, n, draws, attempts, noNegative) == RanOut
    decreases n
  {
    if n > m {
      RanOutPersists(plan, m, n - 1, draws, attempts, noNegative);
    }
  }

  /** The mixed plan, position by position. */
  lemma MixedPlanAt(i: nat)
    requires i < TotalProblems
    ensures Plan("mixed")[i] ==
      if i < 22 then Base(Add) else if i < 44 then Base(Sub) else if i < 66 then Base(Mul)
      else if i < 88 then Base(Div) else Base(Add)
  {
  }

  /** problems followed by one problem of the op generator for each draw in
      draws[lo..hi], in draw order. */
  function Appended(problems: seq<Problem>, op: Op, draws: seq<Draw>, lo: nat, hi: nat,
                    noNegative: bool): (ps: seq<Problem>)
    requires lo <= hi <= |draws|
    ensures |ps| == |problems| + (hi - lo)
    decreases hi
  {
    if hi == lo then problems
    else Appended(problems, op, draws, lo, hi - 1, noNegative) + [BaseProblem(op, draws[hi - 1].x, draws[hi - 1].y, noNegative)]
  }

  /** Appending keeps the earlier problems and adds exactly one problem per
      draw, the one the generator makes from that draw. */
  lemma {:induction false} AppendedAt(problems: seq<Problem>, op: Op, draws: seq<Draw>, lo: nat, hi: nat,
                                      noNegative: bool)
    requires lo <= hi <= |draws|
    ensures var ps := Appended(problems, op, draws, lo, hi, noNegative);
      && ps[..|problems|] == problems
      && forall i :: |problems| <= i < |ps| ==>
           ps[i] == BaseProblem(op, draws[lo + i - |problems|].x, draws[lo + i - |problems|].y, noNegative)
    decreases hi
  {
    if hi > lo {
      AppendedAt(problems, op, draws, lo, hi - 1, noNegative);
    }
  }

  /** One more base generator call extends a run by that generator's problem
      on the next draw, or ends it when there is none. */
  lemma ExtendBase(plan: seq<Slot>, n: nat, op: Op, draws: seq<Draw>, attempts: seq<Option<Problem>>,
                   noNegative: bool, problems: seq<Problem>, next: nat)
    requires 0 < n <= |plan| && plan[n - 1] == Base(op)
    requires RunTo(plan, n - 1, draws, attempts, noNegative) == Ran(problems, next)
    ensures RunTo(plan, n, draws, attempts, noNegative) ==
      if next < |draws| then Ran(problems + [BaseProblem(op, draws[next].x, draws[next].y, noNegative)], next + 1)
      else RanOut
  {
  }

  /** count consecutive calls of one base generator, with enough draws left,
      append one problem from each of the next count draws. */
  lemma {:induction false} RunBaseBlockRan(plan: seq<Slot>, lo: nat, count: nat, op: Op, draws: seq<Draw>,
                                           attempts: seq<Option<Problem>>, noNegative: bool,
                                           problems: seq<Problem>, next: nat)
    requires lo + count <= |plan| && next + count <= |draws|
    requires forall i :: lo <= i < lo + count ==> plan[i] == Base(op)
    requires RunTo(plan, lo, draws, attempts, noNegative) == Ran(problems, next)
    ensures RunTo(plan, lo + count, draws, attempts, noNegative) ==
      Ran(Appended(problems, op, draws, next, next + count, noNegative), next + count)
    decreases count
  {
    if count > 0 {
      RunBaseBlockRan(plan, lo, count - 1, op, draws, attempts, noNegative, problems, next);
      ExtendBase(plan, lo + count, op, draws, attempts, noNegative,
                 Appended(problems, op, draws, next, next + count - 1, noNegative), next + count - 1);
    }
  }

  /** count consecutive calls of one base generator use the next count draws,
      one problem from each, or run out when fewer remain. */
  lemma RunBaseBlock(plan: seq<Slot>, lo: nat, count: nat, op: Op, draws: seq<Draw>,
                     attempts: seq<Option<Problem>>, noNegative: bool, problems: seq<Problem>, next: nat)
    requires lo + count <= |plan| && next <= |draws|
    requires forall i :: lo <= i < lo + count ==> plan[i] == Base(op)
    requires RunTo(plan, lo, draws, attempts, noNegative) == Ran(problems, next)
    ensures RunTo(plan, lo + count, draws, attempts, noNegative) ==
      if next + count <= |draws| then Ran(Appended(problems, op, draws, next, next + count, noNegative), next + count)
      else RanOut
  {
    if next + count > |draws| {
      // the calls before the one that finds the draws used up
      var left := |draws| - next;
      RunBaseBlockRan(plan, lo, left, op, draws, attempts, noNegative, problems, next);
      var before := Appended(problems, op, draws, next, |draws|, noNegative);
      ExtendBase(plan, lo + left + 1, op, draws, attempts, noNegative, before, |draws|);
      RanOutPersists(plan, lo + left + 1, lo + count, draws, attempts, noNegative);
    } else {
      RunBaseBlockRan(plan, lo, count, op, draws, attempts, noNegative, problems, next);
    }
  }

  // ---------------------------------------------------------------------------
  // The shuffle
  // ---------------------------------------------------------------------------

  function Swap<T>(s: seq<T>, i: nat, j: nat): (t: seq<T>)
    requires i < |s| && j < |s|
    ensures |t| == |s| && multiset(t) == multiset(s)
  {
    s[i := s[j]][j := s[i]]
  }

  /** The positions Python's Fisher-Yates shuffle draws: for position i the
      partner is at most i. */
  predicate SwapDraws(js: seq<nat>)
  {
    forall i :: 0 <= i < |js| ==> js[i] <= i
  }

  /** The shuffle's swaps for positions i - 1 down to 1, position p swapped
      with js[p]. */
  function Shuffled<T>(s: seq<T>, js: seq<nat>, i: nat): seq<T>
    requires i <= |s| && i <= |js| && SwapDraws(js)
    decreases i
  {
    if i <= 1 then s else Shuffled(Swap(s, i - 1, js[i - 1]), js, i - 1)
  }

  /** The shuffle is a permutation. */
  lemma {:induction false} ShuffledPermutes<T>(s: seq<T>, js: seq<nat>, i: nat)
    requires i <= |s| && i <= |js| && SwapDraws(js)
    ensures |Shuffled(s, js, i)| == |s| && multiset(Shuffled(s, js, i)) == multiset(s)
    decreases i
  {
    if i > 1 {
      ShuffledPermutes(Swap(s, i - 1, js[i - 1]), js, i - 1);
    }
  }

  /** The operator of each problem, in worksheet order. */
  function Kinds(ps: seq<Problem>): (ks: seq<Option<Op>>)
    ensures |ks| == |ps| && forall i :: 0 <= i < |ps| ==> ks[i] == Kind(ps[i])
  {
    seq(|ps|, i requires 0 <= i < |ps| => Kind(ps[i]))
  }

  lemma KindsSwap(s: seq<Problem>, i: nat, j: nat)
    requires i < |s| && j < |s|
    ensures Kinds(Swap(s, i, j)) == Swap(Kinds(s), i, j)
  {
    var a, b := Kinds(Swap(s, i, j)), Swap(Kinds(s), i, j);
    forall k | 0 <= k < |a|
      ensures a[k] == b[k]
    {
    }
  }

  /** Shuffling problems shuffles their operators the same way. */
  lemma {:induction false} ShuffledKinds(s: seq<Problem>, js: seq<nat>, i: nat)
    requires i <= |s| && i <= |js| && SwapDraws(js)
    ensures Kinds(Shuffled(s, js, i)) == Shuffled(Kinds(s), js, i)
    decreases i
  {
    if i > 1 {
      var t := Swap(s, i - 1, js[i - 1]);
      KindsSwap(s, i - 1, js[i - 1]);
      ShuffledKinds(t, js, i - 1);
    }
  }

  /** Python's in-place random.shuffle on the draws js. */
  method Shuffle<T>(s: seq<T>, js: seq<nat>) returns (t: seq<T>)
    requires |s| <= |js| && SwapDraws(js)
    ensures t == Shuffled(s, js, |s|)
  {
    t := s;
    var i: nat := |s|;
    while i > 1
      invariant i <= |t| == |s|
      invariant Shuffled(t, js, i) == Shuffled(s, js, |s|)
    {
      i := i - 1;
      var j := js[i];
      t := t[i := t[j]][j := t[i]];
    }
  }

  // ---------------------------------------------------------------------------
  // The worksheet
  // ---------------------------------------------------------------------------

  /** The worksheet a configuration yields on the given draws: the mode's
      generator calls run in order, then shuffled. */
  function Generated(cfg: Config, draws: seq<Draw>, swaps: seq<nat>): Result<seq<Problem>>
    requires |swaps| == TotalProblems && SwapDraws(swaps)
  {
    var o := Run(Plan(cfg.mode), draws, cfg.noNegative);
    if o.RanOut? then Failure(Exhausted)
    else
      RunLength(Plan(cfg.mode), |Plan(cfg.mode)|, draws, Attempts(draws, cfg.noNegative), cfg.noNegative);
      PlanSize(cfg.mode);
      Success(Shuffled(o.problems, swaps, |o.problems|))
  }

  /** The worksheet has as many problems as the mode asks for (90, or none for
      an unknown mode), it is a permutation of the generated problems, and it
      always comes out when no parenthesised problems are asked for and there
      is a draw for every problem. In parens mode it comes out exactly when at
      least 90 of the attempts on the draws are accepted, so in particular
      when there are 90 draws and every attempt on them is accepted; an
      unknown mode yields the empty worksheet whatever the draws. */
  lemma GeneratedSize(cfg: Config, draws: seq<Draw>, swaps: seq<nat>)
    requires |swaps| == TotalProblems && SwapDraws(swaps)
    ensures var r := Generated(cfg, draws, swaps);
      && (r.Success? ==> |r.value| == if KnownMode(cfg.mode) then 90 else 0)
      && (r.Success? ==> multiset(r.value) == multiset(Run(Plan(cfg.mode), draws, cfg.noNegative).problems))
      && (cfg.mode != "parens" && |draws| >= TotalProblems ==> r.Success?)
      && (cfg.mode == "parens" ==>
            (r.Success? <==> AcceptedCount(Attempts(draws, cfg.noNegative), |draws|) >= TotalProblems))
      && ((cfg.mode == "parens" && |draws| >= TotalProblems
           && forall j :: 0 <= j < |draws| ==> ParensAttempt(draws[j], cfg.noNegative).Some?) ==> r.Success?)
      && (!KnownMode(cfg.mode) ==> r == Success([]))
  {
    var plan, attempts := Plan(cfg.mode), Attempts(draws, cfg.noNegative);
    PlanSize(cfg.mode);
    RunLength(plan, |plan|, draws, attempts, cfg.noNegative);
    var o := Run(plan, draws, cfg.noNegative);
    if o.Ran? {
      ShuffledPermutes(o.problems, swaps, |o.problems|);
    }
    if cfg.mode != "parens" && |draws| >= TotalProblems {
      PlanWithoutParens(cfg.mode);
      RunCompletes(plan, |plan|, draws, attempts, cfg.noNegative);
    }
    if cfg.mode == "parens" {
      ParensModeCompletes(draws, cfg.noNegative);
      if |draws| >= TotalProblems && forall j :: 0 <= j < |draws| ==> ParensAttempt(draws[j], cfg.noNegative).Some? {
        AllAccepted(draws, cfg.noNegative);
      }
    }
  }

  /** When every attempt on the draws is accepted, each of them counts. */
  lemma AllAccepted(draws: seq<Draw>, noNegative: bool)
    requires forall j :: 0 <= j < |draws| ==> ParensAttempt(draws[j], noNegative).Some?
    ensures AcceptedCount(Attempts(draws, noNegative), |draws|) == |draws|
  {
    var attempts := Attempts(draws, noNegative);
    forall j | 0 <= j < |draws|
      ensures attempts[j].Some?
    {
      AttemptsAt(draws, noNegative, j);
    }
    AcceptedCountAll(attempts, |draws|);
  }

  /** Parens mode completes exactly when at least 90 attempts are accepted. */
  lemma ParensModeCompletes(draws: seq<Draw>, noNegative: bool)
    ensures Run(Plan("parens"), draws, noNegative).Ran? <==> AcceptedCount(Attempts(draws, noNegative), |draws|) >= TotalProblems
  {
    var plan := Plan("parens");
    assert |plan| == TotalProblems && forall i :: 0 <= i < |plan| ==> plan[i].Parens?;
    RunParensCompletes(plan, |plan|, draws, Attempts(draws, noNegative), noNegative);
  }

  /** A shuffled run holds only problems its calls promise. */
  lemma ShuffledProduced(plan: seq<Slot>, ps: seq<Problem>, swaps: seq<nat>, noNegative: bool)
    requires |ps| == |plan| <= |swaps| && SwapDraws(swaps)
    requires forall i :: 0 <= i < |ps| ==> Produces(plan[i], ps[i], noNegative)
    ensures forall p :: p in Shuffled(ps, swaps, |ps|) ==>
      exists i :: 0 <= i < |plan| && Produces(plan[i], p, noNegative)
  {
    ShuffledPermutes(ps, swaps, |ps|);
    forall p | p in Shuffled(ps, swaps, |ps|)
      ensures exists i :: 0 <= i < |plan| && Produces(plan[i], p, noNegative)
    {
      assert p in multiset(ps);
      var i :| 0 <= i < |ps| && ps[i] == p;
      assert Produces(plan[i], p, noNegative);
    }
  }

  /** Every problem on a worksheet is what one of the mode's generator calls
      promises. */
  lemma GeneratedProduced(cfg: Config, draws: seq<Draw>, swaps: seq<nat>)
    requires |swaps| == TotalProblems && SwapDraws(swaps)
    requires Generated(cfg, draws, swaps).Success?
    ensures forall p :: p in Generated(cfg, draws, swaps).value ==>
      exists i :: 0 <= i < |Plan(cfg.mode)| && Produces(Plan(cfg.mode)[i], p, cfg.noNegative)
  {
    var plan, attempts := Plan(cfg.mode), Attempts(draws, cfg.noNegative);
    var o := Run(plan, draws, cfg.noNegative);
    AttemptsSound(draws, cfg.noNegative);
    RunProduces(plan, |plan|, draws, attempts, cfg.noNegative);
    PlanSize(cfg.mode);
    ShuffledProduced(plan, o.problems, swaps, cfg.noNegative);
  }

  /** Every problem on a worksheet is never a false statement, and in parens
      mode every one is true. Under no_negative: in sub mode no answer is
      negative; outside parens mode no '-' question (sub or mixed mode) has a
      negative answer; no '-' equation (fill_blank mode) shows a negative
      result; and no "a - (..)" question (parens mode) has a negative answer. */
  lemma GeneratedSound(cfg: Config, draws: seq<Draw>, swaps: seq<nat>)
    requires |swaps| == TotalProblems && SwapDraws(swaps)
    requires Generated(cfg, draws, swaps).Success?
    ensures forall p :: p in Generated(cfg, draws, swaps).value ==>
      && HoldsWhenDefined(p)
      && (cfg.mode == "parens" ==> Holds(p))
      && (cfg.mode == "sub" && cfg.noNegative ==> p.answer >= 0)
      && (cfg.noNegative && cfg.mode != "parens" && p.display.Ask? && Kind(p) == Some(Sub) ==> p.answer >= 0)
      && (cfg.noNegative && p.display.Fill? && Kind(p) == Some(Sub) ==> p.display.result >= 0)
      && (cfg.noNegative && p.display.Ask? && MinusBracketRight(p) ==> p.answer >= 0)
  {
    var plan := Plan(cfg.mode);
    GeneratedProduced(cfg, draws, swaps);
    if cfg.mode != "parens" {
      PlanWithoutParens(cfg.mode);
    }
    forall p | p in Generated(cfg, draws, swaps).value
      ensures HoldsWhenDefined(p)
      ensures cfg.mode == "parens" ==> Holds(p)
      ensures cfg.mode == "sub" && cfg.noNegative ==> p.answer >= 0
      ensures cfg.noNegative && cfg.mode != "parens" && p.display.Ask? && Kind(p) == Some(Sub) ==> p.answer >= 0
      ensures cfg.noNegative && p.display.Fill? && Kind(p) == Some(Sub) ==> p.display.result >= 0
      ensures cfg.noNegative && p.display.Ask? && MinusBracketRight(p) ==> p.answer >= 0
    {
      var i :| 0 <= i < |plan| && Produces(plan[i], p, cfg.noNegative);
      if cfg.mode == "parens" {
        assert plan[i] == Parens;
      } else if cfg.mode == "sub" {
        assert plan[i] == Base(Sub);
      }
    }
  }

  /** Before the shuffle, mixed mode lists 22 '+', 22 '-', 22 'x', 22 '÷' and
      then 2 more '+'. */
  lemma MixedOrder(ps: seq<Problem>, noNegative: bool)
    requires |ps| == |Plan("mixed")|
    requires forall i :: 0 <= i < |ps| ==> Produces(Plan("mixed")[i], ps[i], noNegative)
    ensures Kinds(ps) == Repeat(Some(Add), 22) + Repeat(Some(Sub), 22) + Repeat(Some(Mul), 22)
      + Repeat(Some(Div), 22) + Repeat(Some(Add), 2)
  {
  }

  lemma MixedCounts()
    ensures multiset(Repeat(Some(Add), 22) + Repeat(Some(Sub), 22) + Repeat(Some(Mul), 22)
      + Repeat(Some(Div), 22) + Repeat(Some(Add), 2)) ==
      multiset{}[Some(Add) := 24][Some(Sub) := 22][Some(Mul) := 22][Some(Div) := 22]
  {
    MultisetRepeat(Some(Add), 22);
    MultisetRepeat(Some(Sub), 22);
    MultisetRepeat(Some(Mul), 22);
    MultisetRepeat(Some(Div), 22);
    MultisetRepeat(Some(Add), 2);
  }

  /** Mixed mode yields 24 addition, 22 subtraction, 22 multiplication and 22
      division problems, in whatever order the shuffle leaves them. */
  lemma MixedComposition(cfg: Config, draws: seq<Draw>, swaps: seq<nat>)
    requires |swaps| == TotalProblems && SwapDraws(swaps)
    requires cfg.mode == "mixed" && Generated(cfg, draws, swaps).Success?
    ensures multiset(Kinds(Generated(cfg, draws, swaps).value)) ==
      multiset{}[Some(Add) := 24][Some(Sub) := 22][Some(Mul) := 22][Some(Div) := 22]
  {
    var ps := Run(Plan("mixed"), draws, cfg.noNegative).problems;
    AttemptsSound(draws, cfg.noNegative);
    RunProduces(Plan("mixed"), |Plan("mixed")|, draws, Attempts(draws, cfg.noNegative), cfg.noNegative);
    MixedOrder(ps, cfg.noNegative);
    MixedCounts();
    ShuffledKinds(ps, swaps, |ps|);
    ShuffledPermutes(Kinds(ps), swaps, |ps|);
  }

  /** count calls of one base generator appended to the problems so far,
      reading the draws from next: the loop of each branch that repeats a
      single generator. */
  method AppendBase(op: Op, count: nat, draws: seq<Draw>, noNegative: bool,
                    problems: seq<Problem>, next: nat) returns (o: Outcome)
    requires next <= |draws|
    ensures o == if next + count <= |draws|
      then Ran(Appended(problems, op, draws, next, next + count, noNegative), next + count)
      else RanOut
  {
    var ps: seq<Problem>, k: nat := problems, next;
    for i := 0 to count
      invariant k == next + i <= |draws|
      invariant ps == Appended(problems, op, draws, next, k, noNegative)
    {
      if k >= |draws| {
        return RanOut;
      }
      var d := draws[k];
      ps, k := ps + [BaseProblem(op, d.x, d.y, noNegative)], k + 1;
    }
    o := Ran(ps, k);
  }

  /** The generator calls of mixed mode, position by position. */
  predicate MixedShape(plan: seq<Slot>)
  {
    && |plan| == TotalProblems
    && forall i :: 0 <= i < |plan| ==>
         plan[i] == if i < 22 then Base(Add) else if i < 44 then Base(Sub) else if i < 66 then Base(Mul)
                    else if i < 88 then Base(Div) else Base(Add)
  }

  lemma MixedPlanShape()
    ensures MixedShape(Plan("mixed"))
  {
    forall i | 0 <= i < TotalProblems
      ensures Plan("mixed")[i] == if i < 22 then Base(Add) else if i < 44 then Base(Sub)
        else if i < 66 then Base(Mul) else if i < 88 then Base(Div) else Base(Add)
    {
      MixedPlanAt(i);
    }
  }

  /** A block of count calls of one base generator, from call lo of a plan
      on: the run after them, given the run before them. */
  method AppendBlock(ghost plan: seq<Slot>, lo: nat, op: Op, count: nat, draws: seq<Draw>,
                     ghost attempts: seq<Option<Problem>>, noNegative: bool, before: Outcome) returns (o: Outcome)
    requires lo + count <= |plan| && |attempts| == |draws|
    requires forall i :: lo <= i < lo + count ==> plan[i] == Base(op)
    requires RunTo(plan, lo, draws, attempts, noNegative) == before
    ensures o == RunTo(plan, lo + count, draws, attempts, noNegative)
  {
    if before.RanOut? {
      RanOutPersists(plan, lo, lo + count, draws, attempts, noNegative);
      return RanOut;
    }
    RunLength(plan, lo, draws, attempts, noNegative);
    RunBaseBlock(plan, lo, count, op, draws, attempts, noNegative, before.problems, before.next);
    o := AppendBase(op, count, draws, noNegative, before.problems, before.next);
  }

  /** Additions appended until the list holds total problems: the padding
      loop of mixed mode. */
  method PadWithAdditions(total: nat, draws: seq<Draw>, noNegative: bool,
                          problems: seq<Problem>, next: nat) returns (o: Outcome)
    requires |problems| <= total && next <= |draws|
    ensures var count := total - |problems|;
      o == if next + count <= |draws|
        then Ran(Appended(problems, Add, draws, next, next + count, noNegative), next + count)
        else RanOut
  {
    var ps: seq<Problem>, k: nat := problems, next;
    while |ps| < total
      invariant |problems| <= |ps| <= total
      invariant k == next + (|ps| - |problems|) <= |draws|
      invariant ps == Appended(problems, Add, draws, next, k, noNegative)
    {
      if k >= |draws| {
        return RanOut;
      }
      var d := draws[k];
      ps, k := ps + [Addition(d.x, d.y)], k + 1;
    }
    o := Ran(ps, k);
  }

  /** The padding calls at the end of a plan of total calls, from call lo on. */
  method PadBlock(ghost plan: seq<Slot>, lo: nat, total: nat, draws: seq<Draw>,
                  ghost attempts: seq<Option<Problem>>, noNegative: bool, before: Outcome) returns (o: Outcome)
    requires lo <= |plan| == total && |attempts| == |draws|
    requires forall i :: lo <= i < total ==> plan[i] == Base(Add)
    requires RunTo(plan, lo, draws, attempts, noNegative) == before
    ensures o == RunTo(plan, total, draws, attempts, noNegative)
  {
    if before.RanOut? {
      RanOutPersists(plan, lo, total, draws, attempts, noNegative);
      return RanOut;
    }
    RunLength(plan, lo, draws, attempts, noNegative);
    RunBaseBlock(plan, lo, total - lo, Add, draws, attempts, noNegative, before.problems, before.next);
    o := PadWithAdditions(total, draws, noNegative, before.problems, before.next);
  }

  /** The mixed branch of generate_problems: TotalProblems / 4 problems of
      each base kind in the order '+', '-', 'x', '÷', then additions while the
      list is short of TotalProblems. The plan is the mixed mode's, passed in
      as a ghost. No parenthesised attempt is made, so the run is the same
      whatever their outcomes would be. */
  method RunMixed(ghost plan: seq<Slot>, draws: seq<Draw>, ghost attempts: seq<Option<Problem>>, noNegative: bool)
    returns (o: Outcome)
    requires MixedShape(plan) && |attempts| == |draws|
    ensures o == RunTo(plan, |plan|, draws, attempts, noNegative)
  {
    var total := TotalProblems;
    var perType := total / 4;
    assert perType == 22;
    o := AppendBlock(plan, 0, Add, perType, draws, attempts, noNegative, Ran([], 0));
    o := AppendBlock(plan, perType, Sub, perType, draws, attempts, noNegative, o);
    o := AppendBlock(plan, 2 * perType, Mul, perType, draws, attempts, noNegative, o);
    o := AppendBlock(plan, 3 * perType, Div, perType, draws, attempts, noNegative, o);
    o := PadBlock(plan, 4 * perType, total, draws, attempts, noNegative, o);
  }

  /** The parens branch of generate_problems: TotalProblems parenthesised
      problems, each retried until accepted. */
  method RunParens(draws: seq<Draw>, noNegative: bool) returns (o: Outcome)
    ensures o == Run(Plan("parens"), draws, noNegative)
  {
    ghost var plan, attempts := Plan("parens"), Attempts(draws, noNegative);
    var problems: seq<Problem> := [];
    var next: nat := 0;
    for i := 0 to TotalProblems
      invariant |problems| == i
      invariant RunTo(plan, |problems|, draws, attempts, noNegative) == Ran(problems, next)
    {
      var p, after := GenerateParentheses(draws, next, noNegative);
      if p.None? { RanOutPersists(plan, |problems| + 1, |plan|, draws, attempts, noNegative); return RanOut; }
      problems, next := problems + [p.value], after;
    }
    o := Ran(problems, next);
  }

  /** The fill_blank branch of generate_problems; it makes no parenthesised
      attempt, so its run is the same whatever their outcomes would be. */
  method RunFillBlank(draws: seq<Draw>, ghost attempts: seq<Option<Problem>>, noNegative: bool) returns (o: Outcome)
    ensures o == RunTo(Plan("fill_blank"), TotalProblems, draws, attempts, noNegative)
  {
    ghost var plan := Plan("fill_blank");
    var problems: seq<Problem> := [];
    var next: nat := 0;
    for i := 0 to TotalProblems
      invariant |problems| == i
      invariant RunTo(plan, |problems|, draws, attempts, noNegative) == Ran(problems, next)
    {
      if next >= |draws| { RanOutPersists(plan, |problems| + 1, |plan|, draws, attempts, noNegative); return RanOut; }
      var d := draws[next];
      problems, next := problems + [FillBlank(d.op1, d.x, d.y, d.blankFirst, noNegative)], next + 1;
    }
    o := Ran(problems, next);
  }

  /** The operator a single-operator mode names. */
  function ModeOp(mode: string): Op
    requires mode in {"add", "sub", "mul", "div"}
  {
    if mode == "add" then Add else if mode == "sub" then Sub else if mode == "mul" then Mul else Div
  }

  /** A single-operator mode asks for TotalProblems calls of its generator. */
  lemma OperatorPlan(mode: string)
    requires mode in {"add", "sub", "mul", "div"}
    ensures Plan(mode) == Repeat(Base(ModeOp(mode)), TotalProblems)
  {
  }

  /** The last branch of generate_problems: TotalProblems rounds, each calling
      the base generator the mode names; a mode naming none appends nothing.
      No parenthesised attempt is made, so the run is the same whatever their
      outcomes would be. */
  method RunOther(mode: string, draws: seq<Draw>, ghost attempts: seq<Option<Problem>>, noNegative: bool)
    returns (o: Outcome)
    requires mode !in {"mixed", "parens", "fill_blank"}
    ensures o == RunTo(Plan(mode), |Plan(mode)|, draws, attempts, noNegative)
  {
    ghost var plan := Plan(mode);
    var known := mode in {"add", "sub", "mul", "div"};
    if known { OperatorPlan(mode); } else { assert plan == []; }
    var problems: seq<Problem> := [];
    var next: nat := 0;
    for i := 0 to TotalProblems
      invariant |problems| == if known then i else 0
      invariant RunTo(plan, |problems|, draws, attempts, noNegative) == Ran(problems, next)
    {
      if known {
        ExtendBase(plan, |problems| + 1, ModeOp(mode), draws, attempts, noNegative, problems, next);
        if next >= |draws| { RanOutPersists(plan, |problems| + 1, |plan|, draws, attempts, noNegative); return RanOut; }
        var d := draws[next];
        var p: Problem;
        if mode == "add" {
          p := Addition(d.x, d.y);
        } else if mode == "sub" {
          p := Subtraction(d.x, d.y, noNegative);
        } else if mode == "mul" {
          p := Multiplication(d.x, d.y);
        } else {
          p := Division(d.x, d.y);
        }
        assert p == BaseProblem(ModeOp(mode), d.x, d.y, noNegative);
        problems, next := problems + [p], next + 1;
      }
    }
    o := Ran(problems, next);
  }

  /** generate_problems: the mode's problems appended in order, then shuffled. */
  method GenerateProblems(cfg: Config, draws: seq<Draw>, swaps: seq<nat>) returns (r: Result<seq<Problem>>)
    requires |swaps| == TotalProblems && SwapDraws(swaps)
    ensures r == Generated(cfg, draws, swaps)
  {
    var mode := cfg.mode;
    ghost var attempts := Attempts(draws, cfg.noNegative);
    var o: Outcome;
    if mode == "mixed" {
      MixedPlanShape();
      o := RunMixed(Plan(mode), draws, attempts, cfg.noNegative);
    } else if mode == "parens" {
      o := RunParens(draws, cfg.noNegative);
    } else if mode == "fill_blank" {
      o := RunFillBlank(draws, attempts, cfg.noNegative);
    } else {
      o := RunOther(mode, draws, attempts, cfg.noNegative);
    }
    if o.RanOut? {
      return Failure(Exhausted);
    }
    RunLength(Plan(mode), |Plan(mode)|, draws, attempts, cfg.noNegative);
    PlanSize(mode);
    var problems := Shuffle(o.problems, swaps);
    r := Success(problems);
  }
}
