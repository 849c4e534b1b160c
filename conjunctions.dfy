/**
 * The logical operators of comparison and conjunction expressions. `e & x` and
 * `e | x` never validate `x`: they build a new conjunction with `e` on the left.
 * Chaining them therefore grows a left-leaning tree whose leftmost leaf is the
 * first comparison and whose right children are the arguments in order.
 */
module Conjunctions {
  import opened Foundation
  import opened Expressions

  /** One chained operator application: the operator and its argument. */
  type Step = (ConjunctionOp, Value)

  /** The leftmost comparison of an expression tree. */
  function Head(e: Expr): (c: Expr)
    ensures c.Comparison?
    ensures e.Comparison? ==> c == e
    ensures e.Conjunction? ==> c == Head(e.left)
  {
    match e
    case Comparison(_, _, _) => e
    case Conjunction(left, _, _) => Head(left)
  }

  /** The operators and arguments applied, left to right, on top of the leftmost comparison. */
  function Spine(e: Expr): seq<Step> {
    match e
    case Comparison(_, _, _) => []
    case Conjunction(left, op, right) => Spine(left) + [(op, right)]
  }

  /** `e & other`, for a comparison or a conjunction `e`. */
  function And(e: Expr, other: Value): (r: Expr)
    ensures Head(r) == Head(e) && Spine(r) == Spine(e) + [(AND, other)]
  {
    Conjunction(e, AND, other)
  }

  /** `e | other`, for a comparison or a conjunction `e`. */
  function Or(e: Expr, other: Value): (r: Expr)
    ensures Head(r) == Head(e) && Spine(r) == Spine(e) + [(OR, other)]
  {
    Conjunction(e, OR, other)
  }

  /** Truth-value testing of a comparison or a conjunction always fails. */
  function ExprTruth(e: Expr): (r: Result<bool, Error>)
    ensures r == Failure(TruthValueTesting)
  {
    Failure(TruthValueTesting)
  }

  /** Applies one operator to an expression. */
  function Apply(e: Expr, step: Step): Expr {
    match step.0
    case AND => And(e, step.1)
    case OR => Or(e, step.1)
  }

  /** `start op1 x1 op2 x2 ...`, evaluated left to right as the host language does. */
  function Chain(start: Expr, steps: seq<Step>): Expr
    decreases |steps|
  {
    if steps == [] then start else Chain(Apply(start, steps[0]), steps[1..])
  }

  /** A chain keeps its first comparison at the far left and records every step, in order. */
  lemma {:induction false} ChainShape(start: Expr, steps: seq<Step>)
    ensures Head(Chain(start, steps)) == Head(start)
    ensures Spine(Chain(start, steps)) == Spine(start) + steps
    decreases |steps|
  {
    if steps != [] {
      var next := Apply(start, steps[0]);
      ChainShape(next, steps[1..]);
      assert Spine(next) == Spine(start) + [steps[0]];
      assert steps == [steps[0]] + steps[1..];
    }
  }

  /** Applying one more operator to a chain extends the chain by that step. */
  lemma {:induction false} ChainSnoc(start: Expr, steps: seq<Step>, step: Step)
    ensures Chain(start, steps + [step]) == Apply(Chain(start, steps), step)
    decreases |steps|
  {
    if steps == [] {
      assert steps + [step] == [step];
    } else {
      assert (steps + [step])[1..] == steps[1..] + [step];
      ChainSnoc(Apply(start, steps[0]), steps[1..], step);
    }
  }

  /**
   * Every expression tree is the chain of its spine applied to its leftmost
   * comparison, so `Head` and `Spine` lose nothing.
   */
  lemma {:induction false} ChainRebuilds(e: Expr)
    ensures Chain(Head(e), Spine(e)) == e
  {
    match e
    case Comparison(_, _, _) =>
    case Conjunction(left, op, right) =>
      ChainRebuilds(left);
      ChainSnoc(Head(left), Spine(left), (op, right));
  }

  /** Two chains from comparisons are equal only when they start alike and apply the same steps. */
  lemma {:induction false} ChainInjective(a: Expr, xs: seq<Step>, b: Expr, ys: seq<Step>)
    requires a.Comparison? && b.Comparison?
    requires Chain(a, xs) == Chain(b, ys)
    ensures a == b && xs == ys
  {
    ChainShape(a, xs);
    ChainShape(b, ys);
    assert Spine(a) + xs == xs && Spine(b) + ys == ys;
  }

  /**
   * `(a & b) | c` has OR at its root, the AND of `a` and `b` as left child and
   * `c` as right child; it is the chain of those two steps.
   */
  lemma {:induction false} AndThenOr(a: Expr, b: Expr, c: Value)
    ensures Or(And(a, ExprV(b)), c) == Conjunction(Conjunction(a, AND, ExprV(b)), OR, c)
    ensures Or(And(a, ExprV(b)), c) == Chain(a, [(AND, ExprV(b)), (OR, c)])
  {
    var steps: seq<Step> := [(AND, ExprV(b)), (OR, c)];
    assert steps[1..] == [(OR, c)] && steps[1..][1..] == [];
    assert Chain(a, steps) == Chain(And(a, ExprV(b)), [(OR, c)]);
    assert Chain(And(a, ExprV(b)), [(OR, c)]) == Chain(Or(And(a, ExprV(b)), c), []);
  }
}
