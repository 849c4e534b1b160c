/**
 * Comparison and conjunction expressions over promises. A comparison resolves
 * each operand, when it is built, to a node reference or to an engine literal;
 * conjunctions combine expressions into an AND/OR tree. Nothing is evaluated
 * here: the finished tree is handed to the engine.
 */
module Expressions {
  import opened Foundation
  import opened Promises

  /** The members of the comparison operator enumeration. */
  datatype ComparisonOp = EQ | NE | GT | GTE | LT | LTE

  /** The members of the logical operator enumeration. */
  datatype ConjunctionOp = AND | OR

  /** A resolved comparison operand: a node reference or an engine literal. */
  datatype Side = NodeRef(output: NodeOutput) | Lit(literal: Literal)

  /**
   * A comparison stores its two resolved sides and its operator. A conjunction
   * stores the expression it was applied to, the logical operator and the
   * argument, which is never checked and may be any value.
   */
  datatype Expr =
    | Comparison(lhs: Side, op: ComparisonOp, rhs: Side)
    | Conjunction(left: Expr, conj: ConjunctionOp, right: Value)

  /** Any value an operator can receive: a promise, an expression or a native value. */
  datatype Value = PromiseV(promise: Promise) | ExprV(expr: Expr) | NativeV(native: NativeValue)

  /**
   * The engine's conversion of a value to a literal of the given type, with the
   * current context already applied; it may fail.
   */
  type Converter = (Value, SdkType) -> Result<Literal, string>

  predicate IsPendingPromise(v: Value) {
    v.PromiseV? && !IsReady(v.promise)
  }

  predicate IsReadyPromise(v: Value) {
    v.PromiseV? && IsReady(v.promise)
  }

  /** The node reference of a promise operand that is not ready. */
  function PendingRef(v: Value): NodeOutput
    requires IsPendingPromise(v)
  {
    v.promise.binding.output
  }

  /**
   * A side that was taken from a promise keeps its reference; any other side is
   * converted with the type found on the promise side.
   */
  function Resolve(convert: Converter, taken: Option<NodeOutput>, v: Value, ty: SdkType): (r: Result<Side, Error>)
    ensures taken.Some? ==> r == Success(NodeRef(taken.value))
    ensures taken.None? ==> (r.Success? <==> convert(v, ty).Success?)
    ensures taken.None? && r.Success? ==> r.value == Lit(convert(v, ty).value)
    ensures taken.None? && r.Failure? ==> r.error == ConversionFailed(convert(v, ty).error)
  {
    if taken.Some? then Success(NodeRef(taken.value))
    else
      match convert(v, ty)
      case Success(lit) => Success(Lit(lit))
      case Failure(reason) => Failure(ConversionFailed(reason))
  }

  /**
   * Builds a comparison `lhs op rhs`, following the checks of the comparison
   * constructor in order: a ready promise on the left, a ready promise on the
   * right, two promises of different declared types, no promise at all; then
   * each side that is not a promise is converted with the promise side's type.
   */
  function NewComparison(convert: Converter, lhs: Value, op: ComparisonOp, rhs: Value): (r: Result<Expr, Error>)
    // a ready promise may not take part in a comparison
    ensures IsReadyPromise(lhs) || IsReadyPromise(rhs) ==> r == Failure(CompletedPromiseComparison)
    // at least one operand must be a promise
    ensures !lhs.PromiseV? && !rhs.PromiseV? ==> r == Failure(NoPromiseOperand)
    // two pending promises: equal declared types give their two references, unequal ones fail
    ensures IsPendingPromise(lhs) && IsPendingPromise(rhs) ==>
      r == if PendingRef(lhs).sdkType == PendingRef(rhs).sdkType
           then Success(Comparison(NodeRef(PendingRef(lhs)), op, NodeRef(PendingRef(rhs))))
           else Failure(NonComparableTypes(PendingRef(lhs).varName, PendingRef(rhs).varName))
    // one pending promise: the other operand is converted with the promise's declared type
    ensures IsPendingPromise(lhs) && !rhs.PromiseV? ==>
      match convert(rhs, PendingRef(lhs).sdkType)
      case Success(lit) => r == Success(Comparison(NodeRef(PendingRef(lhs)), op, Lit(lit)))
      case Failure(reason) => r == Failure(ConversionFailed(reason))
    ensures !lhs.PromiseV? && IsPendingPromise(rhs) ==>
      match convert(lhs, PendingRef(rhs).sdkType)
      case Success(lit) => r == Success(Comparison(Lit(lit), op, NodeRef(PendingRef(rhs))))
      case Failure(reason) => r == Failure(ConversionFailed(reason))
    // what is built is a well-formed comparison carrying the operator unchanged
    ensures r.Success? ==> WellFormedComparison(r.value) && r.value.op == op
  {
    if IsReadyPromise(lhs) then Failure(CompletedPromiseComparison)
    else
      var lhsTaken := if lhs.PromiseV? then Some(PendingRef(lhs)) else None;
      var ty: Option<SdkType> := if lhs.PromiseV? then Some(PendingRef(lhs).sdkType) else None;
      if IsReadyPromise(rhs) then Failure(CompletedPromiseComparison)
      else if rhs.PromiseV? && ty.Some? && ty.value != PendingRef(rhs).sdkType then
        Failure(NonComparableTypes(lhsTaken.value.varName, PendingRef(rhs).varName))
      else
        var rhsTaken := if rhs.PromiseV? then Some(PendingRef(rhs)) else None;
        var ty := if rhs.PromiseV? then Some(PendingRef(rhs).sdkType) else ty;
        if ty.None? then Failure(NoPromiseOperand)
        else
          var l :- Resolve(convert, lhsTaken, lhs, ty.value);
          var r :- Resolve(convert, rhsTaken, rhs, ty.value);
          Success(Comparison(l, op, r))
  }

  /**
   * A comparison the engine can evaluate later: at least one side is a node
   * reference, and two references have the same declared type.
   */
  predicate WellFormedComparison(e: Expr) {
    && e.Comparison?
    && (e.lhs.NodeRef? || e.rhs.NodeRef?)
    && (e.lhs.NodeRef? && e.rhs.NodeRef? ==> e.lhs.output.sdkType == e.rhs.output.sdkType)
  }

  /** An operand that resolves to the given side: a pending promise for a reference, `n` otherwise. */
  function OperandFor(s: Side, n: NativeValue): (v: Value)
    ensures s.NodeRef? ==> IsPendingPromise(v) && PendingRef(v) == s.output
    ensures s.Lit? ==> v == NativeV(n)
  {
    match s
    case NodeRef(out) => PromiseV(Promise(out.varName, Deferred(out)))
    case Lit(_) => NativeV(n)
  }

  /**
   * The converse of the guarantee of `NewComparison`: every well-formed
   * comparison is what the constructor builds from some operands and some
   * conversion, so the constructor's checks reject nothing more than needed.
   */
  lemma {:induction false} WellFormedComparisonIsBuilt(c: Expr, n: NativeValue)
    requires WellFormedComparison(c)
    ensures exists convert: Converter, lhs: Value, rhs: Value :: NewComparison(convert, lhs, c.op, rhs) == Success(c)
  {
    if c.lhs.Lit? || c.rhs.Lit? {
      var convert: Converter := (v: Value, t: SdkType) => Success(if c.lhs.Lit? then c.lhs.literal else c.rhs.literal);
      var lhs, rhs := OperandFor(c.lhs, n), OperandFor(c.rhs, n);
      assert NewComparison(convert, lhs, c.op, rhs) == Success(c);
    } else {
      var convert: Converter := (v: Value, t: SdkType) => Failure("unused");
      var lhs, rhs := OperandFor(c.lhs, n), OperandFor(c.rhs, n);
      assert NewComparison(convert, lhs, c.op, rhs) == Success(c);
    }
  }
}
