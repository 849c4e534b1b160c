/**
 * The operators of a promise. The six rich comparisons each name a member of
 * the comparison operator enumeration; four of them build a comparison with the
 * promise on the left, while `>=` and `<=` name members that do not exist and
 * fail. The logical operators always fail.
 */
module PromiseOperators {
  import opened Foundation
  import opened Promises
  import opened Expressions

  /** The six rich comparison methods of a promise: `==`, `!=`, `>`, `>=`, `<`, `<=`. */
  datatype RichComparison = Eq | Ne | Gt | Ge | Lt | Le

  /** The name under which each member of the comparison enumeration is declared. */
  function MemberName(op: ComparisonOp): string {
    match op
    case EQ => "EQ"
    case NE => "NE"
    case GT => "GT"
    case GTE => "GTE"
    case LT => "LT"
    case LTE => "LTE"
  }

  /** Attribute lookup on the comparison enumeration: the member declared under `name`, if any. */
  function LookupMember(name: string): (r: Option<ComparisonOp>)
    ensures r.Some? ==> MemberName(r.value) == name
    ensures r.None? <==> forall op: ComparisonOp :: MemberName(op) != name
  {
    if name == "EQ" then Some(EQ)
    else if name == "NE" then Some(NE)
    else if name == "GT" then Some(GT)
    else if name == "GTE" then Some(GTE)
    else if name == "LT" then Some(LT)
    else if name == "LTE" then Some(LTE)
    else None
  }

  /** The member name each comparison method of a promise spells out. */
  function NameUsedBy(m: RichComparison): string {
    match m
    case Eq => "EQ"
    case Ne => "NE"
    case Gt => "GT"
    case Ge => "GE"
    case Lt => "LT"
    case Le => "LE"
  }

  /**
   * `p op other` as written: the method looks its member up by name, which
   * fails for `>=` and `<=` because they name `GE` and `LE`, members the
   * enumeration does not declare; the other four build `p op other`.
   */
  function Compare(convert: Converter, p: Promise, m: RichComparison, other: Value): (r: Result<Expr, Error>)
    ensures m == Eq ==> r == NewComparison(convert, PromiseV(p), EQ, other)
    ensures m == Ne ==> r == NewComparison(convert, PromiseV(p), NE, other)
    ensures m == Gt ==> r == NewComparison(convert, PromiseV(p), GT, other)
    ensures m == Lt ==> r == NewComparison(convert, PromiseV(p), LT, other)
    ensures m == Ge ==> r == Failure(UnknownEnumMember("GE"))
    ensures m == Le ==> r == Failure(UnknownEnumMember("LE"))
  {
    match LookupMember(NameUsedBy(m))
    case None => Failure(UnknownEnumMember(NameUsedBy(m)))
    case Some(op) => NewComparison(convert, PromiseV(p), op, other)
  }

  /** The enumeration member each comparison method evidently means. */
  function IntendedOp(m: RichComparison): ComparisonOp {
    match m
    case Eq => EQ
    case Ne => NE
    case Gt => GT
    case Ge => GTE
    case Lt => LT
    case Le => LTE
  }

  /**
   * `p op other` with `>=` and `<=` naming `GTE` and `LTE`: every method builds
   * the comparison of `p` and `other` with its own operator, the promise's
   * reference on the left. A non-promise `other` becomes the literal converted
   * with the promise's declared type; a pending promise `other` becomes its
   * reference, provided the two declared types are equal.
   */
  function CompareIntended(convert: Converter, p: Promise, m: RichComparison, other: Value): (r: Result<Expr, Error>)
    ensures r.Success? ==> r.value.Comparison? && r.value.op == IntendedOp(m)
    ensures r.Success? ==> !IsReady(p) && r.value.lhs == NodeRef(p.binding.output)
    ensures IsReady(p) || IsReadyPromise(other) ==> r == Failure(CompletedPromiseComparison)
    // a non-promise operand is converted with the promise's declared type
    ensures !IsReady(p) && !other.PromiseV? ==>
      (r.Success? <==> convert(other, p.binding.output.sdkType).Success?)
    ensures !IsReady(p) && !other.PromiseV? && r.Success? ==>
      r.value.rhs == Lit(convert(other, p.binding.output.sdkType).value)
    // a pending promise operand is kept as its reference, if the declared types agree
    ensures !IsReady(p) && IsPendingPromise(other) ==>
      (r.Success? <==> p.binding.output.sdkType == PendingRef(other).sdkType)
    ensures IsPendingPromise(other) && r.Success? ==> r.value.rhs == NodeRef(PendingRef(other))
    ensures !IsReady(p) && IsPendingPromise(other) && p.binding.output.sdkType != PendingRef(other).sdkType ==>
      r == Failure(NonComparableTypes(p.binding.output.varName, PendingRef(other).varName))
    ensures !IsReady(p) && !other.PromiseV? && convert(other, p.binding.output.sdkType).Failure? ==>
      r == Failure(ConversionFailed(convert(other, p.binding.output.sdkType).error))
  {
    NewComparison(convert, PromiseV(p), IntendedOp(m), other)
  }

  /** Each method's spelled name is that of its intended member, except for `>=` and `<=`. */
  lemma {:induction false} NamesMatchIntent(m: RichComparison)
    ensures m != Ge && m != Le ==> LookupMember(NameUsedBy(m)) == Some(IntendedOp(m))
    ensures m == Ge || m == Le ==> LookupMember(NameUsedBy(m)) == None
  {
  }

  /**
   * Wherever the intended `>=` or `<=` would build a comparison, the method as
   * written fails instead; the other four methods agree with their intent.
   */
  lemma {:induction false} GeLeAlwaysFail(convert: Converter, p: Promise, m: RichComparison, other: Value)
    ensures (m == Ge || m == Le) && CompareIntended(convert, p, m, other).Success? ==>
      Compare(convert, p, m, other).Failure?
    ensures m != Ge && m != Le ==> Compare(convert, p, m, other) == CompareIntended(convert, p, m, other)
  {
  }

  /** `p & other` always fails: only expressions may be combined logically. */
  function PromiseAnd(p: Promise, other: Value): (r: Result<Expr, Error>)
    ensures r == Failure(PromiseLogicalAnd)
  {
    Failure(PromiseLogicalAnd)
  }

  /** `p | other` always fails: only expressions may be combined logically. */
  function PromiseOr(p: Promise, other: Value): (r: Result<Expr, Error>)
    ensures r == Failure(PromiseLogicalOr)
  {
    Failure(PromiseLogicalOr)
  }
}
