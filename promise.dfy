/**
 * A promise: a named value that is either already known (ready) or will be
 * produced by a node of the workflow graph that has not run yet (not ready).
 * Readiness is fixed when the promise is built.
 */
module Promises {
  import opened Foundation

  /**
   * What a promise is constructed from, and what it keeps: the output reference
   * of a node that has not run yet, or a literal that is already known.
   */
  datatype Binding = Deferred(output: NodeOutput) | Known(literal: Literal)

  /** A promise bound to the variable `name`. */
  datatype Promise = Promise(name: string, binding: Binding)

  /** Whether the promise holds a known value rather than a node reference. */
  predicate IsReady(p: Promise): (ready: bool)
    ensures ready <==> forall out :: p.binding != Deferred(out)
  {
    p.binding.Known?
  }

  /** The name of the variable bound to the promise. */
  function Var(p: Promise): (v: string)
    ensures p == Promise(v, p.binding)
  {
    p.name
  }

  /**
   * The known value; a promise that is not ready reads as `None`, without
   * failing.
   */
  function Val(p: Promise): (r: Option<Literal>)
    ensures r.Some? <==> IsReady(p)
  {
    match p.binding
    case Known(lit) => Some(lit)
    case Deferred(_) => None
  }

  /**
   * The node reference; a ready promise never received one, so asking for it
   * fails as a missing attribute.
   */
  function Ref(p: Promise): (r: Result<NodeOutput, Error>)
    ensures r.Success? <==> !IsReady(p)
    ensures r.Failure? ==> r.error == MissingAttribute("_ref")
  {
    match p.binding
    case Deferred(out) => Success(out)
    case Known(_) => Failure(MissingAttribute("_ref"))
  }

  /**
   * Builds a promise from either a node output (not ready) or a literal (ready).
   */
  function NewPromise(name: string, val: Binding): (p: Promise)
    ensures Var(p) == name
    ensures IsReady(p) <==> !val.Deferred?
    ensures val.Deferred? ==> Ref(p) == Success(val.output) && Val(p) == None
    ensures val.Known? ==> Val(p) == Some(val.literal) && Ref(p) == Failure(MissingAttribute("_ref"))
  {
    Promise(name, val)
  }

  /** The binding a promise was built from, recovered through its accessors. */
  function BindingOf(p: Promise): (b: Binding)
    ensures IsReady(p) ==> b == Known(Val(p).value)
    ensures !IsReady(p) ==> b == Deferred(Ref(p).value)
    ensures b == p.binding
  {
    match Ref(p)
    case Success(out) => Deferred(out)
    case Failure(_) => Known(Val(p).value)
  }

  /**
   * Every promise has exactly one of a value and a reference, and is the
   * promise its own name and binding rebuild; building and reading back a
   * binding gives that binding again.
   */
  lemma {:induction false} PromiseRoundTrip(p: Promise, name: string, val: Binding)
    ensures Val(p).Some? != Ref(p).Success?
    ensures NewPromise(Var(p), BindingOf(p)) == p
    ensures BindingOf(NewPromise(name, val)) == val && Var(NewPromise(name, val)) == name
  {
  }

  /**
   * Truth-value testing of a promise always fails: conditions on promises must
   * be combined with `&` and `|` and evaluated later by the engine.
   */
  function PromiseTruth(p: Promise): (r: Result<bool, Error>)
    ensures r == Failure(TruthValueTesting)
  {
    Failure(TruthValueTesting)
  }

  /**
   * Overrides on a promise are not forwarded to its node yet: the promise
   * itself comes back unchanged, ready or not.
   */
  function WithOverrides(p: Promise): (r: Promise)
    ensures r == p
  {
    p
  }
}
