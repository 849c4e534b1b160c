# Deferred values and condition expressions of flytekit's annotated API

This project models, in Dafny, the expression builder that flytekit's annotated
workflow API uses while a workflow graph is being authored:

- a **promise** is a named value. It is either ready, holding a literal that is
  already known, or not ready, holding a reference (`NodeOutput`) to the output
  of a node that has not run yet. Readiness is fixed when the promise is built
  (`Promises`);
- a **comparison expression** binds two operands with one of `EQ`, `NE`, `GT`,
  `GTE`, `LT` or `LTE`. When it is built, it rejects ready promises, operands
  that contain no promise, and two promises of different declared types. A
  promise operand is replaced by its node reference. Any other operand is
  converted by the engine to a literal of the promise side's type
  (`Expressions`);
- four of the six rich comparisons of a promise (`==`, `!=`, `>`, `<`) build
  comparisons with the promise on the left; `>=` and `<=` name enumeration
  members that do not exist and always fail. Its `&` and `|` always fail
  (`PromiseOperators`);
- a **conjunction expression** is built by `&` and `|` on a comparison or a
  conjunction. It records the receiver, the operator and the unchecked
  argument, so chained operators grow a left-leaning tree (`Conjunctions`);
- `create_task_output` turns the promises of a task into its return value:
  nothing, the promise itself, or a named tuple whose fields are named after the
  promises' variables, in order. The named tuple type refuses a field name
  that is not an identifier, is a reserved word, starts with an underscore or
  repeats an earlier one, and reports the first name it refuses (`TaskOutputs`).

The engine's literal conversion and the current execution context it reads are
one parameter, `Converter`. It is a function from a value and a declared type to
a literal or an error message, and its errors pass through unchanged. `Literal`,
`SdkType` and `NativeValue` are opaque types. Only the equality of declared
types is used.

In these details the model follows the code as written:

- reading the value of a promise that is not ready gives `None`, not an error;
- asking a ready promise for its reference fails as a missing `_ref`
  attribute;
- `>=` and `<=` fail before any comparison is built (see Findings).

## Model

| member | source | states |
|---|---|---|
| `Promises.IsReady` | flytekit/annotated/promise.py:137-149 | A promise is ready exactly when it holds no node reference. |
| `Promises.Var` | flytekit/annotated/promise.py:165-170 | The variable is the name the promise is bound to: the promise is that name with its binding. |
| `Promises.NewPromise` | flytekit/annotated/promise.py:128-135 | A promise built from a node output is not ready, its reference is that output and its value reads as `None`. A promise built from anything else is ready, its value is that literal and it has no `_ref`. Its variable is always the given name. |
| `Promises.Val` | flytekit/annotated/promise.py:151-156 | The value is present exactly when the promise is ready. |
| `Promises.Ref` | flytekit/annotated/promise.py:158-163 | The reference is available exactly when the promise is not ready. Otherwise reading it fails with a missing `_ref` attribute. |
| `Promises.BindingOf` | flytekit/annotated/promise.py:137-170 | The accessors recover exactly what the promise was built from (its binding): the literal read by `val` when it is ready, the node output read by `ref` when it is not. |
| `Promises.PromiseRoundTrip` | flytekit/annotated/promise.py:128-170 | Exactly one of value and reference is available. Rebuilding a promise from its name and binding gives the same promise, and reading a new promise back gives its binding and name. |
| `Promises.PromiseTruth` | flytekit/annotated/promise.py:190-193 | Truth-value testing of a promise always fails. |
| `Promises.WithOverrides` | flytekit/annotated/promise.py:201-206 | Overrides return the promise unchanged, ready or not; nothing is forwarded to the node. |
| `Expressions.Resolve` | flytekit/annotated/promise.py:46-49 | A side taken from a promise becomes that promise's node reference. Any other side succeeds exactly when the engine converts it with the promise side's type, giving that literal; a conversion error is passed through. |
| `Expressions.NewComparison` | flytekit/annotated/promise.py:26-49 | A ready promise on either side fails. No promise operand fails. Two pending promises give their two references when their declared types are equal, and a non-comparable-types error naming both variables when they differ. One pending promise keeps its reference, and the other operand is converted with that promise's declared type; a conversion error is passed through. Every comparison built is well formed and carries the operator unchanged. |
| `Expressions.WellFormedComparisonIsBuilt` | flytekit/annotated/promise.py:31-49 | Converse of the constructor's guarantee: every comparison with at least one reference side, whose two references (if both are references) have equal types, is built by the constructor from some operands and some conversion. |
| `PromiseOperators.LookupMember` | flytekit/annotated/promise.py:16-22 | Looking up a member of the comparison enumeration by name succeeds exactly for the six declared names, and returns the member declared under that name. |
| `PromiseOperators.Compare` | flytekit/annotated/promise.py:172-188 | `p == x`, `p != x`, `p > x` and `p < x` build the comparison of `p` and `x` with `EQ`, `NE`, `GT` and `LT`. `p >= x` and `p <= x` always fail with the unknown members `GE` and `LE`. |
| `PromiseOperators.CompareIntended` | flytekit/annotated/promise.py:172-188 | Corrected operators, with `>=` and `<=` using `GTE` and `LTE`. A success carries the method's own operator and the promise's reference on the left. A ready promise on either side fails. A pending promise against a non-promise value succeeds exactly when the conversion with the promise's declared type does, and the right side is then the converted literal. Against a pending promise it succeeds exactly when the two declared types are equal, and the right side is then that promise's reference. A type mismatch fails with the non-comparable-types error naming both variables, and a failed conversion passes the engine's error through. |
| `PromiseOperators.NamesMatchIntent` | flytekit/annotated/promise.py:172-188 | Four methods spell the name of their intended member. The names spelled by `>=` and `<=` are declared by no member. |
| `PromiseOperators.GeLeAlwaysFail` | flytekit/annotated/promise.py:181-188 | Whenever the corrected `>=` or `<=` would build a comparison, the written one fails. The other four methods agree with the corrected ones on every input. |
| `PromiseOperators.PromiseAnd` | flytekit/annotated/promise.py:195-196 | `p & x` always fails. |
| `PromiseOperators.PromiseOr` | flytekit/annotated/promise.py:198-199 | The bitwise-or operator with a promise as receiver always fails. |
| `Conjunctions.And` | flytekit/annotated/promise.py:63-65 | `e & x` (the same on comparisons and on conjunctions, lines 110-112) keeps `e`'s leftmost comparison and appends the step `(AND, x)` to `e`'s chain of steps. |
| `Conjunctions.Or` | flytekit/annotated/promise.py:67-69 | The bitwise-or operator `e.__or__(x)` (the same on conjunctions, lines 114-116) keeps `e`'s leftmost comparison and appends `(OR, x)` to its chain of steps. |
| `Conjunctions.ExprTruth` | flytekit/annotated/promise.py:71-74 | Truth-value testing of a comparison or a conjunction (lines 118-121) always fails. |
| `Conjunctions.Head` | flytekit/annotated/promise.py:91-96 | The leftmost leaf of every expression tree is a comparison. A comparison is its own leftmost leaf, and a conjunction's is that of its left operand. |
| `Conjunctions.ChainShape` | flytekit/annotated/promise.py:110-116 | Applying operators left to right keeps the first comparison at the far left. The tree records every operator and argument, in order. |
| `Conjunctions.ChainSnoc` | flytekit/annotated/promise.py:110-116 | Applying one more operator to a chain is the chain extended by that step. |
| `Conjunctions.ChainRebuilds` | flytekit/annotated/promise.py:91-96 | Every expression tree is the chain of its recorded steps applied to its leftmost comparison. |
| `Conjunctions.ChainInjective` | flytekit/annotated/promise.py:91-96 | Two chains from comparisons are equal only when they have the same first comparison and the same steps. |
| `Conjunctions.AndThenOr` | flytekit/annotated/promise.py:63-69 | `a & b` followed by the bitwise-or with `c` has `OR` at the root, the `AND` of `a` and `b` as left child and `c` as right child. |
| `TaskOutputs.FieldNames` | flytekit/annotated/promise.py:232 | The field names are the promises' variables, one per promise, in order. |
| `TaskOutputs.Zip` | flytekit/annotated/promise.py:240 | The tuple's fields pair the i-th name with the i-th promise. |
| `TaskOutputs.CreateTaskOutput` | flytekit/annotated/promise.py:218-240 | `None` or an empty list gives no output. A single promise or a one-element list gives that promise unwrapped. Two or more promises give a named tuple exactly when the named-tuple type accepts their variable names; its i-th field is the i-th promise under its own variable. Otherwise the call fails with an invalid-field-name error carrying the first refused name and the reason, as found by the two checking passes. |
| `TaskOutputs.OutputWithOverrides` | flytekit/annotated/promise.py:235-238 | Overrides on the named tuple return the tuple unchanged, with the same promises, unless its first field is named `with_overrides`. That field is hidden by the tuple's own method, and the call fails with a missing `with_overrides` attribute. |
| `TaskOutputs.OverridesAfterCreate` | flytekit/annotated/promise.py:229-240 | On a tuple built from two or more promises, overrides fail exactly when the first promise's variable is `with_overrides`. Otherwise they give back a tuple of exactly the promises handed in, in order. |
| `TaskOutputs.NamedTupleAccepts` | flytekit/annotated/promise.py:234 | The named tuple type accepts only identifiers that are not reserved words and do not start with an underscore, with no name seen twice. |
| `TaskOutputs.FirstNonIdentifier` | flytekit/annotated/promise.py:234 | The first checking pass finds nothing exactly when every name is an identifier and not a reserved word. Otherwise it reports the first name, in order, that is not an identifier or is a reserved word, and which of the two. |
| `TaskOutputs.FirstUnderscoreOrRepeat` | flytekit/annotated/promise.py:234 | The second checking pass finds nothing exactly when no name starts with an underscore or was seen before. Otherwise it reports the first such name, in order, and which of the two. |
| `TaskOutputs.FirstRefusedFieldName` | flytekit/annotated/promise.py:234 | There is a refused name exactly when the named tuple type does not accept the names, and it is one of them. The report is the first pass's finding or, when that pass finds nothing, the second pass's. A leading underscore or a repeat is reported only when every name passes the first pass. |
| `TaskOutputs.NoRepeatsIsPairwiseDistinct` | flytekit/annotated/promise.py:234 | The seen-so-far duplicate check accepts a name list exactly when its names are pairwise different. |
| `TaskOutputs.ValuesOfZip` | flytekit/annotated/promise.py:240 | The values of the zipped fields are the promises, in order. |
| `TaskOutputs.CreateThenUnpack` | flytekit/annotated/promise.py:218-240 | Unpacking a successful task output gives back exactly the promises handed in, in order. |

## Left out

- `__repr__`, `__str__` and the `print` calls (flytekit/annotated/promise.py:64, 68, 76-88, 111, 115, 123-124, 205, 208-214) are diagnostics only. They rely on the engine's `Literal.short_string()`, which is not modelled.
- `FlyteContext.current_context()` and `flytekit_engine.python_value_to_idl_literal` are foreign calls. They are the `Converter` parameter, whose behaviour is left open.
- OutputWithOverrides: the overrides forwarded to the first field's promise reach `WithOverrides`, so the `sdk_node.id` read described on the next line is not modelled here either.
- WithOverrides: forwarding to the node is disabled in the source, and the model does not include the log line that reads `ref.sdk_node.id`. If that attribute is missing, the source fails and the model does not; `NodeOutput` keeps no `sdk_node`.
- NewComparison: a `NodeOutput` whose `sdk_type` is `None` is not modelled, since declared types are never absent here. For such an output, the checks at flytekit/annotated/promise.py:40 and 44 would treat the promise as if no promise had been seen.
- The host language's operator dispatch is not modelled. A reflected comparison such as `3 < p` runs `p.__gt__(3)`; the model only covers a promise on the left. `and`/`or`/`not` short-circuiting only reaches `__bool__`, which is modelled.
- CreateTaskOutput: the named tuple is modelled as a sequence of `(name, promise)` pairs, and class synthesis and attribute access by field name are not modelled. Field names are checked as ASCII identifiers against the keyword set of Python 3.7 and later, so non-ASCII identifiers that the host language accepts are refused here. A refusal carries the reason and the name, not the wording of the host's error message.
- The archive filter `filter_tar_file_fn` and the location join `get_additional_distribution_loc` are exercised by tests/flytekit/unit/tools/test_fast_registration.py. flytekit/tools/fast_registration.py is not part of this model, so their behaviour (accept `foo.py`; reject `foo.pyc`, `.cache/foo` and `__pycache__`; build `<location>/<id>.tar.gz`) is not modelled.

## Findings

| source | as written | input that shows it | evidently intended | confidence | as-written member | corrected member |
|---|---|---|---|---|---|---|
| flytekit/annotated/promise.py:181-188 | `__ge__` and `__le__` pass `ComparisonOps.GE` and `ComparisonOps.LE`, but the enumeration (lines 16-22) declares only `GTE` and `LTE`. Attribute lookup fails before any comparison is built. | `p >= 3` or `p <= 3` for a not-ready promise `p` whose declared type converts `3`: the comparison would be accepted, yet the operator fails (`GeLeAlwaysFail`) | `>=` builds a `GTE` comparison and `<=` builds an `LTE` comparison | high; not executed | `PromiseOperators.Compare` | `PromiseOperators.CompareIntended` |
