/**
 * Shaping the promises a task produces into the value its call returns:
 * nothing, the single promise itself, or a named tuple whose fields are named
 * after the promises' variables, in order.
 */
module TaskOutputs {
  import opened Foundation
  import opened Promises

  /** What a task hands over: no value, one promise, or a list of promises. */
  datatype TaskOutputArg = NoPromises | OnePromise(promise: Promise) | PromiseList(promises: seq<Promise>)

  /** What the call returns: nothing, one promise, or a named tuple of `(field name, promise)` pairs. */
  datatype TaskOutput = NoOutput | Single(promise: Promise) | NamedTuple(fields: seq<(string, Promise)>)

  /** The variable names of the promises, in order. */
  function FieldNames(ps: seq<Promise>): (names: seq<string>)
    ensures |names| == |ps|
    ensures forall i :: 0 <= i < |ps| ==> names[i] == Var(ps[i])
  {
    if ps == [] then [] else [Var(ps[0])] + FieldNames(ps[1..])
  }

  /** Pairs each name with the promise at the same position. */
  function Zip(names: seq<string>, ps: seq<Promise>): (fields: seq<(string, Promise)>)
    requires |names| == |ps|
    ensures |fields| == |ps|
    ensures forall i :: 0 <= i < |ps| ==> fields[i] == (names[i], ps[i])
  {
    if ps == [] then [] else [(names[0], ps[0])] + Zip(names[1..], ps[1..])
  }

  /** The field values of a named tuple, in field order. */
  function Values(fields: seq<(string, Promise)>): seq<Promise> {
    if fields == [] then [] else [fields[0].1] + Values(fields[1..])
  }

  /** The promises a task output unpacks to. */
  function Unpack(o: TaskOutput): seq<Promise> {
    match o
    case NoOutput => []
    case Single(p) => [p]
    case NamedTuple(fields) => Values(fields)
  }

  /** No name occurs twice: a name is refused once it has been seen. */
  predicate NoRepeats(names: seq<string>) {
    names == [] || (names[0] !in names[1..] && NoRepeats(names[1..]))
  }

  /** Letters of the ASCII alphabet and the underscore. */
  predicate IsIdentifierStart(c: char) {
    ('a' <= c <= 'z') || ('A' <= c <= 'Z') || c == '_'
  }

  predicate IsIdentifierPart(c: char) {
    IsIdentifierStart(c) || ('0' <= c <= '9')
  }

  /** A non-empty name made of identifier characters that does not start with a digit. */
  predicate IsIdentifier(s: string) {
    |s| > 0 && IsIdentifierStart(s[0]) && forall i :: 1 <= i < |s| ==> IsIdentifierPart(s[i])
  }

  predicate StartsWithUnderscore(s: string) {
    |s| > 0 && s[0] == '_'
  }

  /** The reserved words of the host language, which may not name a field. */
  const Keywords: set<string> := {
    "False", "None", "True", "and", "as", "assert", "async", "await", "break",
    "class", "continue", "def", "del", "elif", "else", "except", "finally", "for",
    "from", "global", "if", "import", "in", "is", "lambda", "nonlocal", "not", "or",
    "pass", "raise", "return", "try", "while", "with", "yield"
  }

  /**
   * The field names a named tuple type accepts: identifiers that are not
   * reserved words, do not start with an underscore, and are pairwise different.
   */
  predicate NamedTupleAccepts(names: seq<string>): (accepts: bool)
    ensures accepts ==> NoRepeats(names)
    ensures accepts ==> forall name :: name in names ==> IsIdentifier(name) && name !in Keywords && name[0] != '_'
  {
    NoRepeatsIsPairwiseDistinct(names);
    && (forall i :: 0 <= i < |names| ==>
          IsIdentifier(names[i]) && names[i] !in Keywords && !StartsWithUnderscore(names[i]))
    && (forall i, j :: 0 <= i < j < |names| ==> names[i] != names[j])
  }

  /**
   * The named tuple type's first pass over the names, in order: the first name
   * that is not an identifier or is a reserved word, and which of the two it is.
   */
  function FirstNonIdentifier(names: seq<string>): (r: Option<(FieldNameProblem, string)>)
    ensures r.None? <==> forall i :: 0 <= i < |names| ==> IsIdentifier(names[i]) && names[i] !in Keywords
    ensures r.Some? ==> r.value.0 == NotIdentifier || r.value.0 == Keyword
    ensures r.Some? ==> exists k :: FirstNonIdentifierAt(names, k, r.value)
  {
    if names == [] then None
    else if !IsIdentifier(names[0]) then
      assert FirstNonIdentifierAt(names, 0, (NotIdentifier, names[0]));
      Some((NotIdentifier, names[0]))
    else if names[0] in Keywords then
      assert FirstNonIdentifierAt(names, 0, (Keyword, names[0]));
      Some((Keyword, names[0]))
    else
      var r := FirstNonIdentifier(names[1..]);
      assert r.Some? ==> exists k :: FirstNonIdentifierAt(names, k, r.value) by {
        if r.Some? {
          var k :| FirstNonIdentifierAt(names[1..], k, r.value);
          assert names[k + 1] == names[1..][k];
          forall i | 0 <= i < k + 1 ensures IsIdentifier(names[i]) && names[i] !in Keywords {
            if i > 0 { assert names[i] == names[1..][i - 1]; }
          }
          assert FirstNonIdentifierAt(names, k + 1, r.value);
        }
      }
      r
  }

  /** `refused` is the first-pass finding for `names[k]`, and every earlier name passes the first pass. */
  predicate FirstNonIdentifierAt(names: seq<string>, k: int, refused: (FieldNameProblem, string)) {
    && 0 <= k < |names|
    && names[k] == refused.1
    && (refused.0 == NotIdentifier || refused.0 == Keyword)
    && (refused.0 == NotIdentifier <==> !IsIdentifier(names[k]))
    && (refused.0 == Keyword ==> names[k] in Keywords)
    && (forall i :: 0 <= i < k ==> IsIdentifier(names[i]) && names[i] !in Keywords)
  }

  /**
   * The named tuple type's second pass, with the names `seen` so far: the first
   * name that starts with an underscore or was seen before, and which of the two.
   */
  function FirstUnderscoreOrRepeat(names: seq<string>, seen: set<string>): (r: Option<(FieldNameProblem, string)>)
    ensures r.None? <==>
      && (forall i :: 0 <= i < |names| ==> !StartsWithUnderscore(names[i]) && names[i] !in seen)
      && NoRepeats(names)
    ensures r.Some? ==> r.value.0 == LeadingUnderscore || r.value.0 == Duplicate
    ensures r.Some? ==> exists k :: FirstUnderscoreOrRepeatAt(names, seen, k, r.value)
  {
    if names == [] then None
    else if StartsWithUnderscore(names[0]) then
      assert FirstUnderscoreOrRepeatAt(names, seen, 0, (LeadingUnderscore, names[0]));
      Some((LeadingUnderscore, names[0]))
    else if names[0] in seen then
      assert FirstUnderscoreOrRepeatAt(names, seen, 0, (Duplicate, names[0]));
      Some((Duplicate, names[0]))
    else
      var r := FirstUnderscoreOrRepeat(names[1..], seen + {names[0]});
      assert r.None? ==> names[0] !in names[1..];
      assert r.None? <==>
        && (forall i :: 0 <= i < |names| ==> !StartsWithUnderscore(names[i]) && names[i] !in seen)
        && NoRepeats(names)
      by {
        if forall i :: 0 <= i < |names| ==> !StartsWithUnderscore(names[i]) && names[i] !in seen {
          if NoRepeats(names) {
            forall i | 0 <= i < |names[1..]| ensures names[1..][i] != names[0] {
              assert names[1..][i] in names[1..];
            }
          }
        }
      }
      assert r.Some? ==> exists k :: FirstUnderscoreOrRepeatAt(names, seen, k, r.value) by {
        if r.Some? {
          var k :| FirstUnderscoreOrRepeatAt(names[1..], seen + {names[0]}, k, r.value);
          assert names[k + 1] == names[1..][k];
          assert names[..k + 1] == [names[0]] + names[1..][..k];
          forall i | 0 <= i < k + 1
            ensures !StartsWithUnderscore(names[i]) && names[i] !in seen && names[i] !in names[..i]
          {
            if i > 0 {
              assert names[i] == names[1..][i - 1];
              assert names[..i] == [names[0]] + names[1..][..i - 1];
            }
          }
          assert FirstUnderscoreOrRepeatAt(names, seen, k + 1, r.value);
        }
      }
      r
  }

  /**
   * `refused` is the second-pass finding for `names[k]`, and every earlier name
   * passes the second pass: no leading underscore, not seen before.
   */
  predicate FirstUnderscoreOrRepeatAt(names: seq<string>, seen: set<string>, k: int, refused: (FieldNameProblem, string)) {
    && 0 <= k < |names|
    && names[k] == refused.1
    && (refused.0 == LeadingUnderscore || refused.0 == Duplicate)
    && (refused.0 == LeadingUnderscore <==> StartsWithUnderscore(names[k]))
    && (refused.0 == Duplicate ==> names[k] in seen || names[k] in names[..k])
    && (forall i :: 0 <= i < k ==> !StartsWithUnderscore(names[i]) && names[i] !in seen && names[i] !in names[..i])
  }

  /**
   * The first field name the named tuple type refuses, with the reason; there is
   * none exactly when it accepts the names. A refused name is one of them, and a
   * leading underscore or a repeat is reported only when every name passes the
   * identifier and reserved-word checks.
   */
  function FirstRefusedFieldName(names: seq<string>): (r: Option<(FieldNameProblem, string)>)
    ensures r.None? <==> NamedTupleAccepts(names)
    ensures r.Some? ==> r.value.1 in names
    ensures r.Some? ==>
      (exists k :: FirstNonIdentifierAt(names, k, r.value)) || (exists k :: FirstUnderscoreOrRepeatAt(names, {}, k, r.value))
    ensures r.Some? && (r.value.0 == LeadingUnderscore || r.value.0 == Duplicate) ==>
      forall i :: 0 <= i < |names| ==> IsIdentifier(names[i]) && names[i] !in Keywords
  {
    NoRepeatsIsPairwiseDistinct(names);
    match FirstNonIdentifier(names)
    case Some(refused) => Some(refused)
    case None => FirstUnderscoreOrRepeat(names, {})
  }

  /**
   * Returns nothing for no promises or an empty list, the promise itself for
   * one promise or a one-element list, and otherwise a named tuple whose field
   * names are the promises' variables and whose values are the promises, in
   * input order; the named tuple type refuses unacceptable field names.
   */
  function CreateTaskOutput(arg: TaskOutputArg): (r: Result<TaskOutput, Error>)
    ensures arg.NoPromises? ==> r == Success(NoOutput)
    ensures arg.OnePromise? ==> r == Success(Single(arg.promise))
    ensures arg.PromiseList? && |arg.promises| == 0 ==> r == Success(NoOutput)
    ensures arg.PromiseList? && |arg.promises| == 1 ==> r == Success(Single(arg.promises[0]))
    ensures arg.PromiseList? && |arg.promises| >= 2 ==>
      (r.Success? <==> NamedTupleAccepts(FieldNames(arg.promises)))
    ensures arg.PromiseList? && |arg.promises| >= 2 && r.Success? ==>
      && r.value.NamedTuple?
      && |r.value.fields| == |arg.promises|
      && forall i :: 0 <= i < |arg.promises| ==> r.value.fields[i] == (Var(arg.promises[i]), arg.promises[i])
    ensures r.Failure? ==>
      && arg.PromiseList?
      && r.error.InvalidFieldName?
      && r.error.name in FieldNames(arg.promises)
      && FirstRefusedFieldName(FieldNames(arg.promises)) == Some((r.error.problem, r.error.name))
  {
    match arg
    case NoPromises => Success(NoOutput)
    case OnePromise(p) => Success(Single(p))
    case PromiseList(ps) =>
      if |ps| == 0 then Success(NoOutput)
      else if |ps| == 1 then Success(Single(ps[0]))
      else
        var variables := FieldNames(ps);
        match FirstRefusedFieldName(variables)
        case Some((problem, name)) => Failure(InvalidFieldName(problem, name))
        case None => Success(NamedTuple(Zip(variables, ps)))
  }

  /** The method name the tuple class declares for itself, which hides a field of that name. */
  const OverridesMethod: string := "with_overrides"

  /**
   * A named tuple forwards the override call to its first field, whose result
   * it discards, and returns itself unchanged. A first field named after the
   * method itself is hidden by it: the lookup finds the method, which has no
   * such attribute, and the call fails.
   */
  function OutputWithOverrides(o: TaskOutput): (r: Result<TaskOutput, Error>)
    requires o.NamedTuple? && |o.fields| > 0
    ensures o.fields[0].0 == OverridesMethod ==> r == Failure(MissingAttribute(OverridesMethod))
    ensures o.fields[0].0 != OverridesMethod ==> r == Success(o)
  {
    if o.fields[0].0 == OverridesMethod then Failure(MissingAttribute(OverridesMethod))
    else
      var _ := WithOverrides(o.fields[0].1);
      Success(o)
  }

  /** A name list has no repeats exactly when its entries are pairwise different. */
  lemma {:induction false} NoRepeatsIsPairwiseDistinct(names: seq<string>)
    ensures NoRepeats(names) <==> forall i, j :: 0 <= i < j < |names| ==> names[i] != names[j]
  {
    if names != [] {
      NoRepeatsIsPairwiseDistinct(names[1..]);
      if NoRepeats(names) {
        forall i, j | 0 <= i < j < |names| ensures names[i] != names[j] {
          if i == 0 {
            assert names[j] == names[1..][j - 1];
          } else {
            assert names[i] == names[1..][i - 1] && names[j] == names[1..][j - 1];
          }
        }
      }
      if forall i, j :: 0 <= i < j < |names| ==> names[i] != names[j] {
        forall i, j | 0 <= i < j < |names[1..]| ensures names[1..][i] != names[1..][j] {
          assert names[1..][i] == names[i + 1] && names[1..][j] == names[j + 1];
        }
      }
    }
  }

  /** Field values of a zipped tuple are the zipped promises. */
  lemma {:induction false} ValuesOfZip(names: seq<string>, ps: seq<Promise>)
    requires |names| == |ps|
    ensures Values(Zip(names, ps)) == ps
  {
    if ps != [] {
      ValuesOfZip(names[1..], ps[1..]);
      assert Zip(names, ps)[1..] == Zip(names[1..], ps[1..]);
    }
  }

  /**
   * Unpacking what `CreateTaskOutput` built gives back the promises handed to
   * it, in order; a bare promise unpacks to itself.
   */
  lemma {:induction false} CreateThenUnpack(arg: TaskOutputArg)
    requires CreateTaskOutput(arg).Success?
    ensures arg.PromiseList? ==> Unpack(CreateTaskOutput(arg).value) == arg.promises
    ensures arg.OnePromise? ==> Unpack(CreateTaskOutput(arg).value) == [arg.promise]
  {
    if arg.PromiseList? && |arg.promises| >= 2 {
      ValuesOfZip(FieldNames(arg.promises), arg.promises);
    } else if arg.PromiseList? && |arg.promises| == 1 {
      assert arg.promises == [arg.promises[0]];
    }
  }

  /**
   * Overrides on a tuple built from two or more promises fail exactly when the
   * first promise's variable is named after the override method; otherwise they
   * give back a tuple holding the same promises, in order.
   */
  lemma {:induction false} OverridesAfterCreate(ps: seq<Promise>)
    requires |ps| >= 2 && CreateTaskOutput(PromiseList(ps)).Success?
    ensures CreateTaskOutput(PromiseList(ps)).value.NamedTuple?
    ensures OutputWithOverrides(CreateTaskOutput(PromiseList(ps)).value).Failure? <==> Var(ps[0]) == OverridesMethod
    ensures OutputWithOverrides(CreateTaskOutput(PromiseList(ps)).value).Success? ==>
      Unpack(OutputWithOverrides(CreateTaskOutput(PromiseList(ps)).value).value) == ps
  {
    CreateThenUnpack(PromiseList(ps));
  }
}
