/**
 * Shared vocabulary of the deferred-value expression builder: the failure-compatible
 * wrappers, the opaque types owned by the workflow engine, node-output references and
 * the errors the builder raises.
 */
module Foundation {

  datatype Option<+T> = None | Some(value: T)

  /** Success or failure; `:-` propagates a failure unchanged. */
  datatype Result<+T, +E> = Success(value: T) | Failure(error: E) {
    predicate IsFailure() {
      Failure?
    }

    function PropagateFailure<U>(): Result<U, E>
      requires Failure?
    {
      Failure(error)
    }

    function Extract(): T
      requires Success?
    {
      value
    }
  }

  /** A value in the engine's typed literal representation; its structure is not modelled. */
  type Literal

  /** The declared engine type of a node output; only its equality is used. */
  type SdkType(==, !new)

  /** Any host-language value that is neither a promise nor an expression. */
  type NativeValue

  /** A reference to output variable `varName` of graph node `nodeId`, with its declared type. */
  datatype NodeOutput = NodeOutput(nodeId: string, varName: string, sdkType: SdkType)

  /** The failures raised while building promises, expressions and task outputs. */
  datatype Error =
    | CompletedPromiseComparison                        // a ready promise used as a comparison operand
    | NonComparableTypes(lhsVar: string, rhsVar: string) // two promises whose declared types differ
    | NoPromiseOperand                                  // neither comparison operand is a promise
    | ConversionFailed(reason: string)                  // the engine's literal conversion failed
    | TruthValueTesting                                 // bool() of a promise or an expression
    | PromiseLogicalAnd                                 // `&` with a promise as receiver
    | PromiseLogicalOr                                  // `|` with a promise as receiver
    | UnknownEnumMember(member: string)                 // a ComparisonOps member that does not exist
    | MissingAttribute(attribute: string)               // an attribute that was never assigned
    | InvalidFieldName(problem: FieldNameProblem, name: string) // the first field name a named tuple refuses

  /** Why a named tuple type refuses a field name. */
  datatype FieldNameProblem = NotIdentifier | Keyword | LeadingUnderscore | Duplicate
}
