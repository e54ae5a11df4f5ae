/** The outcome vocabulary of patch application. */
module PatchTypes {
  import opened Prelude

  datatype HaltReason = NoMatch | AmbiguousMatch | EofMismatch | MalformedPayload

  datatype LimitKind = HunkLimit | WorkLimit

  datatype NoopShape = ProseOnly | HeaderOnly

  datatype ApplyResult =
    | Applied(content: string, hunksApplied: nat, work: nat)
    | Noop(content: string, shape: NoopShape)
    | Halt(reason: HaltReason, hunkIndex: Option<nat>)
    | Limit(limit: LimitKind, observed: nat, ceiling: nat)

  /** Applies the patch carried by an event's content (second argument) to content (first). */
  type Applier = (string, string) -> ApplyResult
}
