/** Building a patch event: widen, format, fence, and re-apply what a consumer will see. */
module Build {
  import opened Prelude
  import opened PatchTypes
  import opened PatchMatcher
  import opened PatchApply
  import opened Widening
  import opened Fence

  /** The printed payload parses back to the hunks it was printed from. */
  ghost predicate PrintsFaithfully(diff: nat -> seq<Hunk>, format: nat -> string,
                                   parse: string -> Option<seq<RawHunk>>, context: nat) {
    && Terminated(format(context))
    && parse(format(context)).Some?
    && AllReduceTo(parse(format(context)).value, diff(context))
    && forall raw :: raw in parse(format(context)).value ==> WellFormed(raw)
  }

  /** Splicing the hunks in order leads from one content to the other. */
  ghost predicate Diffs(diff: nat -> seq<Hunk>, before: string, after: string, context: nat) {
    if diff(context) == [] then before == after
    else
      var trial := Trial(ToLines(before), diff(context));
      trial.clear ==> FromLines(trial.lines) == after
  }

  /** The fenced patch and the verdict of re-applying it before publishing. */
  method BuildPatch(diff: nat -> seq<Hunk>, format: nat -> string, parse: string -> Option<seq<RawHunk>>,
                    before: string, after: string, startContext: nat, maxWidenWork: nat, maxHunks: nat, maxWork: nat)
    returns (content: string, context: nat, exhausted: bool, verified: bool)
    ensures SearchEnds(ToLines(before), diff, Min(startContext, FullContext(before, after)), FullContext(before, after),
                       maxWidenWork, context, exhausted)
    ensures Terminated(format(context)) ==> FindPatchPayload(content) == Some(format(context))
    ensures (&& !exhausted && AllPatterned(diff(context))
             && |diff(context)| <= maxHunks && maxWidenWork <= maxWork
             && PrintsFaithfully(diff, format, parse, context)
             && Diffs(diff, before, after, context)) ==> verified
  {
    var hunks;
    context, hunks, exhausted := WidenContext(diff, before, after, startContext, maxWidenWork);
    var payload := format(context);
    ghost var length;
    content, length := FencePatchPayload(payload, "diff");
    DiffIsPayloadInfo();
    FenceRoundTripIff(payload, "diff", length);
    var found := FindPatchPayload(content);
    var check := ApplyPatchPayload(parse, before, found, maxHunks, maxWork);
    verified := (check.Applied? || check.Noop?) && check.content == after;
    if !exhausted && AllPatterned(hunks) && |hunks| <= maxHunks && maxWidenWork <= maxWork
       && PrintsFaithfully(diff, format, parse, context) && Diffs(diff, before, after, context) {
      WideningPredictsPayload(diff, before, Min(startContext, FullContext(before, after)), context, maxWidenWork,
                              payload, parse(payload).value, maxHunks, maxWork, check);
    }
  }
}
