/**
 * Chain resolution. The specification is the simple reading: the canonical path through the
 * root author's own unretracted patches, applied until one fails, with overlays judged against the
 * content at their target. Nothing in it depends on an order of events.
 */
module ResolveSpec {
  import opened Prelude
  import opened Ordering
  import opened Events
  import opened PatchTypes
  import opened ChainWalk
  import L = Lineage

  // ---------------------------------------------------------------- results

  datatype AbsentReason = RootUnobserved | RootNotPatchable

  datatype ChainState =
    | Resolved(content: string, tipId: Id, applied: seq<Id>)
    | Halted(content: string, tipId: Id, applied: seq<Id>, haltedAt: Id, reason: HaltReason)
    | Aborted(content: string, tipId: Id, applied: seq<Id>, abortedAt: Id, limit: LimitKind)
    | Forked(content: string, forkParentId: Id, branchIds: seq<Id>)
    | Absent(why: AbsentReason)

  datatype Degradation = Alpha | Beta

  datatype OverlayState = Clean | Conflict | Stale | Orphaned(degradation: Degradation) | Unclassified

  datatype Overlay = Overlay(id: Id, author: Pubkey, targetId: Id, state: OverlayState)

  datatype ForkBranch = ForkBranch(id: Id, author: Pubkey, createdAt: int)

  datatype Annotation =
    | ProtocolError(eventId: Id, author: Pubkey, reason: HaltReason)
    | ResourceLimit(eventId: Id, author: Pubkey)
    | SelfFork(parentId: Id, branches: seq<ForkBranch>)

  datatype Resolution = Resolution(
    chain: ChainState, overlays: seq<Overlay>, pending: seq<Id>, annotations: seq<Annotation>)

  function OverlayKey(o: Overlay): Key { (o.targetId, o.id) }

  function BranchKey(b: ForkBranch): Key { (0, b.id) }

  function AnnotationKey(a: Annotation): Key {
    match a
    case ProtocolError(id, _, _) => (0, id)
    case ResourceLimit(id, _) => (1, id)
    case SelfFork(id, _) => (2, id)
  }

  // ---------------------------------------------------------------- what a root's resolution reads

  predicate IsPatchFor(e: Event, rootId: Id) {
    !IsDeletion(e) && TypeOf(e) == Some(Patch) && RootTarget(e) == Some(rootId)
  }

  ghost function PatchesOf(obs: Observed, rootId: Id): set<Event> {
    set id | id in obs && IsPatchFor(obs[id], rootId) :: obs[id]
  }

  lemma PatchMember(obs: Observed, rootId: Id, p: Event)
    requires Keyed(obs)
    ensures p in PatchesOf(obs, rootId) <==> p.id in obs && obs[p.id] == p && IsPatchFor(p, rootId)
  {
    hide TypeOf, RootTarget;
  }

  /** The root is observed and is a Product or Metadata. */
  predicate Patchable(obs: Observed, rootId: Id) {
    rootId in obs && IsRoot(obs[rootId])
  }

  /** The root author's own patches that their author has not retracted. */
  ghost function Line(obs: Observed, rootId: Id): set<Event>
    requires rootId in obs
  {
    set p | p in PatchesOf(obs, rootId) && p.pubkey == obs[rootId].pubkey && !Deleted(obs, p.id)
  }

  /** Other authors' unretracted patches that say what they reply to. */
  ghost function OverlayEvents(obs: Observed, rootId: Id): set<Event>
    requires rootId in obs
  {
    set p | p in PatchesOf(obs, rootId) && p.pubkey != obs[rootId].pubkey && !Deleted(obs, p.id)
            && ReplyTarget(p).Some?
  }

  /** Root-author patches whose lineage reaches an unobserved id. */
  ghost function HeldPatches(obs: Observed, rootId: Id): set<Event>
    requires rootId in obs
  {
    set p | p in Line(obs, rootId) && L.ClassOf(obs, rootId, obs[rootId].pubkey, p) == L.Held
  }

  lemma PatchesKeyed(obs: Observed, rootId: Id)
    requires Keyed(obs)
    ensures forall p :: p in PatchesOf(obs, rootId) ==> p.id in obs && obs[p.id] == p
    ensures IdDetermines(PatchesOf(obs, rootId))
    ensures Patchable(obs, rootId) ==> rootId !in IdsOf(PatchesOf(obs, rootId))
  {
    hide TypeOf, RootTarget;
  }

  // ---------------------------------------------------------------- application

  datatype Stop = Completed | HaltedAt(patch: Event, reason: HaltReason) | AbortedAt(patch: Event, limit: LimitKind)

  /** The content at every position reached, and why application stopped. */
  datatype Run = Run(contents: seq<string>, stop: Stop)

  function Advance(apply: Applier, content: string, path: seq<Event>): (run: Run)
    ensures 1 <= |run.contents| <= |path| + 1 && run.contents[0] == content
    ensures run.stop == Completed <==> |run.contents| == |path| + 1
    ensures run.stop.HaltedAt? || run.stop.AbortedAt? ==> run.stop.patch == path[|run.contents| - 1]
    decreases |path|
  {
    if path == [] then Run([content], Completed)
    else match apply(content, path[0].content)
      case Halt(reason, _) => Run([content], HaltedAt(path[0], reason))
      case Limit(limit, _, _) => Run([content], AbortedAt(path[0], limit))
      case Applied(next, _, _) =>
        var rest := Advance(apply, next, path[1..]);
        Run([content] + rest.contents, rest.stop)
      case Noop(next, _) =>
        var rest := Advance(apply, next, path[1..]);
        Run([content] + rest.contents, rest.stop)
  }

  function IdSeq(path: seq<Event>): seq<Id> {
    seq(|path|, i requires 0 <= i < |path| => path[i].id)
  }

  ghost function ChainStateOf(rootId: Id, path: seq<Event>, fork: set<Event>, run: Run): ChainState
    requires 1 <= |run.contents| <= |path| + 1
  {
    var n := |run.contents| - 1;
    var content, tip, applied := run.contents[n], Position(rootId, path, n), IdSeq(path[..n]);
    match run.stop
    case HaltedAt(p, reason) => Halted(content, tip, applied, p.id, reason)
    case AbortedAt(p, limit) => Aborted(content, tip, applied, p.id, limit)
    case Completed =>
      if fork != {} then Forked(content, Position(rootId, path, |path|), SortedIds(IdsOf(fork)))
      else Resolved(content, tip, applied)
  }

  // ---------------------------------------------------------------- overlays

  datatype Trial = NoPosition | Tried(result: ApplyResult)

  /** The overlay applied to the content at its target, when the target is a reached position. */
  ghost function TrialOf(apply: Applier, rootId: Id, path: seq<Event>, contents: seq<string>, o: Event): Trial
    requires |contents| <= |path| + 1 && ReplyTarget(o).Some?
  {
    if i :| 0 <= i < |contents| && Position(rootId, path, i) == ReplyTarget(o).value then
      Tried(apply(contents[i], o.content))
    else NoPosition
  }

  ghost function StateOf(trial: Trial, targetObserved: bool, atTip: bool): OverlayState {
    match trial
    case NoPosition => Orphaned(if targetObserved then Alpha else Beta)
    case Tried(Limit(_, _, _)) => Unclassified
    case Tried(Halt(_, _)) => Conflict
    case Tried(_) => if atTip then Clean else Stale
  }

  ghost function OverlayOf(apply: Applier, obs: Observed, rootId: Id, path: seq<Event>, run: Run, chain: ChainState, o: Event): Overlay
    requires 1 <= |run.contents| <= |path| + 1 && ReplyTarget(o).Some?
  {
    var target := ReplyTarget(o).value;
    var atTip := !chain.Forked? && target == Position(rootId, path, |run.contents| - 1);
    Overlay(o.id, o.pubkey, target, StateOf(TrialOf(apply, rootId, path, run.contents, o), target in obs, atTip))
  }

  ghost function BranchesOf(fork: set<Event>): set<ForkBranch> {
    set b | b in fork :: ForkBranch(b.id, b.pubkey, b.createdAt)
  }

  ghost function StopAnnotations(stop: Stop): set<Annotation> {
    match stop
    case Completed => {}
    case HaltedAt(p, reason) => {ProtocolError(p.id, p.pubkey, reason)}
    case AbortedAt(p, _) => {ResourceLimit(p.id, p.pubkey)}
  }

  ghost function LimitAnnotations(apply: Applier, rootId: Id, path: seq<Event>, contents: seq<string>, overlays: set<Event>): set<Annotation>
    requires |contents| <= |path| + 1
    requires forall o :: o in overlays ==> ReplyTarget(o).Some?
  {
    set o | o in overlays && TrialOf(apply, rootId, path, contents, o).Tried?
            && TrialOf(apply, rootId, path, contents, o).result.Limit? :: ResourceLimit(o.id, o.pubkey)
  }

  ghost function ForkAnnotations(rootId: Id, path: seq<Event>, fork: set<Event>): set<Annotation>
    requires IdDetermines(fork)
  {
    if fork == {} then {}
    else {SelfFork(Position(rootId, path, |path|), Sorted(BranchesOf(fork), BranchKey))}
  }

  // ---------------------------------------------------------------- the specification

  ghost function WalkOf(obs: Observed, rootId: Id): (walk: (seq<Event>, set<Event>))
    requires Keyed(obs) && Patchable(obs, rootId)
    ensures Canonical(Line(obs, rootId), rootId, walk.0, walk.1) && WalkedTo(Line(obs, rootId), rootId, walk.0)
  {
    PatchesKeyed(obs, rootId);
    CanonicalWalk(Line(obs, rootId), rootId)
  }

  ghost function RunOf(apply: Applier, obs: Observed, rootId: Id): (run: Run)
    requires Keyed(obs) && Patchable(obs, rootId)
    ensures 1 <= |run.contents| <= |WalkOf(obs, rootId).0| + 1
  {
    Advance(apply, obs[rootId].content, WalkOf(obs, rootId).0)
  }

  ghost function ChainOf(apply: Applier, obs: Observed, rootId: Id): ChainState
    requires Keyed(obs) && Patchable(obs, rootId)
  {
    var walk := WalkOf(obs, rootId);
    ChainStateOf(rootId, walk.0, walk.1, RunOf(apply, obs, rootId))
  }

  ghost function OverlaySet(apply: Applier, obs: Observed, rootId: Id): set<Overlay>
    requires Keyed(obs) && Patchable(obs, rootId)
  {
    set o | o in OverlayEvents(obs, rootId) ::
      OverlayOf(apply, obs, rootId, WalkOf(obs, rootId).0, RunOf(apply, obs, rootId), ChainOf(apply, obs, rootId), o)
  }

  ghost function AnnotationSet(apply: Applier, obs: Observed, rootId: Id): set<Annotation>
    requires Keyed(obs) && Patchable(obs, rootId)
  {
    var (path, fork) := WalkOf(obs, rootId);
    var run := RunOf(apply, obs, rootId);
    PatchesKeyed(obs, rootId);
    LimitAnnotations(apply, rootId, path, run.contents, OverlayEvents(obs, rootId))
    + StopAnnotations(run.stop) + ForkAnnotations(rootId, path, fork)
  }

  lemma OverlayKeysDiffer(apply: Applier, obs: Observed, rootId: Id)
    requires Keyed(obs) && Patchable(obs, rootId)
    ensures InjectiveOn(OverlayKey, OverlaySet(apply, obs, rootId))
  {
    PatchesKeyed(obs, rootId);
    hide ReplyTarget;
  }

  lemma LimitsNameOverlays(apply: Applier, rootId: Id, path: seq<Event>, contents: seq<string>, overlays: set<Event>)
    requires |contents| <= |path| + 1 && IdDetermines(overlays)
    requires forall o :: o in overlays ==> ReplyTarget(o).Some?
    ensures forall a :: a in LimitAnnotations(apply, rootId, path, contents, overlays) ==>
              a.ResourceLimit? && exists o :: o in overlays && a == ResourceLimit(o.id, o.pubkey)
    ensures InjectiveOn(AnnotationKey, LimitAnnotations(apply, rootId, path, contents, overlays))
  {
    hide ReplyTarget, TrialOf;
  }

  lemma KeysOfUnion(limits: set<Annotation>, stops: set<Annotation>, forks: set<Annotation>)
    requires InjectiveOn(AnnotationKey, limits)
    requires forall a :: a in limits ==> a.ResourceLimit?
    requires |stops| <= 1 && forall a, b :: a in stops && b in limits ==> AnnotationKey(a) != AnnotationKey(b)
    requires |forks| <= 1 && forall a :: a in forks ==> a.SelfFork?
    requires forall a :: a in stops ==> !a.SelfFork?
    ensures InjectiveOn(AnnotationKey, limits + stops + forks)
  {
    forall a | a in stops ensures stops == {a} { OnlyElement(stops, a); }
    forall a | a in forks ensures forks == {a} { OnlyElement(forks, a); }
  }

  lemma OverlaysAreNotOnTheLine(obs: Observed, rootId: Id, p: Event)
    requires Keyed(obs) && Patchable(obs, rootId) && p in Line(obs, rootId)
    ensures p.id !in IdsOf(OverlayEvents(obs, rootId))
  {
    PatchesKeyed(obs, rootId);
    hide ReplyTarget, IsPatchFor, Deleted;
  }

  lemma AnnotationKeysDiffer(apply: Applier, obs: Observed, rootId: Id)
    requires Keyed(obs) && Patchable(obs, rootId)
    ensures InjectiveOn(AnnotationKey, AnnotationSet(apply, obs, rootId))
  {
    PatchesKeyed(obs, rootId);
    hide ReplyTarget, Advance, TrialOf, IsPatchFor, Deleted, Canonical;
    var run := RunOf(apply, obs, rootId);
    var (path, fork) := WalkOf(obs, rootId);
    var overlays := OverlayEvents(obs, rootId);
    if !run.stop.Completed? {
      assert run.stop.patch in path;
      OverlaysAreNotOnTheLine(obs, rootId, run.stop.patch);
    }
    assert IdDetermines(overlays) && IdDetermines(fork);
    hide OverlayEvents, WalkedTo, Line;
    LimitsNameOverlays(apply, rootId, path, run.contents, overlays);
    hide LimitAnnotations;
    KeysOfUnion(LimitAnnotations(apply, rootId, path, run.contents, overlays),
                StopAnnotations(run.stop), ForkAnnotations(rootId, path, fork));
  }

  /** The whole resolution of `rootId` against an observed set. */
  ghost function ResolveOf(apply: Applier, obs: Observed, rootId: Id): Resolution
    requires Keyed(obs)
  {
    if rootId !in obs then
      Resolution(Absent(RootUnobserved), [], SortedIds(IdsOf(PatchesOf(obs, rootId))), [])
    else if !IsRoot(obs[rootId]) then
      Resolution(Absent(RootNotPatchable), [], [], [])
    else
      OverlayKeysDiffer(apply, obs, rootId);
      AnnotationKeysDiffer(apply, obs, rootId);
      Resolution(
        ChainOf(apply, obs, rootId),
        Sorted(OverlaySet(apply, obs, rootId), OverlayKey),
        SortedIds(IdsOf(HeldPatches(obs, rootId))),
        Sorted(AnnotationSet(apply, obs, rootId), AnnotationKey))
  }
}
