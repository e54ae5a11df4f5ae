/**
 * What a resolution says, read off its own fields: where the chain stands and why, the state of
 * every overlay, the annotations, the pending list, and the order things are reported in.
 */
module ResolveMeaning {
  import opened Prelude
  import opened Ordering
  import opened Events
  import opened PatchTypes
  import opened ChainWalk
  import opened ResolveSpec

  /** The applier took the patch. */
  predicate Takes(result: ApplyResult) {
    result.Applied? || result.Noop?
  }

  /** The contents along a path: each patch takes the content before it to the next, as far as they go. */
  ghost predicate Contents(apply: Applier, start: string, path: seq<Event>, contents: seq<string>) {
    && 1 <= |contents| <= |path| + 1 && contents[0] == start
    && (forall i {:trigger contents[i]} :: 0 <= i < |contents| - 1 ==>
          Takes(apply(contents[i], path[i].content)) && apply(contents[i], path[i].content).content == contents[i + 1])
    && (|contents| <= |path| ==> !Takes(apply(contents[|contents| - 1], path[|contents| - 1].content)))
  }

  lemma {:induction false} AdvanceMeans(apply: Applier, content: string, path: seq<Event>)
    ensures var run := Advance(apply, content, path);
            var n := |run.contents| - 1;
            && Contents(apply, content, path, run.contents)
            && (n == |path| ==> run.stop == Completed)
            && (n < |path| ==> match apply(run.contents[n], path[n].content)
                               case Halt(reason, _) => run.stop == HaltedAt(path[n], reason)
                               case Limit(limit, _, _) => run.stop == AbortedAt(path[n], limit)
                               case _ => false)
    decreases |path|
  {
    if path != [] && Takes(apply(content, path[0].content)) {
      var next := apply(content, path[0].content).content;
      AdvanceMeans(apply, next, path[1..]);
      var run, rest := Advance(apply, content, path), Advance(apply, next, path[1..]);
      assert run.contents == [content] + rest.contents && run.stop == rest.stop;
      forall i {:trigger run.contents[i]} | 0 <= i < |run.contents| - 1
        ensures Takes(apply(run.contents[i], path[i].content)) && apply(run.contents[i], path[i].content).content == run.contents[i + 1]
      {
        if i > 0 { assert rest.contents[i - 1] == run.contents[i] && path[1..][i - 1] == path[i]; }
      }
    }
  }

  /** The contents along the canonical path of a root. */
  ghost function Along(apply: Applier, obs: Observed, rootId: Id): (contents: seq<string>)
    requires Keyed(obs) && Patchable(obs, rootId)
    ensures Contents(apply, obs[rootId].content, WalkOf(obs, rootId).0, contents)
  {
    AdvanceMeans(apply, obs[rootId].content, WalkOf(obs, rootId).0);
    RunOf(apply, obs, rootId).contents
  }

  /** Contents along a path are determined by where it starts. */
  lemma {:induction false} ContentsUnique(apply: Applier, start: string, path: seq<Event>, a: seq<string>, b: seq<string>, n: nat)
    requires Contents(apply, start, path, a) && Contents(apply, start, path, b) && n < |a|
    ensures n < |b| && a[n] == b[n]
  {
    if n > 0 {
      ContentsUnique(apply, start, path, a, b, n - 1);
      assert a[n - 1] == b[n - 1];
      assert Takes(apply(a[n - 1], path[n - 1].content));
    }
  }

  // ---------------------------------------------------------------- the walk

  /** A root-author patch of the root that its author has not retracted. */
  ghost predicate OwnPatch(obs: Observed, rootId: Id, p: Event) {
    && rootId in obs && p.id in obs && obs[p.id] == p && p.pubkey == obs[rootId].pubkey
    && !IsDeletion(p) && TypeOf(p) == Some(Patch) && RootTarget(p) == Some(rootId)
    && !exists d :: d in obs && IsDeletion(obs[d]) && obs[d].pubkey == p.pubkey && p.id in RefIds(obs[d])
  }

  lemma OwnPatchesAre(obs: Observed, rootId: Id, p: Event)
    requires Keyed(obs) && rootId in obs
    ensures p in Line(obs, rootId) <==> OwnPatch(obs, rootId, p)
  {
    PatchMember(obs, rootId, p);
    hide PatchesOf, TypeOf, RootTarget, RefIds;
  }

  /**
   * The walk: from the root on, each patch is the one unretracted patch of the author's that
   * replies to the place before it; it ends where none does, or at a fork of all those that do.
   */
  lemma WalkMeans(obs: Observed, rootId: Id, p: Event)
    requires Keyed(obs) && Patchable(obs, rootId)
    ensures var (path, fork) := WalkOf(obs, rootId);
            && (forall i {:trigger path[i]} :: 0 <= i < |path| ==>
                  (OwnPatch(obs, rootId, p) && ReplyTarget(p) == Some(Position(rootId, path, i)) <==> p == path[i]))
            && (OwnPatch(obs, rootId, p) && ReplyTarget(p) == Some(Position(rootId, path, |path|)) <==> p in fork)
            && |fork| != 1
  {
    assert rootId in obs;
    hide *;
    OwnPatchesAre(obs, rootId, p);
    var (path, fork) := WalkOf(obs, rootId);
    PathIsOneByOne(Line(obs, rootId), rootId, path, fork, p);
  }

  lemma PathIsOneByOne(line: set<Event>, rootId: Id, path: seq<Event>, fork: set<Event>, p: Event)
    requires Canonical(line, rootId, path, fork)
    ensures forall i {:trigger path[i]} :: 0 <= i < |path| ==>
              (p in line && ReplyTarget(p) == Some(Position(rootId, path, i)) <==> p == path[i])
    ensures p in line && ReplyTarget(p) == Some(Position(rootId, path, |path|)) <==> p in fork
    ensures |fork| != 1
  {
    hide ReplyTarget;
    forall i | 0 <= i < |path|
      ensures p in line && ReplyTarget(p) == Some(Position(rootId, path, i)) <==> p == path[i]
    {
      assert p in Kids(line, Position(rootId, path, i)) <==> p in {path[i]};
    }
  }

  // ---------------------------------------------------------------- the chain

  /**
   * The chain result: how far the canonical path applies, the content and tip there, the ids
   * applied, and what stopped it. A fork shows only when everything before it applied.
   */
  lemma ChainMeans(apply: Applier, obs: Observed, rootId: Id)
    requires Keyed(obs) && Patchable(obs, rootId)
    ensures var (path, fork) := WalkOf(obs, rootId);
            var contents := Along(apply, obs, rootId);
            var n := |contents| - 1;
            match ResolveOf(apply, obs, rootId).chain
            case Resolved(content, tip, applied) =>
              && n == |path| && fork == {} && content == contents[n] && tip == Position(rootId, path, n)
              && |applied| == n && forall i :: 0 <= i < n ==> applied[i] == path[i].id
            case Halted(content, tip, applied, at, reason) =>
              && n < |path| && content == contents[n] && tip == Position(rootId, path, n) && at == path[n].id
              && |applied| == n && (forall i :: 0 <= i < n ==> applied[i] == path[i].id)
              && apply(content, path[n].content).Halt? && apply(content, path[n].content).reason == reason
            case Aborted(content, tip, applied, at, limit) =>
              && n < |path| && content == contents[n] && tip == Position(rootId, path, n) && at == path[n].id
              && |applied| == n && (forall i :: 0 <= i < n ==> applied[i] == path[i].id)
              && apply(content, path[n].content).Limit? && apply(content, path[n].content).limit == limit
            case Forked(content, parent, branches) =>
              && n == |path| && fork != {} && content == contents[n] && parent == Position(rootId, path, n)
              && (forall id :: id in branches <==> exists b :: b in fork && b.id == id)
              && forall i, j :: 0 <= i < j < |branches| ==> branches[i] < branches[j]
            case Absent(_) => false
  {
    hide Line, Canonical, WalkedTo, OverlaySet, AnnotationSet, HeldPatches, IsRoot, Advance, Contents;
    var (path, fork) := WalkOf(obs, rootId);
    AdvanceMeans(apply, obs[rootId].content, path);
    var chain := ResolveOf(apply, obs, rootId).chain;
    if chain.Forked? { SortedIdsMean(IdsOf(fork)); }
  }

  /** Sorted ids ascend and are the ids given. */
  lemma SortedIdsMean(ids: set<Id>)
    ensures forall id :: id in SortedIds(ids) <==> id in ids
    ensures forall i, j :: 0 <= i < j < |SortedIds(ids)| ==> SortedIds(ids)[i] < SortedIds(ids)[j]
  {
    forall id ensures id in SortedIds(ids) <==> id in ids { assert id in Elems(SortedIds(ids)) <==> id in ids; }
    forall i, j | 0 <= i < j < |SortedIds(ids)| ensures SortedIds(ids)[i] < SortedIds(ids)[j] {
      assert KeyLt(IdKey(SortedIds(ids)[i]), IdKey(SortedIds(ids)[j]));
    }
  }

  /** An unobserved root and one that is not a product or metadata have no chain, and the reason says which. */
  lemma AbsentMeans(apply: Applier, obs: Observed, rootId: Id)
    requires Keyed(obs) && !Patchable(obs, rootId)
    ensures var res := ResolveOf(apply, obs, rootId);
            && res.overlays == [] && res.annotations == []
            && (rootId !in obs ==> res.chain == Absent(RootUnobserved))
            && (rootId !in obs ==>
                  forall id :: id in res.pending <==>
                    id in obs && !IsDeletion(obs[id]) && TypeOf(obs[id]) == Some(Patch) && RootTarget(obs[id]) == Some(rootId))
            && (rootId in obs ==> res.chain == Absent(RootNotPatchable) && res.pending == [])
  {
    if rootId !in obs {
      SortedIdsMean(IdsOf(PatchesOf(obs, rootId)));
      hide TypeOf, RootTarget, IsDeletion;
      forall id ensures id in IdsOf(PatchesOf(obs, rootId)) <==> id in obs && IsPatchFor(obs[id], rootId) {
        if id in obs && IsPatchFor(obs[id], rootId) { assert obs[id] in PatchesOf(obs, rootId); }
      }
    }
  }

  /** The pending list: in order of id, the author's unretracted patches whose lineage ends at an unobserved id. */
  lemma PendingMeans(apply: Applier, obs: Observed, rootId: Id)
    requires Keyed(obs) && Patchable(obs, rootId)
    ensures var pending := ResolveOf(apply, obs, rootId).pending;
            && (forall id :: id in pending <==> exists p :: p in HeldPatches(obs, rootId) && p.id == id)
            && forall i, j :: 0 <= i < j < |pending| ==> pending[i] < pending[j]
  {
    hide HeldPatches, OverlaySet, AnnotationSet, ChainOf, IsRoot;
    SortedIdsMean(IdsOf(HeldPatches(obs, rootId)));
  }

  // ---------------------------------------------------------------- overlays

  /** The event behind an overlay: another author's unretracted patch of the root that says what it replies to. */
  ghost predicate OverlayEvent(obs: Observed, rootId: Id, e: Event) {
    && rootId in obs && e.id in obs && obs[e.id] == e && e.pubkey != obs[rootId].pubkey
    && !IsDeletion(e) && TypeOf(e) == Some(Patch) && RootTarget(e) == Some(rootId) && ReplyTarget(e).Some?
    && !Deleted(obs, e.id)
  }

  lemma OverlayEventsAre(obs: Observed, rootId: Id, e: Event)
    requires Keyed(obs) && rootId in obs
    ensures e in OverlayEvents(obs, rootId) <==> OverlayEvent(obs, rootId, e)
  {
    PatchMember(obs, rootId, e);
    hide PatchesOf, TypeOf, RootTarget, ReplyTarget, Deleted;
  }

  /** `target` is the position after `i` patches, and that position was reached. */
  ghost predicate ReachedAt(rootId: Id, path: seq<Event>, reached: nat, target: Id, i: int) {
    0 <= i < reached <= |path| + 1 && Position(rootId, path, i) == target
  }

  ghost predicate Reached(rootId: Id, path: seq<Event>, reached: nat, target: Id) {
    exists i :: ReachedAt(rootId, path, reached, target, i)
  }

  /** What applying an overlay comes to at a reached position. */
  ghost predicate TriedThere(apply: Applier, obs: Observed, rootId: Id, o: Overlay, test: ApplyResult -> bool)
    requires Keyed(obs) && Patchable(obs, rootId) && o.id in obs
  {
    var path, contents := WalkOf(obs, rootId).0, Along(apply, obs, rootId);
    exists i :: ReachedAt(rootId, path, |contents|, o.targetId, i) && test(apply(contents[i], obs[o.id].content))
  }

  /** The overlay replies to the chain's tip; a forked chain has none. */
  ghost predicate AtTip(chain: ChainState, target: Id) {
    match chain
    case Resolved(_, tip, _) => target == tip
    case Halted(_, tip, _, _, _) => target == tip
    case Aborted(_, tip, _, _, _) => target == tip
    case Forked(_, _, _) => false
    case Absent(_) => false
  }

  ghost predicate Refused(result: ApplyResult) { result.Halt? }

  ghost predicate OverLimit(result: ApplyResult) { result.Limit? }

  /** What the state of an overlay says. */
  ghost predicate StateMeans(apply: Applier, obs: Observed, rootId: Id, o: Overlay)
    requires Keyed(obs) && Patchable(obs, rootId) && o.id in obs
  {
    var chain, path, contents := ResolveOf(apply, obs, rootId).chain, WalkOf(obs, rootId).0, Along(apply, obs, rootId);
    && (o.state == Clean <==> TriedThere(apply, obs, rootId, o, Takes) && AtTip(chain, o.targetId))
    && (o.state == Stale <==> TriedThere(apply, obs, rootId, o, Takes) && !AtTip(chain, o.targetId))
    && (o.state == Conflict <==> TriedThere(apply, obs, rootId, o, Refused))
    && (o.state == Unclassified <==> TriedThere(apply, obs, rootId, o, OverLimit))
    && (o.state == Orphaned(Alpha) <==> !Reached(rootId, path, |contents|, o.targetId) && o.targetId in obs)
    && (o.state == Orphaned(Beta) <==> !Reached(rootId, path, |contents|, o.targetId) && o.targetId !in obs)
  }

  /** Positions do not repeat, so a target is reached at one place at most. */
  lemma ReachedOnce(obs: Observed, rootId: Id, reached: nat, target: Id, i: int, j: int)
    requires Keyed(obs) && Patchable(obs, rootId)
    requires ReachedAt(rootId, WalkOf(obs, rootId).0, reached, target, i) && ReachedAt(rootId, WalkOf(obs, rootId).0, reached, target, j)
    ensures i == j
  {
  }

  lemma TrialMeans(apply: Applier, obs: Observed, rootId: Id, e: Event)
    requires Keyed(obs) && Patchable(obs, rootId) && ReplyTarget(e).Some?
    ensures var path, contents := WalkOf(obs, rootId).0, Along(apply, obs, rootId);
            var trial := TrialOf(apply, rootId, path, contents, e);
            && (trial == NoPosition <==> !Reached(rootId, path, |contents|, ReplyTarget(e).value))
            && (trial.Tried? ==> exists i :: ReachedAt(rootId, path, |contents|, ReplyTarget(e).value, i)
                                             && trial.result == apply(contents[i], e.content))
  {
    hide Line, Canonical, WalkedTo, ReplyTarget, Contents, IsRoot;
    var path, contents := WalkOf(obs, rootId).0, Along(apply, obs, rootId);
    var target := ReplyTarget(e).value;
    if i: nat :| i < |contents| && Position(rootId, path, i) == target {
      assert ReachedAt(rootId, path, |contents|, target, i);
    }
    if i :| ReachedAt(rootId, path, |contents|, target, i) {
      assert 0 <= i < |contents| && Position(rootId, path, i) == target;
    }
  }

  lemma TriedIff(apply: Applier, obs: Observed, rootId: Id, o: Overlay, test: ApplyResult -> bool)
    requires Keyed(obs) && Patchable(obs, rootId) && o.id in obs && ReplyTarget(obs[o.id]) == Some(o.targetId)
    ensures var trial := TrialOf(apply, rootId, WalkOf(obs, rootId).0, Along(apply, obs, rootId), obs[o.id]);
            TriedThere(apply, obs, rootId, o, test) <==> trial.Tried? && test(trial.result)
  {
    TrialMeans(apply, obs, rootId, obs[o.id]);
    hide Line, Canonical, WalkedTo, ReplyTarget, Contents, IsRoot, TrialOf, Position, ReachedAt;
    var path, contents := WalkOf(obs, rootId).0, Along(apply, obs, rootId);
    if i :| ReachedAt(rootId, path, |contents|, o.targetId, i) {
      forall j | ReachedAt(rootId, path, |contents|, o.targetId, j) ensures i == j {
        ReachedOnce(obs, rootId, |contents|, o.targetId, i, j);
      }
    }
  }

  lemma TipMeans(apply: Applier, obs: Observed, rootId: Id, target: Id)
    requires Keyed(obs) && Patchable(obs, rootId)
    ensures var chain, path := ResolveOf(apply, obs, rootId).chain, WalkOf(obs, rootId).0;
            && chain == ChainOf(apply, obs, rootId)
            && (AtTip(chain, target) <==> !chain.Forked? && target == Position(rootId, path, |Along(apply, obs, rootId)| - 1))
  {
    ChainMeans(apply, obs, rootId);
    hide Line, Canonical, WalkedTo, OverlaySet, AnnotationSet, HeldPatches, IsRoot, Contents, ChainOf, Position, WalkOf;
  }

  /** Every overlay comes from such an event. */
  lemma OverlayHasEvent(apply: Applier, obs: Observed, rootId: Id, o: Overlay)
    requires Keyed(obs) && Patchable(obs, rootId) && o in ResolveOf(apply, obs, rootId).overlays
    ensures o.id in obs && OverlayEvent(obs, rootId, obs[o.id])
    ensures obs[o.id] in OverlayEvents(obs, rootId)
    ensures o == OverlayOf(apply, obs, rootId, WalkOf(obs, rootId).0, RunOf(apply, obs, rootId), ChainOf(apply, obs, rootId), obs[o.id])
  {
    assert o in Elems(ResolveOf(apply, obs, rootId).overlays);
    assert o in OverlaySet(apply, obs, rootId) by { hide Line, WalkOf, RunOf, ChainOf, AnnotationSet, HeldPatches, OverlayOf, OverlayEvents, IsRoot; }
    hide WalkOf, RunOf, ChainOf, OverlayEvents, IsRoot, ReplyTarget, OverlayEvent, StateOf, TrialOf;
    var e :| e in OverlayEvents(obs, rootId)
             && o == OverlayOf(apply, obs, rootId, WalkOf(obs, rootId).0, RunOf(apply, obs, rootId), ChainOf(apply, obs, rootId), e);
    OverlayEventsAre(obs, rootId, e);
    EventIsStored(obs, rootId, e);
  }

  lemma EventIsStored(obs: Observed, rootId: Id, e: Event)
    requires OverlayEvent(obs, rootId, e)
    ensures e.id in obs && obs[e.id] == e
  {
    hide TypeOf, RootTarget, ReplyTarget, Deleted;
  }

  lemma OverlayFields(apply: Applier, obs: Observed, rootId: Id, o: Overlay)
    requires Keyed(obs) && Patchable(obs, rootId) && o in ResolveOf(apply, obs, rootId).overlays
    ensures o.id in obs && OverlayEvent(obs, rootId, obs[o.id]) && o.author == obs[o.id].pubkey
    ensures ReplyTarget(obs[o.id]) == Some(o.targetId)
    ensures var path, contents := WalkOf(obs, rootId).0, Along(apply, obs, rootId);
            o.state == StateOf(TrialOf(apply, rootId, path, contents, obs[o.id]), o.targetId in obs,
                               !ChainOf(apply, obs, rootId).Forked? && o.targetId == Position(rootId, path, |contents| - 1))
  {
    hide WalkOf, ChainOf, OverlayEvents, IsRoot, ReplyTarget, OverlayEvent, StateOf, TrialOf, Contents, Position, RunOf, ResolveOf;
    OverlayHasEvent(apply, obs, rootId, o);
    TargetNamed(obs, rootId, obs[o.id]);
  }

  /** Every overlay comes from another author's patch of the root, and its state says exactly how that patch fares. */
  lemma OverlayMeans(apply: Applier, obs: Observed, rootId: Id, o: Overlay)
    requires Keyed(obs) && Patchable(obs, rootId) && o in ResolveOf(apply, obs, rootId).overlays
    ensures o.id in obs && OverlayEvent(obs, rootId, obs[o.id])
    ensures o.author == obs[o.id].pubkey && ReplyTarget(obs[o.id]) == Some(o.targetId)
    ensures StateMeans(apply, obs, rootId, o)
  {
    hide WalkOf, RunOf, ChainOf, OverlayEvents, IsRoot, ReplyTarget, OverlayEvent, Contents, Position, TriedThere, Reached, AtTip, Along,
         ResolveOf, OverlayOf, TrialOf;
    OverlayFields(apply, obs, rootId, o);
    TipMeans(apply, obs, rootId, o.targetId);
    TrialMeans(apply, obs, rootId, obs[o.id]);
    TriedIff(apply, obs, rootId, o, Takes);
    TriedIff(apply, obs, rootId, o, Refused);
    TriedIff(apply, obs, rootId, o, OverLimit);
  }

  lemma TargetNamed(obs: Observed, rootId: Id, e: Event)
    requires OverlayEvent(obs, rootId, e)
    ensures ReplyTarget(e).Some?
  {
  }

  /** Every such event has its overlay, and overlays come by target and then by id, in ascending order. */
  lemma OverlaysComplete(apply: Applier, obs: Observed, rootId: Id)
    requires Keyed(obs) && Patchable(obs, rootId)
    ensures var overlays := ResolveOf(apply, obs, rootId).overlays;
            && (forall e :: OverlayEvent(obs, rootId, e) ==> exists o :: o in overlays && o.id == e.id)
            && forall i, j :: 0 <= i < j < |overlays| ==>
                 overlays[i].targetId < overlays[j].targetId
                 || (overlays[i].targetId == overlays[j].targetId && overlays[i].id < overlays[j].id)
  {
    OverlayKeysDiffer(apply, obs, rootId);
    hide WalkOf, RunOf, ChainOf, OverlayEvents, IsRoot, ReplyTarget, OverlayEvent, AnnotationSet, HeldPatches, TrialOf, StateOf;
    var overlays := ResolveOf(apply, obs, rootId).overlays;
    forall e | OverlayEvent(obs, rootId, e) ensures exists o :: o in overlays && o.id == e.id {
      assert rootId in obs;
      OverlayEventsAre(obs, rootId, e);
      TargetNamed(obs, rootId, e);
      var o := OverlayOf(apply, obs, rootId, WalkOf(obs, rootId).0, RunOf(apply, obs, rootId), ChainOf(apply, obs, rootId), e);
      assert o in OverlaySet(apply, obs, rootId);
      assert o in Elems(overlays);
    }
    forall i, j | 0 <= i < j < |overlays|
      ensures overlays[i].targetId < overlays[j].targetId
              || (overlays[i].targetId == overlays[j].targetId && overlays[i].id < overlays[j].id)
    {
      assert KeyLt(OverlayKey(overlays[i]), OverlayKey(overlays[j]));
    }
  }

  // ---------------------------------------------------------------- annotations

  /** The patch that stopped the chain is on it, and so is the root author's. */
  lemma StopMeans(apply: Applier, obs: Observed, rootId: Id, a: Annotation)
    requires Keyed(obs) && Patchable(obs, rootId)
    ensures var chain, author := ResolveOf(apply, obs, rootId).chain, obs[rootId].pubkey;
            a in StopAnnotations(RunOf(apply, obs, rootId).stop) <==>
            || (chain.Halted? && a == ProtocolError(chain.haltedAt, author, chain.reason))
            || (chain.Aborted? && a == ResourceLimit(chain.abortedAt, author))
  {
    var path := WalkOf(obs, rootId).0;
    forall i | 0 <= i < |path| ensures path[i].pubkey == obs[rootId].pubkey {
      assert path[i] in Line(obs, rootId);
    }
    hide Line, Canonical, WalkedTo, OverlaySet, AnnotationSet, HeldPatches, IsRoot, WalkOf, Advance, Position, IdSeq;
  }

  /** The overlay's trial ran over a limit. */
  ghost predicate Overran(apply: Applier, obs: Observed, rootId: Id, e: Event)
    requires Keyed(obs) && Patchable(obs, rootId)
  {
    && ReplyTarget(e).Some?
    && var trial := TrialOf(apply, rootId, WalkOf(obs, rootId).0, Along(apply, obs, rootId), e);
       trial.Tried? && trial.result.Limit?
  }

  lemma LimitsAre(apply: Applier, obs: Observed, rootId: Id, a: Annotation)
    requires Keyed(obs) && Patchable(obs, rootId)
    ensures a in LimitAnnotations(apply, rootId, WalkOf(obs, rootId).0, Along(apply, obs, rootId), OverlayEvents(obs, rootId)) <==>
            exists e :: e in OverlayEvents(obs, rootId) && Overran(apply, obs, rootId, e) && a == ResourceLimit(e.id, e.pubkey)
  {
    hide WalkOf, TrialOf, IsRoot, PatchesOf, Contents, ReplyTarget;
  }

  lemma OverranIff(apply: Applier, obs: Observed, rootId: Id, o: Overlay)
    requires Keyed(obs) && Patchable(obs, rootId) && o in ResolveOf(apply, obs, rootId).overlays
    ensures o.id in obs && obs[o.id].id == o.id && obs[o.id].pubkey == o.author && obs[o.id] in OverlayEvents(obs, rootId)
    ensures o.state == Unclassified <==> Overran(apply, obs, rootId, obs[o.id])
  {
    hide WalkOf, TrialOf, IsRoot, OverlayEvents, Contents, ReplyTarget, OverlayEvent, Along, ResolveOf, OverlayOf, RunOf, ChainOf, Position;
    OverlayHasEvent(apply, obs, rootId, o);
    OverlayFields(apply, obs, rootId, o);
    EventIsStored(obs, rootId, obs[o.id]);
  }

  lemma LimitMeans(apply: Applier, obs: Observed, rootId: Id, a: Annotation)
    requires Keyed(obs) && Patchable(obs, rootId)
    ensures a in LimitAnnotations(apply, rootId, WalkOf(obs, rootId).0, Along(apply, obs, rootId), OverlayEvents(obs, rootId)) <==>
            a.ResourceLimit? && exists o :: o in ResolveOf(apply, obs, rootId).overlays
                                            && o.id == a.eventId && o.author == a.author && o.state == Unclassified
  {
    LimitsAre(apply, obs, rootId, a);
    hide WalkOf, IsRoot, OverlayEvents, OverlayEvent, Along, ResolveOf, Overran, LimitAnnotations;
    var overlays := ResolveOf(apply, obs, rootId).overlays;
    if e :| e in OverlayEvents(obs, rootId) && Overran(apply, obs, rootId, e) && a == ResourceLimit(e.id, e.pubkey) {
      OverlayEventsAre(obs, rootId, e);
      OverlaysComplete(apply, obs, rootId);
      EventIsStored(obs, rootId, e);
      var o :| o in overlays && o.id == e.id;
      OverranIff(apply, obs, rootId, o);
    }
    if a.ResourceLimit? {
      if o :| o in overlays && o.id == a.eventId && o.author == a.author && o.state == Unclassified {
        OverranIff(apply, obs, rootId, o);
        assert a == ResourceLimit(obs[o.id].id, obs[o.id].pubkey);
      }
    }
  }

  /** The branches of a fork as reported: all of them, in ascending order of id. */
  ghost predicate ListsFork(branches: seq<ForkBranch>, fork: set<Event>) {
    && (forall b :: b in branches <==> exists p :: p in fork && b == ForkBranch(p.id, p.pubkey, p.createdAt))
    && forall i, j :: 0 <= i < j < |branches| ==> branches[i].id < branches[j].id
  }

  lemma ForkMeans(obs: Observed, rootId: Id, a: Annotation)
    requires Keyed(obs) && Patchable(obs, rootId) && IdDetermines(WalkOf(obs, rootId).1)
    ensures var (path, fork) := WalkOf(obs, rootId);
            a in ForkAnnotations(rootId, path, fork) <==>
            a.SelfFork? && fork != {} && a.parentId == Position(rootId, path, |path|) && ListsFork(a.branches, fork)
  {
    var (path, fork) := WalkOf(obs, rootId);
    hide WalkOf, Position, IsRoot;
    var listed := Sorted(BranchesOf(fork), BranchKey);
    ListsAre(listed, fork);
    if a.SelfFork? {
      ListsAre(a.branches, fork);
      if ListsFork(a.branches, fork) { ListsUnique(a.branches, listed, BranchesOf(fork), BranchKey); }
    }
    hide BranchesOf, ListsFork, Lists;
  }

  lemma ListsAre(branches: seq<ForkBranch>, fork: set<Event>)
    ensures ListsFork(branches, fork) <==> Lists(branches, BranchesOf(fork), BranchKey)
  {
    forall b ensures b in Elems(branches) <==> b in branches
             ensures b in BranchesOf(fork) <==> exists p :: p in fork && b == ForkBranch(p.id, p.pubkey, p.createdAt) {}
    if ListsFork(branches, fork) {
      forall b ensures b in Elems(branches) <==> b in BranchesOf(fork) {}
      SameElements(Elems(branches), BranchesOf(fork));
    }
    if Lists(branches, BranchesOf(fork), BranchKey) {
      forall i, j | 0 <= i < j < |branches| ensures branches[i].id < branches[j].id {
        assert KeyLt(BranchKey(branches[i]), BranchKey(branches[j]));
      }
    }
  }

  lemma ReportedSet(apply: Applier, obs: Observed, rootId: Id, a: Annotation)
    requires Keyed(obs) && Patchable(obs, rootId)
    ensures IdDetermines(OverlayEvents(obs, rootId)) && IdDetermines(WalkOf(obs, rootId).1)
    ensures var (path, fork) := WalkOf(obs, rootId);
            a in ResolveOf(apply, obs, rootId).annotations <==>
            || a in LimitAnnotations(apply, rootId, path, Along(apply, obs, rootId), OverlayEvents(obs, rootId))
            || a in StopAnnotations(RunOf(apply, obs, rootId).stop)
            || a in ForkAnnotations(rootId, path, fork)
  {
    PatchesKeyed(obs, rootId);
    AnnotationKeysDiffer(apply, obs, rootId);
    hide OverlaySet, HeldPatches, IsRoot, LimitAnnotations, StopAnnotations, ForkAnnotations, ChainOf, Contents, TrialOf;
    assert a in Elems(ResolveOf(apply, obs, rootId).annotations) <==> a in AnnotationSet(apply, obs, rootId);
  }

  /**
   * The annotations: a halt and an abort of the chain under the failing patch, every overlay that
   * hit a limit, and a fork with its branches in order of id; nothing else.
   */
  lemma AnnotationsMean(apply: Applier, obs: Observed, rootId: Id, a: Annotation)
    requires Keyed(obs) && Patchable(obs, rootId)
    ensures var res, (path, fork) := ResolveOf(apply, obs, rootId), WalkOf(obs, rootId);
            a in res.annotations <==>
            match a
            case ProtocolError(id, author, reason) =>
              res.chain.Halted? && res.chain.haltedAt == id && res.chain.reason == reason && author == obs[rootId].pubkey
            case ResourceLimit(id, author) =>
              || (res.chain.Aborted? && res.chain.abortedAt == id && author == obs[rootId].pubkey)
              || exists o :: o in res.overlays && o.id == id && o.author == author && o.state == Unclassified
            case SelfFork(parent, branches) =>
              fork != {} && parent == Position(rootId, path, |path|) && ListsFork(branches, fork)
  {
    hide WalkOf, RunOf, Along, OverlayEvents, IsRoot, ResolveOf, LimitAnnotations, StopAnnotations, ForkAnnotations, ListsFork, Position;
    ReportedSet(apply, obs, rootId, a);
    StopMeans(apply, obs, rootId, a);
    LimitMeans(apply, obs, rootId, a);
    ForkMeans(obs, rootId, a);
  }

  /** Annotations come as protocol errors, then limits, then the fork, each kind in ascending order of id. */
  lemma AnnotationOrder(apply: Applier, obs: Observed, rootId: Id, i: nat, j: nat)
    requires Keyed(obs) && Patchable(obs, rootId)
    requires i < j < |ResolveOf(apply, obs, rootId).annotations|
    ensures var a, b := ResolveOf(apply, obs, rootId).annotations[i], ResolveOf(apply, obs, rootId).annotations[j];
            match a
            case ProtocolError(id, _, _) => b.ProtocolError? ==> id < b.eventId
            case ResourceLimit(id, _) => !b.ProtocolError? && (b.ResourceLimit? ==> id < b.eventId)
            case SelfFork(id, _) => b.SelfFork? && id < b.parentId
  {
    AnnotationKeysDiffer(apply, obs, rootId);
    hide AnnotationSet, OverlaySet, HeldPatches, ChainOf, IsRoot;
    var annotations := ResolveOf(apply, obs, rootId).annotations;
    assert KeyLt(AnnotationKey(annotations[i]), AnnotationKey(annotations[j]));
  }
}
