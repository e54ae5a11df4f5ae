/** Running the engine again on the same desired state: exactly when every later run publishes nothing. */
module MirrorFixpoint {
  import opened Prelude
  import opened MirrorModel
  import opened MirrorRoots
  import opened MirrorRootPass
  import opened MirrorRelations
  import opened MirrorRelationPass
  import opened Mirror
  import opened Notice

  // ---------------------------------------------------------------- what the desired state must satisfy

  /** The ledger has a row for the record of the key's source, or the run will write one. */
  ghost predicate KnownOnce(plan: Plan, k: RootKey) {
    KnownSource(plan.roots, k.corpus, k.sourceId) || exists other :: Wanted(plan, other) && IsRecord(other, k.corpus, k.sourceId)
  }

  /** A desired root that the dataset's own list of sources disowns: it is published, retired and published again. */
  ghost predicate Vanishes(plan: Plan, k: RootKey) {
    Wanted(plan, k) && Unlisted(plan.state, k) && KnownOnce(plan, k)
  }

  /** Re-rooted content brings no notice of its own, or is what gets published. */
  predicate NoticeFits(root: DesiredRoot, notice: string) {
    Strip(root.content).notice.None? || Insert(Strip(root.content).body, notice) == root.content
  }

  function DesiredFor(plan: Plan, k: RootKey): DesiredRoot
    requires FirstAt(plan.state.roots, k) < |plan.state.roots|
  {
    plan.state.roots[FirstAt(plan.state.roots, k)]
  }

  ghost predicate ReRootsFit(plan: Plan) {
    forall k :: ReRooted(plan, k) && k in plan.roots ==> NoticeFits(DesiredFor(plan, k), plan.noticeText(DesiredFor(plan, k), plan.roots[k]))
  }

  /** The notices the engine writes are ones it recognises. */
  ghost predicate NoticesRead(plan: Plan) {
    forall k :: ReRooted(plan, k) && k in plan.roots ==> IsNotice(plan.noticeText(DesiredFor(plan, k), plan.roots[k]))
  }

  /** Nothing desired is disowned, and every re-root fits. */
  ghost predicate Steady(plan: Plan) {
    (forall k :: !Vanishes(plan, k)) && ReRootsFit(plan)
  }

  /** The same desired state against the ledger a run left. */
  function Again(plan: Plan, v: View): Plan {
    plan.(roots := v.roots, relations := v.relations)
  }

  /**
   * A re-root settles exactly when the desired content carries no notice of its own, or happens to be what was
   * published; otherwise the very next run patches the fresh root.
   */
  lemma ReRootSettlesIff(root: DesiredRoot, id: Id, notice: string)
    requires IsNotice(notice)
    ensures var next := ClassOf(root, Some(FreshRow(root, id, Insert(Strip(root.content).body, notice))));
            && (next == Stable <==> NoticeFits(root, notice))
            && (next != Stable ==> next == ContentOnly)
  {
    if Strip(root.content).notice.None? { MoveSettles(root, id, notice); }
  }

  // ---------------------------------------------------------------- the ledger after a run

  lemma KeysAfter(plan: Plan, v0: View, v: View, k: RootKey)
    requires RootsSettled(plan, v0, v.roots)
    ensures k in v.roots <==> k in plan.roots || Wanted(plan, k)
  {
    EndpointLive(plan, v0, v, k);
    hide Gone, FirstAt, KeyClass, ClassOf, Wanted;
    if !Wanted(plan, k) && !Gone(plan, k) { assert Untouched(plan.roots, v.roots, k); }
  }

  /** Which sources are known settles with the first run. */
  lemma KnownAfter(plan: Plan, v0: View, v: View, k: RootKey)
    requires RootsSettled(plan, v0, v.roots)
    ensures KnownSource(v.roots, k.corpus, k.sourceId) <==> KnownOnce(plan, k)
    ensures KnownOnce(Again(plan, v), k) <==> KnownOnce(plan, k)
  {
    forall other ensures other in v.roots <==> other in plan.roots || Wanted(plan, other) { KeysAfter(plan, v0, v, other); }
    hide RootsSettled, IsRecord, FirstAt;
    assert forall other :: Wanted(Again(plan, v), other) <==> Wanted(plan, other);
    hide Wanted;
    if other :| other in v.roots && IsRecord(other, k.corpus, k.sourceId) { assert KnownOnce(plan, k); }
  }

  lemma VanishesAgain(plan: Plan, v0: View, v: View, k: RootKey)
    requires RootsSettled(plan, v0, v.roots)
    ensures Vanishes(Again(plan, v), k) <==> Vanishes(plan, k)
    ensures Vanishes(plan, k) && Live(v.roots, k) ==> Gone(Again(plan, v), k)
    ensures Wanted(plan, k) && Gone(plan, k) ==> Vanishes(plan, k)
  {
    KnownAfter(plan, v0, v, k);
    hide RootsSettled, KnownSource, FirstAt;
  }

  /** The class a desired root has in the next run. */
  lemma NextClass(plan: Plan, v0: View, v: View, k: RootKey)
    requires RootsSettled(plan, v0, v.roots) && Wanted(plan, k) && !Gone(plan, k) && NoticesRead(plan)
    ensures Live(v.roots, k)
    ensures KeyClass(Again(plan, v), k) == Stable <==>
            (ReRooted(plan, k) && k in plan.roots ==> NoticeFits(DesiredFor(plan, k), plan.noticeText(DesiredFor(plan, k), plan.roots[k])))
    ensures KeyClass(Again(plan, v), k) in {Stable, ContentOnly}
  {
    hide ClassOf, Gone, FirstAt, NoticeFits;
    assert Done(plan, v0.mint, k, v.roots);
    if KeyClass(plan, k) == Moved {
      MovedIsLive(plan, k);
      var root := DesiredFor(plan, k);
      ReRootSettlesIff(root, v.roots[k].tipEventId, plan.noticeText(root, plan.roots[k]));
    }
  }

  // ---------------------------------------------------------------- a steady state stays steady and quiet

  lemma SteadyAgain(plan: Plan, v0: View, s: RunState, v: View)
    requires RunDone(plan, v0, s, v) && Steady(plan) && NoticesRead(plan)
    ensures Steady(Again(plan, v)) && NoticesRead(Again(plan, v))
    ensures Quiet(Again(plan, v), |plan.state.roots|)
    ensures forall k :: Wanted(plan, k) ==> Live(v.roots, k)
  {
    hide RunDone, RootsSettled, RelationsSettled, AllTargets, ReRootsAre, KeyClass, Vanishes, Gone, NoticeFits, FirstAt, NoticesRead, RelsQuiet;
    RunTargets(plan, v0, s, v);
    forall k ensures !Vanishes(Again(plan, v), k) { VanishesAgain(plan, v0, v, k); }
    forall k | Wanted(plan, k) ensures Live(v.roots, k) && KeyClass(Again(plan, v), k) == Stable {
      VanishesAgain(plan, v0, v, k);
      NextClass(plan, v0, v, k);
    }
    NothingMoves(Again(plan, v));
  }

  /** Where every desired root is stable nothing is re-rooted, and nothing can fail to fit. */
  lemma NothingMoves(plan: Plan)
    requires forall k :: Wanted(plan, k) ==> KeyClass(plan, k) == Stable
    ensures ReRootsFit(plan) && NoticesRead(plan) && Quiet(plan, |plan.state.roots|)
  {
    hide KeyClass, FirstAt;
  }

  lemma NoneAbsentAgain(plan: Plan, v0: View, s: RunState, v: View)
    requires RunDone(plan, v0, s, v)
    ensures forall rk :: !AbsentRel(Again(plan, v), rk)
  {
    RunTargets(plan, v0, s, v);
    hide RunDone, RootsSettled, AllTargets, ReRootsAre, RelationCorpora, FirstRel, RelDone;
    forall rk ensures !AbsentRel(Again(plan, v), rk) {
      assert WantedRel(Again(plan, v), rk) <==> WantedRel(plan, rk);
      if !WantedRel(plan, rk) && !AbsentRel(plan, rk) { assert RelUntouched(plan.relations, v.relations, rk); }
    }
  }

  /** In a quiet second run what resolves already resolved in the first. */
  lemma ResolvedBefore(plan: Plan, v0: View, s: RunState, v: View, s2: RunState, v2: View, k: RootKey)
    requires RunDone(plan, v0, s, v) && RunDone(Again(plan, v), v, s2, v2)
    requires forall other :: Wanted(plan, other) ==> Live(v.roots, other)
    requires k in s2.rootIds
    ensures k in s.rootIds
  {
    RunRows(plan, v0, s, v);
    RunRows(Again(plan, v), v, s2, v2);
    RunTargets(Again(plan, v), v, s2, v2);
    hide RunDone, Inv, RelationsSettled, AllTargets, ReRootsAre, UpsertedRoots, UpsertedRelations, RootsSettled, RootCorpora, Gone, FirstAt;
    EndpointLive(Again(plan, v), v, v2, k);
    assert Wanted(Again(plan, v), k) ==> Wanted(plan, k);
  }

  lemma RelationsQuietAgain(plan: Plan, v0: View, s: RunState, v: View, s2: RunState, v2: View)
    requires RunDone(plan, v0, s, v) && Steady(plan) && NoticesRead(plan)
    requires RunDone(Again(plan, v), v, s2, v2)
    ensures RelsQuiet(Again(plan, v), s2, |plan.state.relations|)
  {
    SteadyAgain(plan, v0, s, v);
    NoReRootAgain(plan, v, s2, v2);
    RunTargets(plan, v0, s, v);
    hide RunDone, RootsSettled, AllTargets, Steady, NoticesRead, FirstRel, Quiet, ReRootsAre, RelDone, RelStable, Resolvable;
    forall rk | WantedRel(plan, rk)
      ensures var rel := plan.state.relations[FirstRel(plan.state.relations, rk)];
              !Resolvable(s2.rootIds, rel) || RelStable(Again(plan, v), s2.reRootIndex, rel)
    {
      RelationQuietAgain(plan, v0, s, v, s2, v2, plan.state.relations[FirstRel(plan.state.relations, rk)]);
    }
  }

  lemma NoReRootAgain(plan: Plan, v: View, s2: RunState, v2: View)
    requires RunDone(Again(plan, v), v, s2, v2) && Quiet(Again(plan, v), |plan.state.roots|)
    ensures forall k :: k !in s2.reRootIndex
  {
    var again := Again(plan, v);
    RunTargets(again, v, s2, v2);
    hide RunDone, RootsSettled, RelationsSettled, AllTargets, ClassOf, FirstAt, Supersedes;
    forall k ensures k !in s2.reRootIndex {
      if Wanted(again, k) { assert KeyClass(again, k) == Stable; }
    }
  }

  lemma RelationQuietAgain(plan: Plan, v0: View, s: RunState, v: View, s2: RunState, v2: View, rel: DesiredRelation)
    requires RunDone(plan, v0, s, v) && RunDone(Again(plan, v), v, s2, v2)
    requires (forall k :: Wanted(plan, k) ==> Live(v.roots, k)) && forall k :: k !in s2.reRootIndex
    requires RelDone(plan, s, v0.mint, rel, v)
    ensures !Resolvable(s2.rootIds, rel) || RelStable(Again(plan, v), s2.reRootIndex, rel)
  {
    hide RunDone, Wanted, RelStable, Live;
    if Resolvable(s2.rootIds, rel) {
      ResolvedBefore(plan, v0, s, v, s2, v2, rel.rootRef);
      ResolvedBefore(plan, v0, s, v, s2, v2, rel.linkRef);
      StableAgain(plan, s, v0.mint, rel, v, s2);
    }
  }

  lemma StableAgain(plan: Plan, s: RunState, start: Id, rel: DesiredRelation, v: View, s2: RunState)
    requires RelDone(plan, s, start, rel, v) && Resolvable(s.rootIds, rel)
    requires rel.rootRef !in s2.reRootIndex && rel.linkRef !in s2.reRootIndex
    ensures RelStable(Again(plan, v), s2.reRootIndex, rel)
  {
  }

  /** From a steady state, running again signs nothing, also just after a re-root. */
  lemma RerunIsQuiet(plan: Plan, v0: View, s: RunState, v: View, s2: RunState, v2: View, events: seq<Emitted>)
    requires RunDone(plan, v0, s, v) && Steady(plan) && NoticesRead(plan)
    requires RunDone(Again(plan, v), v, s2, v2) && Publishes(v, v2, events)
    ensures events == []
  {
    SteadyAgain(plan, v0, s, v);
    NoneAbsentAgain(plan, v0, s, v);
    RelationsQuietAgain(plan, v0, s, v, s2, v2);
    RunTargets(Again(plan, v), v, s2, v2);
  }

  // ---------------------------------------------------------------- what makes a later run speak

  /** A desired root that is new, changed or moved, and not retired at once, has an event signed for it. */
  lemma ChangedRootSpeaks(plan: Plan, v0: View, s: RunState, v: View, events: seq<Emitted>, k: RootKey)
    requires RunDone(plan, v0, s, v) && Publishes(v0, v, events)
    requires Wanted(plan, k) && KeyClass(plan, k) != Stable && !Gone(plan, k)
    ensures events != [] && Live(v.roots, k)
  {
    RunRows(plan, v0, s, v);
    RunTargets(plan, v0, s, v);
    ClassOfNew(plan, k);
    hide RunDone, RelationsSettled, AllTargets, ReRootsAre, Inv, UpsertedRoots, UpsertedRelations, RootIdsOk, ClassOf, Gone, FirstAt;
    assert Done(plan, v0.mint, k, v.roots);
    TipsAreOwn(plan.patchText, v, k);
    InLog(plan.patchText, v, v.roots[k].rootEventId);
    InLog(plan.patchText, v, v.roots[k].tipEventId);
  }

  lemma InLog(patchText: PatchText, v: View, id: Id)
    requires Inv(patchText, v)
    ensures id in v.log ==> id < v.mint
  {
    hide LinesOk, RelationsOk, DeletionsOk;
  }

  /** A disowned root that a run leaves out of the ledger is published by the next; one it leaves in is retired by the next. */
  lemma VanishedIsRetired(plan: Plan, v0: View, s: RunState, v: View, k: RootKey)
    requires RunDone(plan, v0, s, v) && Vanishes(plan, k)
    ensures Live(v.roots, k) <==> !Gone(plan, k)
    ensures Live(v.roots, k) ==> Gone(Again(plan, v), k)
    ensures !Live(v.roots, k) ==> !Gone(Again(plan, v), k) && Wanted(Again(plan, v), k) && KeyClass(Again(plan, v), k) != Stable
  {
    RunTargets(plan, v0, s, v);
    EndpointLive(plan, v0, v, k);
    VanishesAgain(plan, v0, v, k);
    hide RunDone, RootsSettled, RelationsSettled, AllTargets, ReRootsAre, KnownOnce, KnownSource, FirstAt;
    ClassOfNew(Again(plan, v), k);
  }

  /** A disowned root keeps coming back: of two successive reruns one signs an event for it. */
  lemma VanishedReturns(plan: Plan, v0: View, s: RunState, v: View, s2: RunState, v2: View, e2: seq<Emitted>,
                        s3: RunState, v3: View, e3: seq<Emitted>, k: RootKey)
    requires RunDone(plan, v0, s, v) && Vanishes(plan, k)
    requires RunDone(Again(plan, v), v, s2, v2) && Publishes(v, v2, e2)
    requires RunDone(Again(plan, v2), v2, s3, v3) && Publishes(v2, v3, e3)
    ensures if Gone(plan, k) then e2 != [] else !Live(v2.roots, k) && e3 != []
  {
    VanishedIsRetired(plan, v0, s, v, k);
    assert Vanishes(Again(plan, v), k) by {
      RunTargets(plan, v0, s, v);
      VanishesAgain(plan, v0, v, k);
    }
    hide RunDone, Vanishes, Gone, KeyClass, Wanted, Publishes;
    if Gone(plan, k) {
      ChangedRootSpeaks(Again(plan, v), v, s2, v2, e2, k);
    } else {
      VanishedIsRetired(Again(plan, v), v, s2, v2, k);
      ChangedRootSpeaks(Again(plan, v2), v2, s3, v3, e3, k);
    }
  }

  /** A re-root that does not fit is patched by the next run. */
  lemma MisfitIsPatched(plan: Plan, v0: View, s: RunState, v: View, s2: RunState, v2: View, e2: seq<Emitted>, k: RootKey)
    requires RunDone(plan, v0, s, v) && NoticesRead(plan) && forall other :: !Vanishes(plan, other)
    requires ReRooted(plan, k) && k in plan.roots && !NoticeFits(DesiredFor(plan, k), plan.noticeText(DesiredFor(plan, k), plan.roots[k]))
    requires RunDone(Again(plan, v), v, s2, v2) && Publishes(v, v2, e2)
    ensures e2 != []
  {
    RunTargets(plan, v0, s, v);
    VanishesAgain(plan, v0, v, k);
    VanishesAgain(Again(plan, v), v, v2, k) by { RunTargets(Again(plan, v), v, s2, v2); }
    assert Wanted(Again(plan, v), k);
    hide RunDone, RootsSettled, RelationsSettled, AllTargets, ReRootsAre, Vanishes, Gone, Publishes, NoticeFits, KeyClass, Wanted;
    NextClass(plan, v0, v, k);
    ChangedRootSpeaks(Again(plan, v), v, s2, v2, e2, k);
  }

  // ---------------------------------------------------------------- every later run

  /** Further runs on the same desired state, each against the ledger the one before left. */
  ghost predicate Reruns(plan: Plan, views: seq<View>, states: seq<RunState>, outs: seq<seq<Emitted>>) {
    |views| == |outs| + 1 && |states| == |outs| && forall i :: 0 <= i < |outs| ==> Rerun(plan, views, states, outs, i)
  }

  ghost predicate Rerun(plan: Plan, views: seq<View>, states: seq<RunState>, outs: seq<seq<Emitted>>, i: nat)
    requires i < |outs| && |views| == |outs| + 1 && |states| == |outs|
  {
    RunDone(Again(plan, views[i]), views[i], states[i], views[i + 1]) && Publishes(views[i], views[i + 1], outs[i])
  }

  lemma {:induction false} SteadyThroughout(plan: Plan, v0: View, s: RunState, views: seq<View>, states: seq<RunState>,
                                            outs: seq<seq<Emitted>>, i: nat)
    requires Reruns(plan, views, states, outs) && i < |views| && RunDone(plan, v0, s, views[0])
    requires Steady(plan) && NoticesRead(plan)
    ensures Steady(Again(plan, views[i])) && NoticesRead(Again(plan, views[i]))
    decreases i
  {
    hide RunDone, Steady, NoticesRead, Publishes;
    if i == 0 {
      SteadyAgain(plan, v0, s, views[0]);
    } else {
      SteadyThroughout(plan, v0, s, views, states, outs, i - 1);
      assert Rerun(plan, views, states, outs, i - 1);
      SteadyAgain(Again(plan, views[i - 1]), views[i - 1], states[i - 1], views[i]);
      assert Again(Again(plan, views[i - 1]), views[i]) == Again(plan, views[i]);
    }
  }

  /** From a steady state every later run signs nothing, however many there are. */
  lemma RerunsStayQuiet(plan: Plan, v0: View, s: RunState, views: seq<View>, states: seq<RunState>, outs: seq<seq<Emitted>>, i: nat)
    requires Reruns(plan, views, states, outs) && i < |outs| && RunDone(plan, v0, s, views[0])
    requires Steady(plan) && NoticesRead(plan)
    ensures outs[i] == []
  {
    hide RunDone, Steady, NoticesRead, Publishes;
    assert Rerun(plan, views, states, outs, i);
    if i == 0 {
      RerunIsQuiet(plan, v0, s, views[0], states[0], views[1], outs[0]);
    } else {
      assert Rerun(plan, views, states, outs, i - 1);
      SteadyThroughout(plan, v0, s, views, states, outs, i - 1);
      assert Again(Again(plan, views[i - 1]), views[i]) == Again(plan, views[i]);
      RerunIsQuiet(Again(plan, views[i - 1]), views[i - 1], states[i - 1], views[i], states[i], views[i + 1], outs[i]);
    }
  }

  /**
   * All further runs on the same desired state are quiet if and only if no desired root is disowned
   * by its corpus' source list while the ledger knows its source, and every re-root of the first run fits.
   */
  lemma RerunsQuietIff(plan: Plan, v0: View, s: RunState, views: seq<View>, states: seq<RunState>, outs: seq<seq<Emitted>>)
    requires Reruns(plan, views, states, outs) && |outs| >= 2 && RunDone(plan, v0, s, views[0]) && NoticesRead(plan)
    ensures (forall i :: 0 <= i < |outs| ==> outs[i] == []) <==> Steady(plan)
  {
    assert Rerun(plan, views, states, outs, 0) && Rerun(plan, views, states, outs, 1);
    if Steady(plan) {
      forall i | 0 <= i < |outs| ensures outs[i] == [] { RerunsStayQuiet(plan, v0, s, views, states, outs, i); }
    } else {
      hide RunDone, Publishes, NoticesRead, NoticeFits, Vanishes, ReRooted, Gone;
      if k :| Vanishes(plan, k) {
        VanishedReturns(plan, v0, s, views[0], states[0], views[1], outs[0], states[1], views[2], outs[1], k);
      } else {
        var k :| ReRooted(plan, k) && k in plan.roots
                 && !NoticeFits(DesiredFor(plan, k), plan.noticeText(DesiredFor(plan, k), plan.roots[k]));
        MisfitIsPatched(plan, v0, s, views[0], states[0], views[1], outs[0], k);
      }
    }
  }

  // ---------------------------------------------------------------- a root published, retired and published again

  const DISOWNED := RootKey("seccerts/cc", "cert-1", "product")

  /** One desired product of a corpus whose source list is empty. */
  const DISOWNING := DesiredState([DesiredRoot(DISOWNED, "text", [], [], "hash")], [], map["seccerts/cc" := {}])

  /** Against an empty ledger: the first run publishes it, the second retires its row in silence, the third publishes it anew. */
  lemma DisownedRootReturns(plan: Plan, v0: View, s: RunState, v: View, e: seq<Emitted>, s2: RunState, v2: View, e2: seq<Emitted>,
                            s3: RunState, v3: View, e3: seq<Emitted>)
    requires plan.state == DISOWNING && plan.roots == map[] && plan.relations == map[]
    requires RunDone(plan, v0, s, v) && Publishes(v0, v, e)
    requires RunDone(Again(plan, v), v, s2, v2) && Publishes(v, v2, e2)
    requires RunDone(Again(plan, v2), v2, s3, v3) && Publishes(v2, v3, e3)
    ensures !Gone(plan, DISOWNED) && Vanishes(plan, DISOWNED)
    ensures e != [] && Live(v.roots, DISOWNED)
    ensures e2 == [] && !Live(v2.roots, DISOWNED)
    ensures e3 != [] && Live(v3.roots, DISOWNED)
  {
    hide RunDone, Publishes, Vanishes, Gone, Wanted, KeyClass, FirstAt;
    DisownedIsNew(plan);
    VanishedIsRetired(plan, v0, s, v, DISOWNED);
    VanishedReturns(plan, v0, s, v, s2, v2, e2, s3, v3, e3, DISOWNED);
    OnlyDisowned(plan, v0, s, v, s2, v2, e2);
    ChangedRootSpeaks(plan, v0, s, v, e, DISOWNED);
    DisownedThird(plan, v0, s, v, s2, v2, s3, v3, e3);
  }

  lemma DisownedIsNew(plan: Plan)
    requires plan.state == DISOWNING && plan.roots == map[]
    ensures Vanishes(plan, DISOWNED) && Wanted(plan, DISOWNED) && !Gone(plan, DISOWNED) && KeyClass(plan, DISOWNED) != Stable
  {
    assert FirstAt(plan.state.roots, DISOWNED) == 0;
    assert Wanted(plan, DISOWNED) && IsRecord(DISOWNED, "seccerts/cc", "cert-1");
    ClassOfNew(plan, DISOWNED);
    hide ClassOf;
  }

  lemma DisownedThird(plan: Plan, v0: View, s: RunState, v: View, s2: RunState, v2: View, s3: RunState, v3: View, e3: seq<Emitted>)
    requires RunDone(plan, v0, s, v) && RunDone(Again(plan, v), v, s2, v2)
    requires RunDone(Again(plan, v2), v2, s3, v3) && Publishes(v2, v3, e3)
    requires Vanishes(plan, DISOWNED) && !Live(v2.roots, DISOWNED)
    ensures Live(v3.roots, DISOWNED)
  {
    RunTargets(plan, v0, s, v);
    RunTargets(Again(plan, v), v, s2, v2);
    VanishesAgain(plan, v0, v, DISOWNED);
    hide RunDone, Vanishes, Gone, RootsSettled, RelationsSettled, AllTargets, ReRootsAre, Publishes, KeyClass, Wanted;
    VanishedIsRetired(Again(plan, v), v, s2, v2, DISOWNED);
    ChangedRootSpeaks(Again(plan, v2), v2, s3, v3, e3, DISOWNED);
  }

  /** The second run finds its one desired root as it left it, and no relation. */
  lemma OnlyDisowned(plan: Plan, v0: View, s: RunState, v: View, s2: RunState, v2: View, e2: seq<Emitted>)
    requires plan.state == DISOWNING && plan.roots == map[] && plan.relations == map[]
    requires RunDone(plan, v0, s, v) && RunDone(Again(plan, v), v, s2, v2) && Publishes(v, v2, e2)
    ensures e2 == []
  {
    RunTargets(plan, v0, s, v);
    NoneAbsentAgain(plan, v0, s, v);
    RunTargets(Again(plan, v), v, s2, v2);
    hide RunDone, RelationsSettled, AllTargets, ReRootsAre, ClassOf;
    forall k | Wanted(plan, k) ensures KeyClass(Again(plan, v), k) == Stable {
      ClassOfNew(plan, k);
      assert Done(plan, v0.mint, k, v.roots);
    }
    assert Quiet(Again(plan, v), |plan.state.roots|);
  }
}
