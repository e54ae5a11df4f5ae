/** How each desired relation is handled, and the retraction of the rest. */
module MirrorRelationPass {
  import opened Prelude
  import opened MirrorModel
  import opened MirrorBatch
  import opened MirrorRoots
  import opened MirrorRootPass
  import opened MirrorRelations

  /** The j-th desired relation is the first of its id. */
  ghost predicate RelTurn(plan: Plan, v0: View, r: RunState, u: View, s: RunState, v: View, seen: set<RelKey>, j: nat) {
    && j < |plan.state.relations| && RelsUpTo(plan, v0, r, u, s, v, seen, j)
    && plan.state.relations[j].key !in seen
  }

  lemma RelTurnParts(plan: Plan, v0: View, r: RunState, u: View, s: RunState, v: View, seen: set<RelKey>, j: nat)
    requires RelTurn(plan, v0, r, u, s, v, seen, j)
    ensures j < |plan.state.relations| && Consistent(plan, v0, s, v) && Fixed(r, u, s, v) && IndexOk(s)
    ensures Inv(plan.patchText, v) && s.mint == v.mint && Sorts(s.batch, s.reRootIndex) && AllTargets(plan, s, v.relations)
    ensures UpsertedRelations(plan.relations, s.relationRows) == v.relations
    ensures RelUntouched(plan.relations, v.relations, plan.state.relations[j].key)
    ensures RelKeysDone(plan, r, v0.mint, seen, v, j)
    ensures RelsQuiet(plan, r, j) ==> v.mint == u.mint
    ensures UpsertedRoots(plan.roots, s.rootRows) == v.roots && RootIdsOk(plan.state, s.rootIds, v.roots) && s.forkGuards == 0
    ensures v0.mint <= v.mint && s.rootIds == r.rootIds && s.reRootIndex == r.reRootIndex
  {
    hide Inv, Signed, Sorts, AllTargets, RelDone, UpsertedRoots, UpsertedRelations, RootIdsOk, RelsQuiet;
  }

  /** Everything of a step but what it says about its own relation. */
  lemma RelStep(plan: Plan, v0: View, r: RunState, u: View, s: RunState, v: View, seen: set<RelKey>, j: nat,
                t: RunState, w: View)
    requires RelTurn(plan, v0, r, u, s, v, seen, j)
    requires Consistent(plan, v0, t, w) && Fixed(r, u, t, w) && IndexOk(t)
    requires UpsertedRelations(plan.relations, t.relationRows) == w.relations && AllTargets(plan, t, w.relations)
    requires RelDone(plan, r, v0.mint, plan.state.relations[j], w)
    requires forall rk :: rk != plan.state.relations[j].key ==> RelUntouched(v.relations, w.relations, rk)
    requires forall id :: id in v.log ==> id in w.log && w.log[id] == v.log[id]
    requires var rel := plan.state.relations[j];
             !Resolvable(r.rootIds, rel) || RelStable(plan, r.reRootIndex, rel) ==> w.mint == v.mint
    ensures RelsUpTo(plan, v0, r, u, t, w, seen + {plan.state.relations[j].key}, j + 1)
  {
    hide RelTurn, Consistent, Fixed, AllTargets, RelDone, RelKeysDone, UpsertedRelations, RelUntouched, IndexOk, Resolvable, RelStable;
    RelTurnParts(plan, v0, r, u, s, v, seen, j);
    TurnFirst(plan, v0, r, u, s, v, seen, j);
    RelKeysStep(plan, r, v0.mint, seen, v, w, j);
    assert RelsQuiet(plan, r, j + 1) ==> RelsQuiet(plan, r, j);
  }

  lemma TurnFirst(plan: Plan, v0: View, r: RunState, u: View, s: RunState, v: View, seen: set<RelKey>, j: nat)
    requires RelTurn(plan, v0, r, u, s, v, seen, j)
    ensures var key := plan.state.relations[j].key;
            key !in seen && FirstRel(plan.state.relations, key) == j && WantedRel(plan, key)
  {
    hide Consistent, Fixed, AllTargets, RelDone, RelUntouched, UpsertedRelations;
    FirstRelSeen(plan, j, seen);
  }

  /** Unresolvable endpoints, or a binding that stands (R2): nothing happens. */
  lemma LeftAlone(plan: Plan, v0: View, r: RunState, u: View, s: RunState, v: View, seen: set<RelKey>, j: nat)
    requires RelTurn(plan, v0, r, u, s, v, seen, j)
    requires var rel := plan.state.relations[j];
             !Resolvable(r.rootIds, rel) || RelStable(plan, r.reRootIndex, rel)
    ensures RelsUpTo(plan, v0, r, u, s, v, seen + {plan.state.relations[j].key}, j + 1)
  {
    hide RelTurn, Consistent, Fixed, AllTargets, RelKeysDone, UpsertedRelations, IndexOk;
    RelTurnParts(plan, v0, r, u, s, v, seen, j);
    RelStep(plan, v0, r, u, s, v, seen, j, s, v);
  }

  /** Bindings go under the re-rooted root they are re-pointed to, the relation's root side first. */
  function Placed(s: RunState, rel: DesiredRelation, e: Emitted): Batch
    requires rel.rootRef in s.reRootIndex ==> s.reRootIndex[rel.rootRef] < |s.batch.reRoots|
    requires rel.linkRef in s.reRootIndex ==> s.reRootIndex[rel.linkRef] < |s.batch.reRoots|
  {
    if rel.rootRef in s.reRootIndex then
      s.batch.(reRoots := WithBinding(s.batch.reRoots, s.reRootIndex[rel.rootRef], e))
    else if rel.linkRef in s.reRootIndex then
      s.batch.(reRoots := WithBinding(s.batch.reRoots, s.reRootIndex[rel.linkRef], e))
    else s.batch.(newRelations := s.batch.newRelations + [e])
  }

  ghost predicate SameEntries(b: Batch, c: Batch) {
    |c.reRoots| == |b.reRoots| && forall i :: 0 <= i < |b.reRoots| ==> c.reRoots[i].event == b.reRoots[i].event
  }

  lemma PlacedAdds(s: RunState, rel: DesiredRelation, e: Emitted)
    requires IndexOk(s) && e.BindingEvent? && e.rootRef == rel.rootRef && e.linkRef == rel.linkRef
    ensures Adds(s.batch, Placed(s, rel, e), e)
    ensures SameEntries(s.batch, Placed(s, rel, e)) && Placed(s, rel, e).deletions == s.batch.deletions
    ensures Sorts(s.batch, s.reRootIndex) ==> Sorts(Placed(s, rel, e), s.reRootIndex)
  {
    hide Adds;
    if rel.rootRef in s.reRootIndex {
      AddBinding(s.batch, s.reRootIndex, s.reRootIndex[rel.rootRef], e);
    } else if rel.linkRef in s.reRootIndex {
      AddBinding(s.batch, s.reRootIndex, s.reRootIndex[rel.linkRef], e);
    } else {
      AddRelation(s.batch, s.reRootIndex, e);
    }
  }

  function BindingFor(rel: DesiredRelation, id: Id, rootId: Id, linkId: Id): Emitted {
    BindingEvent(id, rel.key, rel.rootRef, rel.linkRef, rootId, linkId, rel.fingerprint)
  }

  function WithBindingRow(v: View, rel: DesiredRelation, e: Emitted): View {
    WithEvent(v, e).(relations := v.relations[rel.key := RelationRow(rel.fingerprint, e.id, true)])
  }

  /** Signing a binding and standing by it. */
  lemma BindStep(patchText: PatchText, v: View, rel: DesiredRelation, rootId: Id, linkId: Id)
    requires Inv(patchText, v)
    ensures Inv(patchText, WithBindingRow(v, rel, BindingFor(rel, v.mint, rootId, linkId)))
  {
    var e := BindingFor(rel, v.mint, rootId, linkId);
    EventStep(patchText, v, e);
    var mid := WithEvent(v, e);
    forall id | id in mid.log && mid.log[id].DeletionEvent? ensures mid.log[id].target != e.id {
      assert id != e.id && Obsolete(v, v.log[id].target);
    }
    hide LinesOk, RelationsOk;
    RelationStep(patchText, mid, rel.key, RelationRow(rel.fingerprint, e.id, true));
  }

  lemma BindConsistent(plan: Plan, v0: View, s: RunState, v: View, rel: DesiredRelation, rootId: Id, linkId: Id)
    requires Consistent(plan, v0, s, v) && IndexOk(s) && s.mint == v.mint
    ensures var e := BindingFor(rel, s.mint, rootId, linkId);
            var row := RelationUpsert(rel.key, RelationRow(rel.fingerprint, e.id, true));
            && Consistent(plan, v0, s.(mint := s.mint + 1, batch := Placed(s, rel, e), relationRows := s.relationRows + [row]),
                          WithBindingRow(v, rel, e))
            && SameEntries(s.batch, Placed(s, rel, e)) && Placed(s, rel, e).deletions == s.batch.deletions
            && e.id !in v.log
  {
    var e := BindingFor(rel, s.mint, rootId, linkId);
    PlacedAdds(s, rel, e);
    hide Adds, Signed, RootIdsOk, UpsertedRoots, Sorts, Inv, Placed, IndexOk;
    BindStep(plan.patchText, v, rel, rootId, linkId);
    EmitOne(plan, v0, s, v, Placed(s, rel, e), e);
  }

  /** R1: a new binding, also for a relation retracted earlier. */
  method Bind(plan: Plan, ghost v0: View, ghost r: RunState, ghost u: View, s: RunState, ghost v: View, ghost seen: set<RelKey>, j: nat)
    returns (t: RunState, ghost w: View)
    requires RelTurn(plan, v0, r, u, s, v, seen, j)
    requires Resolvable(s.rootIds, plan.state.relations[j]) && !Bound(plan.relations, plan.state.relations[j].key)
    ensures RelsUpTo(plan, v0, r, u, t, w, seen + {plan.state.relations[j].key}, j + 1)
  {
    hide RelTurn, RelsUpTo, Consistent, Fixed, AllTargets, RelKeysDone, UpsertedRelations, UpsertedRoots, Inv, Sorts, RootIdsOk, RelUntouched, RelsQuiet;
    RelTurnParts(plan, v0, r, u, s, v, seen, j);
    var rel := plan.state.relations[j];
    var e := BindingFor(rel, s.mint, s.rootIds[rel.rootRef], s.rootIds[rel.linkRef]);
    t := s.(mint := s.mint + 1, batch := Placed(s, rel, e),
            relationRows := s.relationRows + [RelationUpsert(rel.key, RelationRow(rel.fingerprint, e.id, true))]);
    w := WithBindingRow(v, rel, e);
    BindConsistent(plan, v0, s, v, rel, s.rootIds[rel.rootRef], s.rootIds[rel.linkRef]);
    UpsertOneRelation(plan.relations, s.relationRows, RelationUpsert(rel.key, RelationRow(rel.fingerprint, e.id, true)));
    OthersUntouched(v.relations, w.relations, rel.key);
    TargetsSame(plan, s, t, v.relations, w.relations, rel.key);
    FixedStep(r, u, s, v, t, w);
    BindDone(plan, r, v0.mint, rel, s, v, w);
    RelStep(plan, v0, r, u, s, v, seen, j, t, w);
  }

  lemma OthersUntouched(relations: Relations, after: Relations, rk: RelKey)
    requires rk in after && after == relations[rk := after[rk]]
    ensures forall other :: other != rk ==> RelUntouched(relations, after, other)
  {
  }

  lemma FixedStep(r: RunState, u: View, s: RunState, v: View, t: RunState, w: View)
    requires Fixed(r, u, s, v) && IndexOk(s) && w.roots == v.roots && v.mint <= w.mint
    requires t.rootIds == s.rootIds && t.reRootIndex == s.reRootIndex && t.rootRows == s.rootRows
    requires SameEntries(s.batch, t.batch)
    requires forall id :: id in v.log ==> id in w.log && w.log[id] == v.log[id]
    ensures Fixed(r, u, t, w) && IndexOk(t)
  {
  }

  lemma BindDone(plan: Plan, r: RunState, start: Id, rel: DesiredRelation, s: RunState, v: View, w: View)
    requires Resolvable(s.rootIds, rel) && start <= v.mint && s.rootIds == r.rootIds
    requires w == WithBindingRow(v, rel, BindingFor(rel, v.mint, s.rootIds[rel.rootRef], s.rootIds[rel.linkRef]))
    requires !RelStable(plan, r.reRootIndex, rel)
    ensures RelDone(plan, r, start, rel, w)
  {
    hide RelStable;
  }

  /** Standing by a binding no longer, and naming it in a deletion. */
  function WithDropped(v: View, rk: RelKey): View
    requires rk in v.relations
  {
    WithEvent(v.(relations := v.relations[rk := v.relations[rk].(live := false)]), DeletionEvent(v.mint, v.relations[rk].eventId))
  }

  function WithDeletion(s: RunState, target: Id): RunState {
    s.(mint := s.mint + 1, batch := s.batch.(deletions := s.batch.deletions + [DeletionEvent(s.mint, target)]))
  }

  lemma DropStep(patchText: PatchText, v: View, rk: RelKey)
    requires Inv(patchText, v) && Bound(v.relations, rk)
    ensures Inv(patchText, WithDropped(v, rk))
  {
    var old_ := v.relations[rk];
    var mid := v.(relations := v.relations[rk := old_.(live := false)]);
    RelationStep(patchText, v, rk, old_.(live := false));
    assert IsBindingOf(v.log, rk, old_);
    assert Obsolete(mid, old_.eventId);
    hide Obsolete;
    DeletionStep(patchText, mid, old_.eventId);
  }

  lemma DropConsistent(plan: Plan, v0: View, s: RunState, v: View, rk: RelKey)
    requires Consistent(plan, v0, s, v) && Bound(v.relations, rk) && s.mint == v.mint
    ensures Consistent(plan, v0, WithDeletion(s, v.relations[rk].eventId), WithDropped(v, rk))
    ensures v.mint !in v.log
  {
    var e := DeletionEvent(s.mint, v.relations[rk].eventId);
    var c := s.batch.(deletions := s.batch.deletions + [e]);
    AddDeletion(s.batch, s.reRootIndex, e);
    ConsistentMeans(plan, v0, s, v);
    hide Adds, Signed, RootIdsOk, UpsertedRoots, Sorts, Inv;
    DropStep(plan.patchText, v, rk);
    EmitOne(plan, v0, s, v, c, e);
  }

  /** R3 and R5: the stored binding is deleted and a successor signed. */
  method Replace(plan: Plan, ghost v0: View, ghost r: RunState, ghost u: View, s: RunState, ghost v: View, ghost seen: set<RelKey>, j: nat)
    returns (t: RunState, ghost w: View)
    requires RelTurn(plan, v0, r, u, s, v, seen, j)
    requires var rel := plan.state.relations[j];
             Resolvable(s.rootIds, rel) && Bound(plan.relations, rel.key) && !RelStable(plan, s.reRootIndex, rel)
    ensures RelsUpTo(plan, v0, r, u, t, w, seen + {plan.state.relations[j].key}, j + 1)
  {
    hide RelTurn, RelsUpTo, Consistent, Fixed, AllTargets, RelKeysDone, UpsertedRelations, UpsertedRoots, Inv, Sorts, RootIdsOk, RelsQuiet;
    RelTurnParts(plan, v0, r, u, s, v, seen, j);
    var rel := plan.state.relations[j];
    var dropped := WithDeletion(s, plan.relations[rel.key].eventId);
    var e := BindingFor(rel, dropped.mint, s.rootIds[rel.rootRef], s.rootIds[rel.linkRef]);
    t := dropped.(mint := dropped.mint + 1, batch := Placed(dropped, rel, e),
                  relationRows := s.relationRows + [RelationUpsert(rel.key, RelationRow(rel.fingerprint, e.id, true))]);
    ghost var mid := WithDropped(v, rel.key);
    w := WithBindingRow(mid, rel, e);
    ReplacedStep(plan, v0, r, u, s, v, seen, j, dropped, mid, t, w, rel, e);
  }

  lemma ReplacedStep(plan: Plan, v0: View, r: RunState, u: View, s: RunState, v: View, seen: set<RelKey>, j: nat,
                     dropped: RunState, mid: View, t: RunState, w: View, rel: DesiredRelation, e: Emitted)
    requires RelTurn(plan, v0, r, u, s, v, seen, j) && rel == plan.state.relations[j]
    requires Resolvable(s.rootIds, rel) && Bound(plan.relations, rel.key) && !RelStable(plan, s.reRootIndex, rel)
    requires dropped == WithDeletion(s, plan.relations[rel.key].eventId) && IndexOk(dropped)
    requires rel.key in v.relations && mid == WithDropped(v, rel.key)
    requires e == BindingFor(rel, dropped.mint, s.rootIds[rel.rootRef], s.rootIds[rel.linkRef])
    requires t == dropped.(mint := dropped.mint + 1, batch := Placed(dropped, rel, e),
                           relationRows := s.relationRows + [RelationUpsert(rel.key, RelationRow(rel.fingerprint, e.id, true))])
    requires w == WithBindingRow(mid, rel, e)
    ensures RelsUpTo(plan, v0, r, u, t, w, seen + {rel.key}, j + 1)
  {
    hide RelTurn, RelsUpTo, Consistent, Fixed, AllTargets, RelKeysDone, UpsertedRelations, UpsertedRoots, Inv, Sorts, RootIdsOk,
         RelsQuiet, Placed, IndexOk, RelDone, RelStable, Dropped;
    RelTurnParts(plan, v0, r, u, s, v, seen, j);
    DropConsistent(plan, v0, s, v, rel.key);
    BindConsistent(plan, v0, dropped, mid, rel, s.rootIds[rel.rootRef], s.rootIds[rel.linkRef]);
    UpsertOneRelation(plan.relations, s.relationRows, RelationUpsert(rel.key, RelationRow(rel.fingerprint, e.id, true)));
    TwiceUpdated(v.relations, mid.relations, w.relations, rel.key);
    OthersUntouched(v.relations, w.relations, rel.key);
    OldBinding(plan, v0, s, v, rel.key);
    DroppedNow(plan, w.relations, rel.key);
    TargetsGrow(plan, v0, s, v, t, w.relations, rel.key, DeletionEvent(s.mint, plan.relations[rel.key].eventId));
    FixedStep(r, u, s, v, t, w);
    BindDone(plan, r, v0.mint, rel, s, mid, w);
    RelStep(plan, v0, r, u, s, v, seen, j, t, w);
  }

  lemma TwiceUpdated(a: Relations, b: Relations, c: Relations, rk: RelKey)
    requires rk in b && b == a[rk := b[rk]] && rk in c && c == b[rk := c[rk]]
    ensures c == a[rk := c[rk]]
  {
  }

  /** A binding the ledger stands by before the run was signed before it. */
  lemma OldBinding(plan: Plan, v0: View, s: RunState, v: View, rk: RelKey)
    requires Consistent(plan, v0, s, v) && Bound(plan.relations, rk)
    ensures plan.relations[rk].eventId in v0.log && plan.relations[rk].eventId < v0.mint <= v.mint
  {
    hide Signed, RootIdsOk, UpsertedRoots, Sorts, LinesOk, DeletionsOk;
    assert IsBindingOf(v0.log, rk, v0.relations[rk]);
  }

  lemma DroppedNow(plan: Plan, relations: Relations, rk: RelKey)
    requires Bound(plan.relations, rk) && rk in relations
    requires !relations[rk].live || relations[rk].eventId != plan.relations[rk].eventId
    ensures Dropped(plan, relations, rk)
  {
  }

  /** One desired relation: duplicates and unresolvable endpoints are skipped. */
  method ProcessRelation(plan: Plan, ghost v0: View, ghost r: RunState, ghost u: View, s: RunState, ghost v: View, seen: set<RelKey>, j: nat)
    returns (t: RunState, ghost w: View, seenNow: set<RelKey>)
    requires j < |plan.state.relations| && RelsUpTo(plan, v0, r, u, s, v, seen, j)
    ensures RelsUpTo(plan, v0, r, u, t, w, seenNow, j + 1)
  {
    hide RelsUpTo;
    var rel := plan.state.relations[j];
    if rel.key in seen {
      SkipRelation(plan, v0, r, u, s, v, seen, j);
      return s, v, seen;
    }
    assert RelTurn(plan, v0, r, u, s, v, seen, j);
    RelTurnParts(plan, v0, r, u, s, v, seen, j);
    hide RelTurn, Consistent, Fixed, AllTargets, RelKeysDone, Inv, Sorts, RootIdsOk, UpsertedRoots, UpsertedRelations, RelsQuiet, IndexOk;
    seenNow := seen + {rel.key};
    if rel.rootRef !in s.rootIds || rel.linkRef !in s.rootIds {
      LeftAlone(plan, v0, r, u, s, v, seen, j);
      t, w := s, v;
    } else if rel.key !in plan.relations || !plan.relations[rel.key].live {
      t, w := Bind(plan, v0, r, u, s, v, seen, j);
    } else if plan.relations[rel.key].fingerprint == rel.fingerprint
              && rel.rootRef !in s.reRootIndex && rel.linkRef !in s.reRootIndex {
      LeftAlone(plan, v0, r, u, s, v, seen, j);
      t, w := s, v;
    } else {
      t, w := Replace(plan, v0, r, u, s, v, seen, j);
    }
  }

  lemma SkipRelation(plan: Plan, v0: View, r: RunState, u: View, s: RunState, v: View, seen: set<RelKey>, j: nat)
    requires j < |plan.state.relations| && RelsUpTo(plan, v0, r, u, s, v, seen, j) && plan.state.relations[j].key in seen
    ensures RelsUpTo(plan, v0, r, u, s, v, seen, j + 1)
  {
    hide Consistent, Fixed, AllTargets, RelDone, RelUntouched, UpsertedRelations, IndexOk, Resolvable, RelStable;
    FirstRelSeen(plan, j, seen);
    assert seen + {plan.state.relations[j].key} == seen;
    assert RelsQuiet(plan, r, j + 1) ==> RelsQuiet(plan, r, j);
  }

  // ---------------------------------------------------------------- R4

  /** A live relation of a corpus in scope that the projection no longer has. */
  ghost predicate AbsentRel(plan: Plan, rk: RelKey) {
    Bound(plan.relations, rk) && rk.corpus in RelationCorpora(plan.state) && !WantedRel(plan, rk)
  }

  /** The relations after the whole pass. */
  ghost predicate RelationsSettled(plan: Plan, s: RunState, start: Id, v: View) {
    && (forall rk :: WantedRel(plan, rk) ==>
         RelDone(plan, s, start, plan.state.relations[FirstRel(plan.state.relations, rk)], v))
    && (forall rk :: AbsentRel(plan, rk) ==>
         rk in v.relations && rk in plan.relations && v.relations[rk] == plan.relations[rk].(live := false))
    && forall rk :: !WantedRel(plan, rk) && !AbsentRel(plan, rk) ==> RelUntouched(plan.relations, v.relations, rk)
  }

  /** What a run leaves: its account of roots, relations, deletions and signed events. */
  ghost predicate RunDone(plan: Plan, v0: View, s: RunState, v: View) {
    && Consistent(plan, v0, s, v)
    && UpsertedRelations(plan.relations, s.relationRows) == v.relations
    && RootsSettled(plan, v0, v.roots) && ReRootsAre(plan, s)
    && RelationsSettled(plan, s, v0.mint, v)
    && AllTargets(plan, s, v.relations)
    && (Quiet(plan, |plan.state.roots|) && RelsQuiet(plan, s, |plan.state.relations|) && (forall rk :: !AbsentRel(plan, rk))
        ==> v.mint == v0.mint)
  }

  /** The absent relations handled so far are retracted, and no other row has moved. */
  ghost predicate RetractedBut(before: Relations, after: Relations, absent: set<RelKey>, todo: set<RelKey>) {
    && (forall rk :: rk in absent && rk !in todo ==>
         rk in after && rk in before && after[rk] == before[rk].(live := false))
    && forall rk :: rk in todo || rk !in absent ==> RelUntouched(before, after, rk)
  }

  lemma RetractedOneMore(before: Relations, after: Relations, absent: set<RelKey>, todo: set<RelKey>, rk: RelKey, now: Relations)
    requires RetractedBut(before, after, absent, todo) && rk in todo && todo <= absent
    requires rk in now && rk in before && now[rk] == before[rk].(live := false) && now == after[rk := now[rk]]
    ensures RetractedBut(before, now, absent, todo - {rk})
  {
  }

  /** One retraction within the pass. */
  lemma RetractOne(plan: Plan, v0: View, s: RunState, v: View, rk: RelKey)
    requires Consistent(plan, v0, s, v) && AllTargets(plan, s, v.relations) && Bound(plan.relations, rk)
    requires RelUntouched(plan.relations, v.relations, rk)
    requires UpsertedRelations(plan.relations, s.relationRows) == v.relations
    ensures rk in v.relations && v.relations[rk] == plan.relations[rk]
    ensures var row := plan.relations[rk];
            var t := WithDeletion(s, row.eventId).(relationRows := s.relationRows + [RelationUpsert(rk, row.(live := false))]);
            var w := WithDropped(v, rk);
            && Consistent(plan, v0, t, w) && AllTargets(plan, t, w.relations)
            && UpsertedRelations(plan.relations, t.relationRows) == w.relations
            && w.roots == v.roots && (forall id :: id in v.log ==> id in w.log && w.log[id] == v.log[id]) && v.mint <= w.mint
  {
    var row := plan.relations[rk];
    var t := WithDeletion(s, row.eventId).(relationRows := s.relationRows + [RelationUpsert(rk, row.(live := false))]);
    var w := WithDropped(v, rk);
    hide Consistent, AllTargets, UpsertedRelations, Dropped;
    ConsistentMeans(plan, v0, s, v);
    DropConsistent(plan, v0, s, v, rk);
    RowsDoNotMatter(plan, v0, WithDeletion(s, row.eventId), t, w);
    UpsertOneRelation(plan.relations, s.relationRows, RelationUpsert(rk, row.(live := false)));
    OthersUntouched(v.relations, w.relations, rk);
    DroppedNow(plan, w.relations, rk);
    TargetsGrow(plan, v0, s, v, t, w.relations, rk, DeletionEvent(s.mint, row.eventId));
  }

  lemma RowsDoNotMatter(plan: Plan, v0: View, s: RunState, t: RunState, v: View)
    requires Consistent(plan, v0, s, v) && t == s.(relationRows := t.relationRows)
    ensures Consistent(plan, v0, t, v)
  {
    hide Signed, RootIdsOk, UpsertedRoots, Sorts, Inv;
  }

  /** Where the retraction stands: everything but `todo` is retracted, and the account is exact. */
  ghost predicate Retracting(plan: Plan, v0: View, s: RunState, v: View, absent: set<RelKey>, todo: set<RelKey>, t: RunState, w: View) {
    && todo <= absent
    && Consistent(plan, v0, t, w) && AllTargets(plan, t, w.relations)
    && UpsertedRelations(plan.relations, t.relationRows) == w.relations
    && RetractedBut(v.relations, w.relations, absent, todo)
    && t == s.(mint := t.mint, batch := t.batch, relationRows := t.relationRows) && t.batch.reRoots == s.batch.reRoots
    && w.roots == v.roots && v.mint <= w.mint
    && (forall id :: id in v.log ==> id in w.log && w.log[id] == v.log[id])
    && (absent == {} ==> w.mint == v.mint)
  }

  lemma RetractingStep(plan: Plan, v0: View, s: RunState, v: View, absent: set<RelKey>, todo: set<RelKey>, t: RunState, w: View, rk: RelKey)
    requires Retracting(plan, v0, s, v, absent, todo, t, w) && rk in todo && Bound(plan.relations, rk)
    requires RelUntouched(plan.relations, v.relations, rk)
    ensures rk in w.relations
    ensures Retracting(plan, v0, s, v, absent, todo - {rk},
                       WithDeletion(t, plan.relations[rk].eventId).(relationRows :=
                         t.relationRows + [RelationUpsert(rk, plan.relations[rk].(live := false))]),
                       WithDropped(w, rk))
  {
    hide Consistent, AllTargets, UpsertedRelations, RetractedBut, RelUntouched;
    StillThere(plan, v.relations, w.relations, absent, todo, rk);
    RetractOne(plan, v0, t, w, rk);
    SameRow(plan.relations, v.relations, rk);
    RetractedOneMore(v.relations, w.relations, absent, todo, rk, WithDropped(w, rk).relations);
  }

  lemma SameRow(before: Relations, after: Relations, rk: RelKey)
    requires RelUntouched(before, after, rk) && rk in before
    ensures rk in after && after[rk] == before[rk]
  {
  }

  lemma RetractingStart(plan: Plan, v0: View, s: RunState, v: View, absent: set<RelKey>)
    requires Consistent(plan, v0, s, v) && AllTargets(plan, s, v.relations)
    requires UpsertedRelations(plan.relations, s.relationRows) == v.relations
    requires RetractedBut(v.relations, v.relations, absent, absent)
    ensures Retracting(plan, v0, s, v, absent, absent, s, v)
  {
    hide Consistent, AllTargets, UpsertedRelations, RetractedBut;
  }

  /** Retracts every live relation absent from the projection. */
  method RetractAbsent(plan: Plan, ghost v0: View, ghost r: RunState, ghost u: View, s: RunState, ghost v: View, seen: set<RelKey>)
    returns (t: RunState, ghost w: View)
    requires RootsDone(plan, v0, r, u) && RelsUpTo(plan, v0, r, u, s, v, seen, |plan.state.relations|)
    ensures RunDone(plan, v0, t, w)
  {
    hide RootsDone, RelsUpTo, RunDone, Consistent, AllTargets, UpsertedRelations, RetractedBut, AbsentRel, RelUntouched, WantedRel,
         RelsQuiet, RelationCorpora, Retracting;
    var absent := set rk | rk in plan.relations && plan.relations[rk].live && rk.corpus in RelationCorpora(plan.state) && rk !in seen;
    AbsentAre(plan, v0, r, u, s, v, seen, absent);
    RetractingStart(plan, v0, s, v, absent);
    t, w := s, v;
    var todo := absent;
    while todo != {}
      invariant todo <= absent
      invariant Retracting(plan, v0, s, v, absent, todo, t, w)
      decreases |todo|
    {
      var rk := Pick(todo);
      RetractingStep(plan, v0, s, v, absent, todo, t, w, rk);
      todo := todo - {rk};
      t := WithDeletion(t, plan.relations[rk].eventId).(relationRows :=
        t.relationRows + [RelationUpsert(rk, plan.relations[rk].(live := false))]);
      w := WithDropped(w, rk);
    }
    Finished(plan, v0, r, u, s, v, seen, t, w, absent);
  }

  lemma StillThere(plan: Plan, before: Relations, after: Relations, absent: set<RelKey>, todo: set<RelKey>, rk: RelKey)
    requires RetractedBut(before, after, absent, todo) && rk in todo && RelUntouched(plan.relations, before, rk)
    ensures RelUntouched(plan.relations, after, rk)
  {
  }

  lemma AbsentAre(plan: Plan, v0: View, r: RunState, u: View, s: RunState, v: View, seen: set<RelKey>, absent: set<RelKey>)
    requires RelsUpTo(plan, v0, r, u, s, v, seen, |plan.state.relations|)
    requires forall rk :: rk in absent <==>
               rk in plan.relations && plan.relations[rk].live && rk.corpus in RelationCorpora(plan.state) && rk !in seen
    ensures forall rk :: rk in absent <==> AbsentRel(plan, rk)
    ensures forall rk :: rk in absent ==> RelUntouched(plan.relations, v.relations, rk) && Bound(plan.relations, rk)
    ensures Consistent(plan, v0, s, v) && AllTargets(plan, s, v.relations)
    ensures UpsertedRelations(plan.relations, s.relationRows) == v.relations
    ensures RetractedBut(v.relations, v.relations, absent, absent)
  {
    hide Consistent, AllTargets, UpsertedRelations, RelDone, Fixed, RelsQuiet, RelationCorpora, FirstRel;
  }

  lemma Finished(plan: Plan, v0: View, r: RunState, u: View, s: RunState, v: View, seen: set<RelKey>,
                 t: RunState, w: View, absent: set<RelKey>)
    requires RootsDone(plan, v0, r, u) && RelsUpTo(plan, v0, r, u, s, v, seen, |plan.state.relations|)
    requires forall rk :: rk in absent <==> AbsentRel(plan, rk)
    requires Retracting(plan, v0, s, v, absent, {}, t, w)
    ensures RunDone(plan, v0, t, w)
  {
    hide Consistent, AllTargets, UpsertedRelations, RelDone, RetractedBut, AbsentRel, RootsSettled, RelUntouched, FirstRel, KeyClass, WantedRel;
    PassParts(plan, v0, r, u, s, v, seen);
    SettledRelations(plan, r, v0.mint, seen, v, t, w, absent);
    QuietSame(plan, r, t);
  }

  lemma QuietSame(plan: Plan, r: RunState, t: RunState)
    requires t.rootIds == r.rootIds && t.reRootIndex == r.reRootIndex
    ensures RelsQuiet(plan, t, |plan.state.relations|) ==> RelsQuiet(plan, r, |plan.state.relations|)
  {
    hide RelStable, FirstRel;
  }

  lemma PassParts(plan: Plan, v0: View, r: RunState, u: View, s: RunState, v: View, seen: set<RelKey>)
    requires RootsDone(plan, v0, r, u) && RelsUpTo(plan, v0, r, u, s, v, seen, |plan.state.relations|)
    ensures RootsSettled(plan, v0, v.roots) && ReRootsAre(plan, r)
    ensures s.rootIds == r.rootIds && s.reRootIndex == r.reRootIndex && SameEntries(r.batch, s.batch)
    ensures RelKeysDone(plan, r, v0.mint, seen, v, |plan.state.relations|)
    ensures Quiet(plan, |plan.state.roots|) && RelsQuiet(plan, r, |plan.state.relations|) ==> v.mint == v0.mint
  {
    hide Consistent, AllTargets, RootTargets, UpsertedRelations, RelKeysDone, RootsSettled, ReRootsAre, Quiet, RelsQuiet;
  }

  lemma SettledRelations(plan: Plan, r: RunState, start: Id, seen: set<RelKey>, v: View, t: RunState, w: View, absent: set<RelKey>)
    requires RelKeysDone(plan, r, start, seen, v, |plan.state.relations|)
    requires forall rk :: rk in absent <==> AbsentRel(plan, rk)
    requires RetractedBut(v.relations, w.relations, absent, {})
    requires t.rootIds == r.rootIds && t.reRootIndex == r.reRootIndex
    requires forall id :: id in v.log ==> id in w.log && w.log[id] == v.log[id]
    ensures RelationsSettled(plan, t, start, w)
  {
    hide RelDone, FirstRel;
    forall rk | WantedRel(plan, rk)
      ensures RelDone(plan, t, start, plan.state.relations[FirstRel(plan.state.relations, rk)], w)
    {
      var rel := plan.state.relations[FirstRel(plan.state.relations, rk)];
      assert rk in seen && rk !in absent && rel.key == rk;
      RelDoneKept(plan, r, start, rel, v, w);
      SameDone(plan, r, t, start, rel, w);
    }
    forall rk | !WantedRel(plan, rk) && !AbsentRel(plan, rk) ensures RelUntouched(plan.relations, w.relations, rk) {
      assert RelUntouched(plan.relations, v.relations, rk) && RelUntouched(v.relations, w.relations, rk);
    }
  }

  lemma SameDone(plan: Plan, r: RunState, t: RunState, start: Id, rel: DesiredRelation, v: View)
    requires RelDone(plan, r, start, rel, v) && t.rootIds == r.rootIds && t.reRootIndex == r.reRootIndex
    ensures RelDone(plan, t, start, rel, v)
  {
    hide RelUntouched, RelStable, Binds;
  }
}
