/** The engine's relation pass: bindings new, kept or replaced (R1-R3, R5), then those absent from the projection (R4). */
module MirrorRelations {
  import opened Prelude
  import opened MirrorModel
  import opened MirrorBatch
  import opened MirrorRoots

  function UpsertedRelations(relations: Relations, rows: seq<RelationUpsert>): Relations {
    if rows == [] then relations
    else UpsertedRelations(relations, rows[..|rows| - 1])[rows[|rows| - 1].key := rows[|rows| - 1].row]
  }

  /** Every corpus whose ledger relations a run looks at. */
  function RelationCorpora(state: DesiredState): set<string> {
    state.sourceIds.Keys + (set r | r in state.relations :: r.key.corpus)
  }

  /** The first place of a relation id, or the number of desired relations. */
  function FirstRel(relations: seq<DesiredRelation>, rk: RelKey): (i: nat)
    ensures i <= |relations| && (i < |relations| ==> relations[i].key == rk)
    ensures forall j :: 0 <= j < i ==> relations[j].key != rk
  {
    if relations == [] || relations[0].key == rk then 0 else 1 + FirstRel(relations[1..], rk)
  }

  ghost predicate WantedRel(plan: Plan, rk: RelKey) {
    FirstRel(plan.state.relations, rk) < |plan.state.relations|
  }

  predicate Resolvable(rootIds: map<RootKey, Id>, rel: DesiredRelation) {
    rel.rootRef in rootIds && rel.linkRef in rootIds
  }

  /** R2: asserted as before, and neither endpoint was re-rooted in this run. */
  predicate RelStable(plan: Plan, reRootIndex: map<RootKey, nat>, rel: DesiredRelation) {
    && Bound(plan.relations, rel.key) && plan.relations[rel.key].fingerprint == rel.fingerprint
    && rel.rootRef !in reRootIndex && rel.linkRef !in reRootIndex
  }

  ghost predicate RelUntouched(before: Relations, after: Relations, rk: RelKey) {
    (rk in before <==> rk in after) && (rk in before ==> after[rk] == before[rk])
  }

  /** A binding of the relation to the endpoints as they resolve now. */
  ghost predicate Binds(log: Log, row: RelationRow, rel: DesiredRelation, rootIds: map<RootKey, Id>) {
    && row.eventId in log && Resolvable(rootIds, rel)
    && log[row.eventId] == BindingEvent(row.eventId, rel.key, rel.rootRef, rel.linkRef,
                                        rootIds[rel.rootRef], rootIds[rel.linkRef], rel.fingerprint)
  }

  /** What a processed relation comes to. */
  ghost predicate RelDone(plan: Plan, r: RunState, start: Id, rel: DesiredRelation, v: View) {
    if !Resolvable(r.rootIds, rel) then RelUntouched(plan.relations, v.relations, rel.key)
    else
      && Bound(v.relations, rel.key) && v.relations[rel.key].fingerprint == rel.fingerprint
      && if RelStable(plan, r.reRootIndex, rel) then RelUntouched(plan.relations, v.relations, rel.key)
         else v.relations[rel.key].eventId >= start && Binds(v.log, v.relations[rel.key], rel, r.rootIds)
  }

  /** A binding the ledger stood by before the run and no longer does. */
  ghost predicate Dropped(plan: Plan, relations: Relations, rk: RelKey) {
    Bound(plan.relations, rk) && !(Bound(relations, rk) && relations[rk].eventId == plan.relations[rk].eventId)
  }

  ghost predicate DroppedId(plan: Plan, relations: Relations, t: Id) {
    exists rk :: Dropped(plan, relations, rk) && plan.relations[rk].eventId == t
  }

  /** The deletions so far name exactly the replaced roots and the dropped bindings, each once. */
  ghost predicate AllTargets(plan: Plan, s: RunState, relations: Relations) {
    && (forall d :: d in s.batch.deletions ==> d.DeletionEvent?)
    && Distinct(Targets(s.batch.deletions))
    && forall t :: t in Targets(s.batch.deletions) <==> Replaced(plan, s.reRootIndex, t) || DroppedId(plan, relations, t)
  }

  ghost predicate RelKeysDone(plan: Plan, r: RunState, start: Id, seen: set<RelKey>, v: View, j: nat) {
    && (forall rk :: rk in seen <==> FirstRel(plan.state.relations, rk) < j && WantedRel(plan, rk))
    && (forall rk :: rk in seen && WantedRel(plan, rk) ==>
         RelDone(plan, r, start, plan.state.relations[FirstRel(plan.state.relations, rk)], v))
    && forall rk :: rk !in seen ==> RelUntouched(plan.relations, v.relations, rk)
  }

  ghost predicate RelsQuiet(plan: Plan, r: RunState, j: nat) {
    forall rk :: FirstRel(plan.state.relations, rk) < j && WantedRel(plan, rk) ==>
      var rel := plan.state.relations[FirstRel(plan.state.relations, rk)];
      !Resolvable(r.rootIds, rel) || RelStable(plan, r.reRootIndex, rel)
  }

  /** What the relation pass leaves alone. */
  ghost predicate Fixed(r: RunState, u: View, s: RunState, v: View) {
    && v.roots == u.roots && s.rootIds == r.rootIds && s.reRootIndex == r.reRootIndex && s.rootRows == r.rootRows
    && |s.batch.reRoots| == |r.batch.reRoots| && u.mint <= v.mint
    && (forall i :: 0 <= i < |r.batch.reRoots| ==> s.batch.reRoots[i].event == r.batch.reRoots[i].event)
    && (forall id :: id in u.log ==> id in v.log && v.log[id] == u.log[id])
  }

  ghost predicate IndexOk(s: RunState) {
    forall k :: k in s.reRootIndex ==> s.reRootIndex[k] < |s.batch.reRoots|
  }

  ghost predicate RelsUpTo(plan: Plan, v0: View, r: RunState, u: View, s: RunState, v: View, seen: set<RelKey>, j: nat) {
    && j <= |plan.state.relations|
    && Consistent(plan, v0, s, v) && Fixed(r, u, s, v) && IndexOk(s)
    && UpsertedRelations(plan.relations, s.relationRows) == v.relations
    && RelKeysDone(plan, r, v0.mint, seen, v, j)
    && AllTargets(plan, s, v.relations)
    && (RelsQuiet(plan, r, j) ==> v.mint == u.mint)
  }

  // ---------------------------------------------------------------- one relation

  lemma FirstRelSeen(plan: Plan, j: nat, seen: set<RelKey>)
    requires j < |plan.state.relations|
    requires forall rk :: rk in seen <==> FirstRel(plan.state.relations, rk) < j && WantedRel(plan, rk)
    ensures var key := plan.state.relations[j].key;
            && (key !in seen ==> FirstRel(plan.state.relations, key) == j)
            && (forall rk :: rk in seen + {key} <==> FirstRel(plan.state.relations, rk) < j + 1 && WantedRel(plan, rk))
  {
    assert FirstRel(plan.state.relations, plan.state.relations[j].key) <= j;
  }

  lemma UpsertOneRelation(relations: Relations, rows: seq<RelationUpsert>, row: RelationUpsert)
    ensures UpsertedRelations(relations, rows + [row]) == UpsertedRelations(relations, rows)[row.key := row.row]
  {
    assert (rows + [row])[..|rows|] == rows;
  }

  lemma RelDoneKept(plan: Plan, r: RunState, start: Id, rel: DesiredRelation, v: View, w: View)
    requires RelDone(plan, r, start, rel, v) && RelUntouched(v.relations, w.relations, rel.key)
    requires forall id :: id in v.log ==> id in w.log && w.log[id] == v.log[id]
    ensures RelDone(plan, r, start, rel, w)
  {
    hide RelStable, Resolvable;
  }

  lemma RelKeysStep(plan: Plan, r: RunState, start: Id, seen: set<RelKey>, v: View, w: View, j: nat)
    requires j < |plan.state.relations| && plan.state.relations[j].key !in seen
    requires RelKeysDone(plan, r, start, seen, v, j)
    requires RelDone(plan, r, start, plan.state.relations[j], w)
    requires forall rk :: rk != plan.state.relations[j].key ==> RelUntouched(v.relations, w.relations, rk)
    requires forall id :: id in v.log ==> id in w.log && w.log[id] == v.log[id]
    ensures RelKeysDone(plan, r, start, seen + {plan.state.relations[j].key}, w, j + 1)
  {
    var key := plan.state.relations[j].key;
    FirstRelSeen(plan, j, seen);
    hide RelDone, FirstRel;
    forall rk | rk in seen && rk != key && WantedRel(plan, rk)
      ensures RelDone(plan, r, start, plan.state.relations[FirstRel(plan.state.relations, rk)], w)
    {
      RelDoneKept(plan, r, start, plan.state.relations[FirstRel(plan.state.relations, rk)], v, w);
    }
    forall rk | rk !in seen && rk != key ensures RelUntouched(plan.relations, w.relations, rk) {
      assert RelUntouched(plan.relations, v.relations, rk) && RelUntouched(v.relations, w.relations, rk);
    }
  }

  /** Nothing bound is named by a deletion of the whole history. */
  lemma BoundNotTargeted(plan: Plan, v0: View, s: RunState, v: View, rk: RelKey)
    requires Consistent(plan, v0, s, v) && Bound(v.relations, rk)
    requires forall d :: d in s.batch.deletions ==> d.DeletionEvent?
    ensures v.relations[rk].eventId !in Targets(s.batch.deletions)
  {
    assert IsBindingOf(v.log, rk, v.relations[rk]);
    forall d | d in s.batch.deletions ensures d.target != v.relations[rk].eventId {
      assert InBatch(s.batch, d);
      assert Obsolete(v, v.log[d.id].target);
    }
  }

  /** Dropping a binding and naming it in a deletion keeps the account exact. */
  lemma TargetsGrow(plan: Plan, v0: View, s: RunState, v: View, t: RunState, relations: Relations, rk: RelKey, deletion: Emitted)
    requires AllTargets(plan, s, v.relations) && Consistent(plan, v0, s, v)
    requires RelUntouched(plan.relations, v.relations, rk) && Bound(plan.relations, rk)
    requires deletion.DeletionEvent? && deletion.target == plan.relations[rk].eventId
    requires t.batch.deletions == s.batch.deletions + [deletion] && t.reRootIndex == s.reRootIndex
    requires Dropped(plan, relations, rk) && forall other :: other != rk ==> RelUntouched(v.relations, relations, other)
    ensures AllTargets(plan, t, relations)
  {
    BoundNotTargeted(plan, v0, s, v, rk);
    hide Consistent, Replaced;
    var before, after := Targets(s.batch.deletions), Targets(t.batch.deletions);
    assert after == before + [deletion.target];
    forall x ensures DroppedId(plan, relations, x) <==> DroppedId(plan, v.relations, x) || x == deletion.target {
      DroppedStep(plan, v.relations, relations, rk, x);
    }
    hide DroppedId;
    forall x ensures x in after <==> x in before || x == deletion.target {}
  }

  lemma DroppedStep(plan: Plan, before: Relations, after: Relations, rk: RelKey, x: Id)
    requires RelUntouched(plan.relations, before, rk) && Dropped(plan, after, rk)
    requires forall other :: other != rk ==> RelUntouched(before, after, other)
    ensures DroppedId(plan, after, x) <==> DroppedId(plan, before, x) || x == plan.relations[rk].eventId
  {
    if other :| Dropped(plan, before, other) && plan.relations[other].eventId == x {
      assert RelUntouched(before, after, other);
      assert Dropped(plan, after, other);
    }
    if other :| Dropped(plan, after, other) && plan.relations[other].eventId == x && other != rk {
      assert RelUntouched(before, after, other);
      assert Dropped(plan, before, other);
    }
  }

  /** A row that is no binding yet may be written without dropping anything. */
  lemma TargetsSame(plan: Plan, s: RunState, t: RunState, before: Relations, after: Relations, rk: RelKey)
    requires AllTargets(plan, s, before) && t.batch.deletions == s.batch.deletions && t.reRootIndex == s.reRootIndex
    requires !Bound(plan.relations, rk) && forall other :: other != rk ==> RelUntouched(before, after, other)
    ensures AllTargets(plan, t, after)
  {
    hide Replaced;
    forall x ensures DroppedId(plan, before, x) <==> DroppedId(plan, after, x) {
      if other :| Dropped(plan, before, other) && plan.relations[other].eventId == x {
        assert RelUntouched(before, after, other);
        assert Dropped(plan, after, other);
      }
      if other :| Dropped(plan, after, other) && plan.relations[other].eventId == x {
        assert RelUntouched(before, after, other);
        assert Dropped(plan, before, other);
      }
    }
  }
}
