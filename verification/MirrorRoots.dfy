/** The engine's root pass: classify every desired root against the ledger (C1-C4), then retire what is gone (C5). */
module MirrorRoots {
  import opened Prelude
  import opened MirrorModel
  import opened MirrorBatch
  import opened Notice

  /** The inputs of one run: the ledger snapshot, the desired state, and the two text builders. */
  datatype Plan = Plan(patchText: PatchText, noticeText: NoticeText, roots: Roots, relations: Relations, state: DesiredState)

  datatype RootUpsert = RootUpsert(key: RootKey, row: RootRow)

  datatype RelationUpsert = RelationUpsert(key: RelKey, row: RelationRow)

  /** Rows are applied in order; a later row of a key wins. */
  function UpsertedRoots(roots: Roots, rows: seq<RootUpsert>): Roots {
    if rows == [] then roots
    else UpsertedRoots(roots, rows[..|rows| - 1])[rows[|rows| - 1].key := rows[|rows| - 1].row]
  }

  /** What a run accumulates. */
  datatype RunState = RunState(
    mint: Id, batch: Batch, rootRows: seq<RootUpsert>, relationRows: seq<RelationUpsert>,
    rootIds: map<RootKey, Id>, patchParents: set<Id>, seenRoots: set<RootKey>,
    reRootIndex: map<RootKey, nat>, forkGuards: int)

  /** Every corpus whose ledger roots a run looks at. */
  function RootCorpora(state: DesiredState): set<string> {
    state.sourceIds.Keys + (set r | r in state.roots :: r.key.corpus)
    + (set r | r in state.relations :: r.rootRef.corpus) + (set r | r in state.relations :: r.linkRef.corpus)
  }

  /** The first place of a key in a list of desired roots, or its length. */
  function FirstAt(roots: seq<DesiredRoot>, k: RootKey): (i: nat)
    ensures i <= |roots| && (i < |roots| ==> roots[i].key == k)
    ensures forall j :: 0 <= j < i ==> roots[j].key != k
  {
    if roots == [] || roots[0].key == k then 0 else 1 + FirstAt(roots[1..], k)
  }

  // ---------------------------------------------------------------- what holds during the pass

  ghost predicate Grows(v0: View, v: View) {
    && v0.mint <= v.mint
    && (forall id :: id in v0.log ==> id in v.log && v.log[id] == v0.log[id])
    && forall id :: id in v.log ==> id in v0.log || id >= v0.mint
  }

  ghost predicate Untouched(before: Roots, after: Roots, k: RootKey) {
    (k in before <==> k in after) && (k in before ==> after[k] == before[k])
  }

  /** Endpoints resolve to the root events the rows name, over the corpora in scope. */
  ghost predicate RootIdsOk(state: DesiredState, rootIds: map<RootKey, Id>, roots: Roots) {
    && (forall k :: k in rootIds <==> Live(roots, k) && k.corpus in RootCorpora(state))
    && forall k :: k in rootIds && k in roots ==> rootIds[k] == roots[k].rootEventId
  }

  ghost predicate Wanted(plan: Plan, k: RootKey) {
    FirstAt(plan.state.roots, k) < |plan.state.roots|
  }

  function KeyClass(plan: Plan, k: RootKey): RootClass
    requires FirstAt(plan.state.roots, k) < |plan.state.roots|
  {
    ClassOf(plan.state.roots[FirstAt(plan.state.roots, k)], LiveRow(plan.roots, k))
  }

  /** The row each class leaves, given the id signed last for it. */
  function ExpectedRow(plan: Plan, root: DesiredRoot, before: Option<RootRow>, id: Id): RootRow {
    match ClassOf(root, before)
    case NewRoot => FreshRow(root, id, root.content)
    case Stable => RefreshedRow(root, before.value)
    case ContentOnly => PatchedRow(root, before.value, id)
    case Moved => FreshRow(root, id, Insert(Strip(root.content).body, plan.noticeText(root, before.value)))
  }

  /** The row of a processed key: live, as its class demands, and stable under the same desired root unless re-rooted. */
  ghost predicate Done(plan: Plan, start: Id, k: RootKey, roots: Roots)
    requires Wanted(plan, k)
  {
    var root, before, class_ := plan.state.roots[FirstAt(plan.state.roots, k)], LiveRow(plan.roots, k), KeyClass(plan, k);
    && Live(roots, k)
    && roots[k] == ExpectedRow(plan, root, before, roots[k].tipEventId)
    && (if before.None? || class_ == Moved then roots[k].rootEventId >= start
        else roots[k].rootEventId == before.value.rootEventId)
    && (class_ == ContentOnly ==> roots[k].tipEventId >= start)
    && (class_ != Moved ==> ClassOf(root, Some(roots[k])) == Stable)
  }

  function Targets(deletions: seq<Emitted>): (ts: seq<Id>)
    requires forall d :: d in deletions ==> d.DeletionEvent?
    ensures |ts| == |deletions| && forall i :: 0 <= i < |ts| ==> ts[i] == deletions[i].target
  {
    seq(|deletions|, i requires 0 <= i < |deletions| => deletions[i].target)
  }

  ghost predicate Replaced(plan: Plan, reRootIndex: map<RootKey, nat>, t: Id) {
    exists k :: k in reRootIndex && Live(plan.roots, k) && plan.roots[k].rootEventId == t
  }

  /** The deletions so far name exactly the replaced roots, each once. */
  ghost predicate RootTargets(plan: Plan, s: RunState) {
    && (forall d :: d in s.batch.deletions ==> d.DeletionEvent?)
    && Distinct(Targets(s.batch.deletions))
    && forall t :: t in Targets(s.batch.deletions) <==> Replaced(plan, s.reRootIndex, t)
  }

  ghost predicate PatchParentsOk(s: RunState, log: Log) {
    forall p :: p in s.patchParents ==>
      p in log && (log[p].RootEvent? || log[p].PatchEvent?) && log[p].key in s.seenRoots
  }

  /** The re-root entry of a key holds the event that supersedes its old root. */
  ghost predicate Supersedes(plan: Plan, s: RunState, k: RootKey) {
    && k in s.reRootIndex && s.reRootIndex[k] < |s.batch.reRoots| && k in plan.roots
    && var e := s.batch.reRoots[s.reRootIndex[k]].event;
       e.RootEvent? && e.key == k && e.supersedes == Some(plan.roots[k].rootEventId)
  }

  ghost predicate ReRootsOk(plan: Plan, s: RunState) {
    && (forall k :: k in s.reRootIndex <==> k in s.seenRoots && Wanted(plan, k) && KeyClass(plan, k) == Moved)
    && (forall k :: k in s.reRootIndex ==> Supersedes(plan, s, k))
    && NoBindings(s.batch)
  }

  /** The keys seen are those of the first `i` desired roots, all of them done; no other row has moved. */
  ghost predicate KeysDone(plan: Plan, start: Id, seen: set<RootKey>, roots: Roots, i: nat) {
    && (forall k :: k in seen <==> FirstAt(plan.state.roots, k) < i && Wanted(plan, k))
    && (forall k :: k in seen && Wanted(plan, k) ==> Done(plan, start, k, roots))
    && forall k :: k !in seen ==> Untouched(plan.roots, roots, k)
  }

  ghost predicate Quiet(plan: Plan, i: nat)
    requires i <= |plan.state.roots|
  {
    forall k :: FirstAt(plan.state.roots, k) < i ==> KeyClass(plan, k) == Stable
  }

  ghost predicate Consistent(plan: Plan, v0: View, s: RunState, v: View) {
    && Inv(plan.patchText, v0) && Inv(plan.patchText, v) && s.mint == v.mint && Grows(v0, v)
    && v0.roots == plan.roots && v0.relations == plan.relations
    && Signed(s.batch, v0.mint, v.log, v.mint) && Sorts(s.batch, s.reRootIndex)
    && s.forkGuards == 0
    && RootIdsOk(plan.state, s.rootIds, v.roots)
    && UpsertedRoots(plan.roots, s.rootRows) == v.roots
  }

  /** What consistency says, one name at a time. */
  lemma ConsistentMeans(plan: Plan, v0: View, s: RunState, v: View)
    requires Consistent(plan, v0, s, v)
    ensures Inv(plan.patchText, v0) && Inv(plan.patchText, v) && s.mint == v.mint && v0.mint <= v.mint
    ensures v0.roots == plan.roots && v0.relations == plan.relations && s.forkGuards == 0
    ensures Sorts(s.batch, s.reRootIndex) && Signed(s.batch, v0.mint, v.log, v.mint)
    ensures Grows(v0, v) && RootIdsOk(plan.state, s.rootIds, v.roots) && UpsertedRoots(plan.roots, s.rootRows) == v.roots
  {
    hide Inv, Signed, Sorts, UpsertedRoots, RootIdsOk;
  }

  ghost predicate RootsUpTo(plan: Plan, v0: View, s: RunState, v: View, i: nat) {
    && i <= |plan.state.roots|
    && Consistent(plan, v0, s, v)
    && v.relations == plan.relations && s.relationRows == []
    && KeysDone(plan, v0.mint, s.seenRoots, v.roots, i)
    && ReRootsOk(plan, s) && PatchParentsOk(s, v0.log) && RootTargets(plan, s)
  }

  /** While every key so far is stable, nothing has been signed. */
  ghost predicate QuietSoFar(plan: Plan, v0: View, v: View, i: nat) {
    i <= |plan.state.roots| && (Quiet(plan, i) ==> v.mint == v0.mint)
  }

  lemma QuietStep(plan: Plan, v0: View, v: View, w: View, i: nat)
    requires i < |plan.state.roots| && QuietSoFar(plan, v0, v, i)
    requires var key := plan.state.roots[i].key;
             FirstAt(plan.state.roots, key) != i || KeyClass(plan, key) == Stable ==> w.mint == v.mint
    ensures QuietSoFar(plan, v0, w, i + 1)
  {
    hide KeyClass;
    assert Quiet(plan, i + 1) ==> Quiet(plan, i);
  }

  // ---------------------------------------------------------------- one key

  lemma FirstSeen(plan: Plan, i: nat, seen: set<RootKey>)
    requires i < |plan.state.roots|
    requires forall k :: k in seen <==> FirstAt(plan.state.roots, k) < i && Wanted(plan, k)
    ensures var key := plan.state.roots[i].key;
            && (key !in seen ==> FirstAt(plan.state.roots, key) == i)
            && (forall k :: k in seen + {key} <==> FirstAt(plan.state.roots, k) < i + 1 && Wanted(plan, k))
  {
    var key := plan.state.roots[i].key;
    assert FirstAt(plan.state.roots, key) <= i;
  }

  /** What one key contributes. */
  ghost predicate KeyRecorded(plan: Plan, v0: View, s: RunState, v: View, t: RunState, w: View, key: RootKey)
    requires Wanted(plan, key)
  {
    var class_ := KeyClass(plan, key);
    && t.seenRoots == s.seenRoots + {key}
    && Done(plan, v0.mint, key, w.roots)
    && (forall k :: k != key ==> Untouched(v.roots, w.roots, k))
    && w.relations == v.relations && t.relationRows == s.relationRows
    && t.patchParents == s.patchParents + (if class_ == ContentOnly then {plan.roots[key].tipEventId} else {})
    && (if class_ == Moved then key in t.reRootIndex && t.reRootIndex == s.reRootIndex[key := t.reRootIndex[key]]
                                && Supersedes(plan, t, key)
        else t.reRootIndex == s.reRootIndex)
    && s.batch.reRoots <= t.batch.reRoots && (NoBindings(s.batch) ==> NoBindings(t.batch))
  }

  lemma KeysDoneStep(plan: Plan, start: Id, seen: set<RootKey>, before: Roots, after: Roots, i: nat)
    requires i < |plan.state.roots| && plan.state.roots[i].key !in seen
    requires KeysDone(plan, start, seen, before, i)
    requires Wanted(plan, plan.state.roots[i].key) && Done(plan, start, plan.state.roots[i].key, after)
    requires forall k :: k != plan.state.roots[i].key ==> Untouched(before, after, k)
    ensures KeysDone(plan, start, seen + {plan.state.roots[i].key}, after, i + 1)
  {
    FirstSeen(plan, i, seen);
    hide ClassOf;
    var key := plan.state.roots[i].key;
    forall k | k in seen && k != key && Wanted(plan, k) ensures Done(plan, start, k, after) {
      assert Done(plan, start, k, before) && Untouched(before, after, k);
    }
    forall k | k !in seen && k != key ensures Untouched(plan.roots, after, k) {
      assert Untouched(plan.roots, before, k) && Untouched(before, after, k);
    }
  }

  lemma FirstOfKey(plan: Plan, v0: View, s: RunState, v: View, i: nat)
    requires i < |plan.state.roots| && RootsUpTo(plan, v0, s, v, i) && plan.state.roots[i].key !in s.seenRoots
    ensures FirstAt(plan.state.roots, plan.state.roots[i].key) == i
    ensures KeysDone(plan, v0.mint, s.seenRoots, v.roots, i)
  {
    hide Consistent, RootTargets, PatchParentsOk, Done, ClassOf, Untouched, ReRootsOk, KeyClass;
    FirstSeen(plan, i, s.seenRoots);
  }

  lemma ReRootsStep(plan: Plan, v0: View, s: RunState, v: View, t: RunState, w: View, i: nat)
    requires i < |plan.state.roots| && Wanted(plan, plan.state.roots[i].key)
    requires ReRootsOk(plan, s) && KeyRecorded(plan, v0, s, v, t, w, plan.state.roots[i].key)
    requires plan.state.roots[i].key !in s.seenRoots
    ensures ReRootsOk(plan, t)
  {
    hide Done, KeyClass, Wanted, Untouched;
    var key := plan.state.roots[i].key;
    forall k | k in t.reRootIndex ensures Supersedes(plan, t, k) {
      if k != key { assert Supersedes(plan, s, k); }
    }
  }

  lemma KeyStep(plan: Plan, v0: View, s: RunState, v: View, t: RunState, w: View, i: nat)
    requires i < |plan.state.roots| && RootsUpTo(plan, v0, s, v, i)
    requires plan.state.roots[i].key !in s.seenRoots && Wanted(plan, plan.state.roots[i].key)
    requires Consistent(plan, v0, t, w) && KeyRecorded(plan, v0, s, v, t, w, plan.state.roots[i].key)
    requires RootTargets(plan, t) && PatchParentsOk(t, v0.log)
    ensures RootsUpTo(plan, v0, t, w, i + 1)
  {
    hide Consistent, RootTargets, PatchParentsOk, Done, ClassOf, Untouched, FirstAt, KeysDone, ReRootsOk, Wanted, KeyClass;
    FirstOfKey(plan, v0, s, v, i);
    KeysDoneStep(plan, v0.mint, s.seenRoots, v.roots, w.roots, i);
    ReRootsStep(plan, v0, s, v, t, w, i);
  }

  /** Nothing live is named by a deletion of the batch. */
  lemma LiveRootNotTargeted(plan: Plan, v0: View, s: RunState, v: View, k: RootKey)
    requires Consistent(plan, v0, s, v) && Live(v.roots, k)
    requires forall d :: d in s.batch.deletions ==> d.DeletionEvent?
    ensures v.roots[k].rootEventId !in Targets(s.batch.deletions)
  {
    TipsAreOwn(plan.patchText, v, k);
    forall d | d in s.batch.deletions ensures d.target != v.roots[k].rootEventId {
      assert InBatch(s.batch, d);
      assert Obsolete(v, v.log[d.id].target);
    }
  }

  lemma UpsertOne(roots: Roots, rows: seq<RootUpsert>, row: RootUpsert)
    ensures UpsertedRoots(roots, rows + [row]) == UpsertedRoots(roots, rows)[row.key := row.row]
  {
    assert (rows + [row])[..|rows|] == rows;
  }

  /** Recording a row under a live identity keeps the endpoint map right. */
  lemma RootIdsStep(state: DesiredState, rootIds: map<RootKey, Id>, roots: Roots, k: RootKey, row: RootRow)
    requires RootIdsOk(state, rootIds, roots) && k.corpus in RootCorpora(state) && row.live
    ensures RootIdsOk(state, rootIds[k := row.rootEventId], roots[k := row])
    ensures Live(roots, k) && row.rootEventId == roots[k].rootEventId ==> rootIds[k := row.rootEventId] == rootIds
  {
    hide RootCorpora;
  }

  lemma InScope(state: DesiredState, i: nat)
    requires i < |state.roots|
    ensures state.roots[i].key.corpus in RootCorpora(state)
  {
    assert state.roots[i] in state.roots;
  }

  /** A fresh row is stable under the content it was published with. */
  lemma NewSettles(root: DesiredRoot, id: Id)
    ensures ClassOf(root, Some(FreshRow(root, id, root.content))) == Stable
  {
  }

  /** After a patch the next comparison finds the content it patched to. */
  lemma PatchSettles(root: DesiredRoot, row: RootRow, id: Id)
    requires ClassOf(root, Some(row)) == ContentOnly
    ensures ClassOf(root, Some(PatchedRow(root, row, id))) == Stable
  {
    var stored := Strip(row.tipContent).notice;
    if Strip(root.content).notice.None? && stored.Some? {
      StoredIsNotice(row.tipContent);
      NoticeSurvives(root.content, stored.value);
    }
  }

  lemma StoredIsNotice(content: string)
    ensures Strip(content).notice.Some? ==> IsNotice(Strip(content).notice.value)
  {
  }

  /** After a re-root the notice is looked through, when the content has none of its own and the notice reads as one. */
  lemma MoveSettles(root: DesiredRoot, id: Id, notice: string)
    requires Strip(root.content).notice.None? && IsNotice(notice)
    ensures ClassOf(root, Some(FreshRow(root, id, Insert(root.content, notice)))) == Stable
  {
    NoticeSurvives(root.content, notice);
  }

  lemma RefreshSettles(root: DesiredRoot, row: RootRow)
    requires ClassOf(root, Some(row)) == Stable
    ensures ClassOf(root, Some(RefreshedRow(root, row))) == Stable
    ensures RefreshedRow(root, row).rootEventId == row.rootEventId && RefreshedRow(root, row).live == row.live
    ensures RefreshedRow(root, row).tipEventId == row.tipEventId && RefreshedRow(root, row).tipContent == row.tipContent
  {
  }

  /** Signing one event: fresh id, batch and log in step. */
  lemma EmitOne(plan: Plan, v0: View, s: RunState, v: View, c: Batch, e: Emitted)
    requires Consistent(plan, v0, s, v) && Adds(s.batch, c, e) && e.id == v.mint
    ensures e.id !in v.log
    ensures Signed(c, v0.mint, v.log[e.id := e], v.mint + 1)
    ensures forall w: View :: w.log == v.log[e.id := e] && w.mint == v.mint + 1 ==> Grows(v0, w)
  {
    hide Adds, Signed, RootIdsOk, UpsertedRoots, Sorts, LinesOk, RelationsOk, DeletionsOk;
    assert e.id !in v.log;
    SignOne(s.batch, c, v0.mint, v.log, e);
  }
}
