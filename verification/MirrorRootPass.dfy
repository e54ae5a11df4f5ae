/** The four ways a desired root is handled, and the pass over all of them. */
module MirrorRootPass {
  import opened Prelude
  import opened MirrorModel
  import opened MirrorBatch
  import opened MirrorRoots
  import opened Notice

  /** The i-th desired root is the first of its key and falls in the given class. */
  ghost predicate Turn(plan: Plan, v0: View, s: RunState, v: View, i: nat, class_: RootClass) {
    && i < |plan.state.roots| && RootsUpTo(plan, v0, s, v, i)
    && var key := plan.state.roots[i].key;
       key !in s.seenRoots && FirstAt(plan.state.roots, key) == i && KeyClass(plan, key) == class_
  }

  /** Up to its key the view still holds the snapshot's row. */
  lemma TurnRow(plan: Plan, v0: View, s: RunState, v: View, i: nat, class_: RootClass)
    requires Turn(plan, v0, s, v, i, class_)
    ensures var key := plan.state.roots[i].key;
            && LiveRow(v.roots, key) == LiveRow(plan.roots, key)
            && (class_ != NewRoot ==> Live(v.roots, key))
            && v.roots == UpsertedRoots(plan.roots, s.rootRows)
            && key.corpus in RootCorpora(plan.state)
  {
    var key := plan.state.roots[i].key;
    hide RootCorpora, Inv, Grows, Signed, Sorts;
    assert Untouched(plan.roots, v.roots, key);
    InScope(plan.state, i);
  }

  /** C1: a new logical root. */
  method PublishRoot(plan: Plan, i: nat, s: RunState, ghost v0: View, ghost v: View) returns (t: RunState, ghost w: View)
    requires Turn(plan, v0, s, v, i, NewRoot)
    ensures var root := plan.state.roots[i];
            && t.mint == s.mint + 1
            && t.batch == s.batch.(newRoots := s.batch.newRoots + [RootEvent(s.mint, root.key, root.content, None)])
    ensures RootsUpTo(plan, v0, t, w, i + 1)
  {
    var root := plan.state.roots[i];
    var e := RootEvent(s.mint, root.key, root.content, None);
    var row := FreshRow(root, e.id, root.content);
    t := s.(mint := s.mint + 1, batch := s.batch.(newRoots := s.batch.newRoots + [e]),
            rootRows := s.rootRows + [RootUpsert(root.key, row)],
            rootIds := s.rootIds[root.key := e.id], seenRoots := s.seenRoots + {root.key});
    w := WithRoot(v, root.key, e, row, LineOf([], [root.content]));
    hide Turn, RootsUpTo;
    TurnParts(plan, v0, s, v, i, NewRoot);
    Published(plan, v0, s, v, i, t, w, root, e, row);
  }

  /** What a turn means, one name at a time. */
  lemma TurnParts(plan: Plan, v0: View, s: RunState, v: View, i: nat, class_: RootClass)
    requires Turn(plan, v0, s, v, i, class_)
    ensures i < |plan.state.roots| && RootsUpTo(plan, v0, s, v, i) && Consistent(plan, v0, s, v)
    ensures var key := plan.state.roots[i].key;
            key !in s.seenRoots && Wanted(plan, key) && KeyClass(plan, key) == class_
    ensures Inv(plan.patchText, v) && s.mint == v.mint && Sorts(s.batch, s.reRootIndex) && RootTargets(plan, s)
    ensures PatchParentsOk(s, v0.log) && v.roots == UpsertedRoots(plan.roots, s.rootRows)
    ensures RootIdsOk(plan.state, s.rootIds, v.roots) && v.relations == plan.relations
  {
    hide Inv, Grows, Signed, Sorts, RootTargets, PatchParentsOk, UpsertedRoots, RootIdsOk, KeysDone;
  }

  /** The next state is consistent once its parts are. */
  lemma ConsistentStep(plan: Plan, v0: View, s: RunState, v: View, t: RunState, w: View)
    requires Consistent(plan, v0, s, v)
    requires Inv(plan.patchText, w) && t.mint == w.mint && Grows(v0, w)
    requires Signed(t.batch, v0.mint, w.log, w.mint) && Sorts(t.batch, t.reRootIndex) && t.forkGuards == 0
    requires RootIdsOk(plan.state, t.rootIds, w.roots) && UpsertedRoots(plan.roots, t.rootRows) == w.roots
    ensures Consistent(plan, v0, t, w)
  {
    hide Inv, Grows, Signed, Sorts, UpsertedRoots, RootIdsOk;
  }

  lemma Published(plan: Plan, v0: View, s: RunState, v: View, i: nat, t: RunState, w: View, root: DesiredRoot, e: Emitted, row: RootRow)
    requires i < |plan.state.roots| && root == plan.state.roots[i] && Turn(plan, v0, s, v, i, NewRoot)
    requires e == RootEvent(s.mint, root.key, root.content, None) && row == FreshRow(root, s.mint, root.content)
    requires t == s.(mint := s.mint + 1, batch := s.batch.(newRoots := s.batch.newRoots + [e]),
                     rootRows := s.rootRows + [RootUpsert(root.key, row)],
                     rootIds := s.rootIds[root.key := e.id], seenRoots := s.seenRoots + {root.key})
    requires w == WithRoot(v, root.key, e, row, LineOf([], [root.content]))
    ensures RootsUpTo(plan, v0, t, w, i + 1)
  {
    hide Inv, ClassOf, Signed, RootIdsOk, RootCorpora, UpsertedRoots, RootsUpTo, RootTargets, InReRoots, Grows,
         Adds, LiveRow, Sorts, InBatch, Size, Turn, Consistent, Wanted, KeyClass, Done, PatchParentsOk, KeyRecorded;
    TurnParts(plan, v0, s, v, i, NewRoot);
    TurnRow(plan, v0, s, v, i, NewRoot);
    AddNewRoot(s.batch, s.reRootIndex, e);
    RootStep(plan.patchText, v, root, root.content, None);
    EmitOne(plan, v0, s, v, t.batch, e);
    UpsertOne(plan.roots, s.rootRows, RootUpsert(root.key, row));
    RootIdsStep(plan.state, s.rootIds, v.roots, root.key, row);
    ConsistentMeans(plan, v0, s, v);
    ConsistentStep(plan, v0, s, v, t, w);
    SameTargets(plan, s, t);
    MoreSeen(s, t, v0.log);
    FreshDone(plan, v0, s, v, i, w);
    Recorded(plan, v0, s, v, t, w, i, row);
    KeyStep(plan, v0, s, v, t, w, i);
  }

  /** One key's step recorded: its row, and what its class adds besides. */
  lemma Recorded(plan: Plan, v0: View, s: RunState, v: View, t: RunState, w: View, i: nat, row: RootRow)
    requires i < |plan.state.roots| && Wanted(plan, plan.state.roots[i].key)
    requires var key := plan.state.roots[i].key;
             && Done(plan, v0.mint, key, w.roots)
             && t.seenRoots == s.seenRoots + {key} && w.roots == v.roots[key := row]
             && (if KeyClass(plan, key) == Moved
                 then t.reRootIndex == s.reRootIndex[key := |s.batch.reRoots|] && Supersedes(plan, t, key)
                 else t.reRootIndex == s.reRootIndex)
             && (KeyClass(plan, key) == ContentOnly ==> key in plan.roots)
             && t.patchParents == s.patchParents + if KeyClass(plan, key) == ContentOnly then {plan.roots[key].tipEventId} else {}
    requires s.batch.reRoots <= t.batch.reRoots && (NoBindings(s.batch) ==> NoBindings(t.batch))
    requires w.relations == v.relations && t.relationRows == s.relationRows
    ensures KeyRecorded(plan, v0, s, v, t, w, plan.state.roots[i].key)
  {
    hide Done, KeyClass, Wanted;
  }

  /** During the root pass no binding is signed, and a key not yet handled is not re-rooted. */
  lemma UnboundYet(plan: Plan, v0: View, s: RunState, v: View, i: nat)
    requires i < |plan.state.roots| && RootsUpTo(plan, v0, s, v, i) && plan.state.roots[i].key !in s.seenRoots
    ensures NoBindings(s.batch) && plan.state.roots[i].key !in s.reRootIndex
  {
    hide Consistent, RootTargets, PatchParentsOk, KeysDone, NoBindings, Wanted, KeyClass;
  }

  lemma MoreSeen(s: RunState, t: RunState, log: Log)
    requires PatchParentsOk(s, log) && t.patchParents == s.patchParents && s.seenRoots <= t.seenRoots
    ensures PatchParentsOk(t, log)
  {
  }

  lemma ClassOfNew(plan: Plan, k: RootKey)
    requires Wanted(plan, k)
    ensures KeyClass(plan, k) == NewRoot <==> LiveRow(plan.roots, k).None?
  {
    hide Strip, Insert, FirstAt;
  }

  lemma FreshDone(plan: Plan, v0: View, s: RunState, v: View, i: nat, w: View)
    requires Turn(plan, v0, s, v, i, NewRoot)
    requires var root := plan.state.roots[i];
             root.key in w.roots && w.roots[root.key] == FreshRow(root, v.mint, root.content)
    ensures Wanted(plan, plan.state.roots[i].key) && Done(plan, v0.mint, plan.state.roots[i].key, w.roots)
  {
    hide Inv, Signed, RootIdsOk, RootCorpora, UpsertedRoots, RootsUpTo, RootTargets, Sorts, Strip, Insert, FirstAt, ClassOf;
    TurnParts(plan, v0, s, v, i, NewRoot);
    ConsistentMeans(plan, v0, s, v);
    var root := plan.state.roots[i];
    NewSettles(root, v.mint);
    ClassOfNew(plan, root.key);
  }

  lemma SameTargets(plan: Plan, s: RunState, t: RunState)
    requires RootTargets(plan, s) && t.batch.deletions == s.batch.deletions && t.reRootIndex == s.reRootIndex
    ensures RootTargets(plan, t)
  {
  }

  lemma KnownRow(plan: Plan, v0: View, s: RunState, v: View, i: nat, class_: RootClass)
    requires Turn(plan, v0, s, v, i, class_) && class_ != NewRoot
    ensures var key := plan.state.roots[i].key;
            && key in plan.roots && Live(plan.roots, key) && Live(v.roots, key) && v.roots[key] == plan.roots[key]
            && LiveRow(plan.roots, key) == Some(plan.roots[key])
            && ClassOf(plan.state.roots[i], Some(plan.roots[key])) == class_
            && key.corpus in RootCorpora(plan.state) && FirstAt(plan.state.roots, key) == i
  {
    hide Strip, Insert, RootsUpTo, RootCorpora;
    TurnRow(plan, v0, s, v, i, class_);
  }

  /** C2: nothing is emitted; the row is refreshed when only bookkeeping drifted under the current generator. */
  method KeepRoot(plan: Plan, i: nat, s: RunState, ghost v0: View, ghost v: View) returns (t: RunState, ghost w: View)
    requires Turn(plan, v0, s, v, i, Stable)
    ensures t.mint == s.mint && t.batch == s.batch
    ensures RootsUpTo(plan, v0, t, w, i + 1) && w.mint == v.mint
  {
    hide Turn, RootsUpTo, RootCorpora, ClassOf;
    TurnParts(plan, v0, s, v, i, Stable);
    KnownRow(plan, v0, s, v, i, Stable);
    var root := plan.state.roots[i];
    var row := plan.roots[root.key];
    var kept := RefreshedRow(root, row);
    t := s.(seenRoots := s.seenRoots + {root.key});
    if row.genVersion == GEN_VERSION && row.sourceHash != root.sourceHash {
      t := t.(rootRows := s.rootRows + [RootUpsert(root.key, kept)]);
    }
    w := v.(roots := v.roots[root.key := kept]);
    Kept(plan, v0, s, v, i, t, w, root, row, kept);
  }

  lemma Kept(plan: Plan, v0: View, s: RunState, v: View, i: nat, t: RunState, w: View, root: DesiredRoot, row: RootRow, kept: RootRow)
    requires i < |plan.state.roots| && root == plan.state.roots[i] && Turn(plan, v0, s, v, i, Stable)
    requires root.key in plan.roots && row == plan.roots[root.key] && kept == RefreshedRow(root, row)
    requires t == s.(seenRoots := s.seenRoots + {root.key},
                     rootRows := if row.genVersion == GEN_VERSION && row.sourceHash != root.sourceHash
                                 then s.rootRows + [RootUpsert(root.key, kept)] else s.rootRows)
    requires w == v.(roots := v.roots[root.key := kept])
    ensures RootsUpTo(plan, v0, t, w, i + 1)
  {
    hide Inv, ClassOf, Signed, RootIdsOk, RootCorpora, UpsertedRoots, RootsUpTo, RootTargets, Grows,
         LiveRow, Sorts, Turn, Consistent, Wanted, KeyClass, Done, PatchParentsOk, KeyRecorded;
    TurnParts(plan, v0, s, v, i, Stable);
    KnownRow(plan, v0, s, v, i, Stable);
    RefreshSettles(root, row);
    RowStep(plan.patchText, v, root.key, kept);
    UpsertOne(plan.roots, s.rootRows, RootUpsert(root.key, kept));
    assert v.roots[root.key := v.roots[root.key]] == v.roots;
    RootIdsStep(plan.state, s.rootIds, v.roots, root.key, kept);
    ConsistentMeans(plan, v0, s, v);
    SameSigned(plan, v0, s, v, w);
    ConsistentStep(plan, v0, s, v, t, w);
    SameTargets(plan, s, t);
    MoreSeen(s, t, v0.log);
    StableDone(plan, v0.mint, i, w.roots, Stable);
    Recorded(plan, v0, s, v, t, w, i, kept);
    KeyStep(plan, v0, s, v, t, w, i);
  }

  lemma SameSigned(plan: Plan, v0: View, s: RunState, v: View, w: View)
    requires Consistent(plan, v0, s, v) && w.log == v.log && w.mint == v.mint
    ensures Grows(v0, w) && Signed(s.batch, v0.mint, w.log, w.mint)
  {
    hide Inv, Sorts, UpsertedRoots, RootIdsOk, Signed;
  }

  /** A key whose row keeps its root and is stable under the same desired root is done. */
  lemma StableDone(plan: Plan, start: Id, i: nat, roots: Roots, class_: RootClass)
    requires i < |plan.state.roots| && Wanted(plan, plan.state.roots[i].key)
    requires FirstAt(plan.state.roots, plan.state.roots[i].key) == i
    requires var root := plan.state.roots[i];
             && Live(plan.roots, root.key) && Live(roots, root.key) && KeyClass(plan, root.key) == class_ && class_ != Moved
             && roots[root.key].rootEventId == plan.roots[root.key].rootEventId
             && roots[root.key] == ExpectedRow(plan, root, Some(plan.roots[root.key]), roots[root.key].tipEventId)
             && ClassOf(root, Some(roots[root.key])) == Stable
             && (class_ == ContentOnly ==> roots[root.key].tipEventId >= start)
    ensures Done(plan, start, plan.state.roots[i].key, roots)
  {
    hide ClassOf;
  }

  /** The stored tip was signed before this run, for this key. */
  lemma OldTip(plan: Plan, v0: View, s: RunState, v: View, i: nat, class_: RootClass)
    requires Turn(plan, v0, s, v, i, class_) && class_ != NewRoot
    ensures plan.state.roots[i].key in plan.roots
    ensures var key := plan.state.roots[i].key;
            var tip := plan.roots[key].tipEventId;
            tip in v0.log && (v0.log[tip].RootEvent? || v0.log[tip].PatchEvent?) && v0.log[tip].key == key
  {
    hide Turn, RootsUpTo, RootCorpora, ClassOf, Inv;
    KnownRow(plan, v0, s, v, i, class_);
    TurnParts(plan, v0, s, v, i, class_);
    ConsistentMeans(plan, v0, s, v);
    TipsAreOwn(plan.patchText, v0, plan.state.roots[i].key);
  }

  /** Tips belong to their own key and every key comes once: no tip is patched or re-rooted twice in a run. */
  lemma GuardNeverFires(plan: Plan, v0: View, s: RunState, v: View, i: nat, class_: RootClass)
    requires Turn(plan, v0, s, v, i, class_) && class_ != NewRoot
    ensures plan.state.roots[i].key in plan.roots && plan.roots[plan.state.roots[i].key].tipEventId !in s.patchParents
  {
    hide Turn, RootsUpTo, ClassOf, Inv, RootTargets, RootIdsOk, UpsertedRoots;
    OldTip(plan, v0, s, v, i, class_);
    TurnParts(plan, v0, s, v, i, class_);
  }

  /** C3: a patch against the stored tip. The fork guard in front of it has nothing to catch. */
  method PatchRoot(plan: Plan, i: nat, s: RunState, effective: string, ghost v0: View, ghost v: View)
    returns (t: RunState, ghost w: View)
    requires Turn(plan, v0, s, v, i, ContentOnly)
    requires plan.state.roots[i].key in plan.roots ==>
               effective == Effective(plan.state.roots[i], plan.roots[plan.state.roots[i].key])
    ensures var root := plan.state.roots[i];
            && root.key in plan.roots && t.mint == s.mint + 1
            && var row := plan.roots[root.key];
               t.batch == s.batch.(patches := s.batch.patches + [
                 PatchEvent(s.mint, root.key, row.rootEventId, row.tipEventId, plan.patchText(row.tipContent, effective))])
    ensures RootsUpTo(plan, v0, t, w, i + 1)
  {
    hide Turn, RootsUpTo, RootCorpora, ClassOf, Effective, Inv;
    TurnParts(plan, v0, s, v, i, ContentOnly);
    KnownRow(plan, v0, s, v, i, ContentOnly);
    GuardNeverFires(plan, v0, s, v, i, ContentOnly);
    var root := plan.state.roots[i];
    var row := plan.roots[root.key];
    t := s.(seenRoots := s.seenRoots + {root.key});
    if row.tipEventId in s.patchParents {
      t := t.(forkGuards := s.forkGuards + 1);
    } else {
      var e := PatchEvent(s.mint, root.key, row.rootEventId, row.tipEventId, plan.patchText(row.tipContent, effective));
      var patched := RootRow(row.rootEventId, e.id, effective, root.iSet, root.imeta, root.sourceHash, GEN_VERSION, true);
      t := t.(mint := s.mint + 1, batch := s.batch.(patches := s.batch.patches + [e]),
              rootRows := s.rootRows + [RootUpsert(root.key, patched)],
              patchParents := s.patchParents + {row.tipEventId});
      TipsAreOwn(plan.patchText, v, root.key);
      ghost var line := v.lines[root.key];
      w := WithRoot(v, root.key, e, patched, LineOf(line.path + [e.id], line.contents + [effective]));
      Patched(plan, v0, s, v, i, t, w, root, row, e, patched);
    }
  }

  lemma Patched(plan: Plan, v0: View, s: RunState, v: View, i: nat, t: RunState, w: View,
                root: DesiredRoot, row: RootRow, e: Emitted, patched: RootRow)
    requires i < |plan.state.roots| && root == plan.state.roots[i] && Turn(plan, v0, s, v, i, ContentOnly)
    requires root.key in plan.roots && row == plan.roots[root.key] && patched == PatchedRow(root, row, s.mint)
    requires e == PatchEvent(s.mint, root.key, row.rootEventId, row.tipEventId,
                             plan.patchText(row.tipContent, Effective(root, row)))
    requires t == s.(seenRoots := s.seenRoots + {root.key}, mint := s.mint + 1,
                     batch := s.batch.(patches := s.batch.patches + [e]),
                     rootRows := s.rootRows + [RootUpsert(root.key, patched)],
                     patchParents := s.patchParents + {row.tipEventId})
    requires root.key in v.lines
    requires w == WithRoot(v, root.key, e, patched,
                           LineOf(v.lines[root.key].path + [e.id], v.lines[root.key].contents + [Effective(root, row)]))
    ensures RootsUpTo(plan, v0, t, w, i + 1)
  {
    hide Inv, ClassOf, Signed, RootIdsOk, RootCorpora, UpsertedRoots, RootsUpTo, RootTargets, Grows, InReRoots,
         Adds, InBatch, Size, LiveRow, Sorts, Turn, Consistent, Wanted, KeyClass, Done, PatchParentsOk, KeyRecorded, Effective;
    TurnParts(plan, v0, s, v, i, ContentOnly);
    KnownRow(plan, v0, s, v, i, ContentOnly);
    PatchSettles(root, row, e.id);
    ContentDiffers(root, row);
    PatchStep(plan.patchText, v, root);
    AddPatch(s.batch, s.reRootIndex, e);
    EmitOne(plan, v0, s, v, t.batch, e);
    UpsertOne(plan.roots, s.rootRows, RootUpsert(root.key, patched));
    RootIdsStep(plan.state, s.rootIds, v.roots, root.key, patched);
    ConsistentMeans(plan, v0, s, v);
    ConsistentStep(plan, v0, s, v, t, w);
    SameTargets(plan, s, t);
    OldTip(plan, v0, s, v, i, ContentOnly);
    OneMoreParent(s, t, v0.log, row.tipEventId, root.key);
    StableDone(plan, v0.mint, i, w.roots, ContentOnly);
    Recorded(plan, v0, s, v, t, w, i, patched);
    KeyStep(plan, v0, s, v, t, w, i);
  }

  lemma ContentDiffers(root: DesiredRoot, row: RootRow)
    requires ClassOf(root, Some(row)) == ContentOnly
    ensures row.tipContent != Effective(root, row)
  {
    hide Effective;
  }

  lemma OneMoreParent(s: RunState, t: RunState, log: Log, tip: Id, key: RootKey)
    requires PatchParentsOk(s, log) && t.patchParents == s.patchParents + {tip} && t.seenRoots == s.seenRoots + {key}
    requires tip in log && (log[tip].RootEvent? || log[tip].PatchEvent?) && log[tip].key == key
    ensures PatchParentsOk(t, log)
  {
  }

  /** C4: a new root with the supersede notice, and the old root's deletion. */
  method ReRoot(plan: Plan, i: nat, s: RunState, desired: Split, ghost v0: View, ghost v: View)
    returns (t: RunState, ghost w: View)
    requires Turn(plan, v0, s, v, i, Moved) && desired == Strip(plan.state.roots[i].content)
    ensures var root := plan.state.roots[i];
            && root.key in plan.roots && t.mint == s.mint + 2
            && var row := plan.roots[root.key];
               t.batch == s.batch.(
                 reRoots := s.batch.reRoots + [ReRootEntry(
                   RootEvent(s.mint, root.key, Insert(desired.body, plan.noticeText(root, row)), Some(row.rootEventId)), [])],
                 deletions := s.batch.deletions + [DeletionEvent(s.mint + 1, row.rootEventId)])
    ensures RootsUpTo(plan, v0, t, w, i + 1)
  {
    hide Turn, RootsUpTo, RootCorpora, ClassOf, Strip, Insert;
    TurnParts(plan, v0, s, v, i, Moved);
    KnownRow(plan, v0, s, v, i, Moved);
    GuardNeverFires(plan, v0, s, v, i, Moved);
    var root := plan.state.roots[i];
    var row := plan.roots[root.key];
    t := s.(seenRoots := s.seenRoots + {root.key});
    if row.tipEventId in s.patchParents {
      t := t.(forkGuards := s.forkGuards + 1);
    } else {
      var content := InsertSupersedesLine(desired.body, plan.noticeText(root, row));
      var e := RootEvent(s.mint, root.key, content, Some(row.rootEventId));
      var deletion := DeletionEvent(s.mint + 1, row.rootEventId);
      var fresh_ := FreshRow(root, e.id, content);
      t := t.(reRootIndex := s.reRootIndex[root.key := |s.batch.reRoots|],
              batch := s.batch.(reRoots := s.batch.reRoots + [ReRootEntry(e, [])], deletions := s.batch.deletions + [deletion]),
              mint := s.mint + 2, rootRows := s.rootRows + [RootUpsert(root.key, fresh_)],
              rootIds := s.rootIds[root.key := e.id]);
      ghost var between := WithRoot(v, root.key, e, fresh_, LineOf([], [content]));
      w := WithEvent(between, deletion);
      ReRootStep(plan, v0, s, v, i, t, between, w, root, row, content, e, deletion);
    }
  }

  lemma ReRootStep(plan: Plan, v0: View, s: RunState, v: View, i: nat, t: RunState, between: View, w: View,
                 root: DesiredRoot, row: RootRow, content: string, e: Emitted, deletion: Emitted)
    requires i < |plan.state.roots| && root == plan.state.roots[i] && Turn(plan, v0, s, v, i, Moved)
    requires root.key in plan.roots && row == plan.roots[root.key]
    requires content == Insert(Strip(root.content).body, plan.noticeText(root, row))
    requires e == RootEvent(s.mint, root.key, content, Some(row.rootEventId))
    requires deletion == DeletionEvent(s.mint + 1, row.rootEventId)
    requires t == s.(seenRoots := s.seenRoots + {root.key}, reRootIndex := s.reRootIndex[root.key := |s.batch.reRoots|],
                     batch := s.batch.(reRoots := s.batch.reRoots + [ReRootEntry(e, [])], deletions := s.batch.deletions + [deletion]),
                     mint := s.mint + 2, rootRows := s.rootRows + [RootUpsert(root.key, FreshRow(root, s.mint, content))],
                     rootIds := s.rootIds[root.key := e.id])
    requires between == WithRoot(v, root.key, e, FreshRow(root, s.mint, content), LineOf([], [content]))
    requires w == WithEvent(between, deletion)
    ensures RootsUpTo(plan, v0, t, w, i + 1)
  {
    hide Inv, ClassOf, Signed, RootIdsOk, RootCorpora, UpsertedRoots, RootsUpTo, RootTargets, Grows, InReRoots, Obsolete,
         Adds, InBatch, Size, LiveRow, Sorts, Turn, Consistent, Wanted, KeyClass, Done, PatchParentsOk, KeyRecorded, Strip, Insert;
    TurnParts(plan, v0, s, v, i, Moved);
    KnownRow(plan, v0, s, v, i, Moved);
    RootStep(plan.patchText, v, root, content, Some(row.rootEventId));
    UnboundYet(plan, v0, s, v, i);
    AddReRoot(s.batch, s.reRootIndex, e);
    var half := s.batch.(reRoots := s.batch.reRoots + [ReRootEntry(e, [])]);
    EmitOne(plan, v0, s, v, half, e);
    UpsertOne(plan.roots, s.rootRows, RootUpsert(root.key, FreshRow(root, s.mint, content)));
    RootIdsStep(plan.state, s.rootIds, v.roots, root.key, FreshRow(root, s.mint, content));
    ConsistentMeans(plan, v0, s, v);
    var mid := t.(mint := s.mint + 1, batch := half);
    ConsistentStep(plan, v0, s, v, mid, between);
    OldRootObsolete(plan.patchText, v, root, content, e, between);
    DeletionStep(plan.patchText, between, row.rootEventId);
    AddDeletion(half, t.reRootIndex, deletion);
    EmitOne(plan, v0, mid, between, t.batch, deletion);
    ConsistentStep(plan, v0, mid, between, t, w);
    MoreTargets(plan, v0, s, v, t, root.key, deletion);
    MoreSeen(s, t, v0.log);
    MovedDone(plan, v0, s, v, i, w, content);
    assert Supersedes(plan, t, root.key);
    Recorded(plan, v0, s, v, t, w, i, FreshRow(root, s.mint, content));
    KeyStep(plan, v0, s, v, t, w, i);
  }

  /** Once the key's row names the new root, the old root is nobody's. */
  lemma OldRootObsolete(patchText: PatchText, v: View, root: DesiredRoot, content: string, e: Emitted, between: View)
    requires Inv(patchText, v) && Live(v.roots, root.key) && e.RootEvent? && e.id == v.mint
    requires between == WithRoot(v, root.key, e, FreshRow(root, e.id, content), LineOf([], [content]))
    ensures Obsolete(between, v.roots[root.key].rootEventId)
  {
    hide Inv;
    TipsAreOwn(patchText, v, root.key);
    Fresh(patchText, v);
  }

  lemma Fresh(patchText: PatchText, v: View)
    requires Inv(patchText, v)
    ensures v.mint !in v.log
  {
    hide LinesOk, RelationsOk, DeletionsOk;
  }

  /** The deletion just pushed names a root that was live until now, so none before it did. */
  lemma MoreTargets(plan: Plan, v0: View, s: RunState, v: View, t: RunState, key: RootKey, deletion: Emitted)
    requires RootTargets(plan, s) && Consistent(plan, v0, s, v) && Live(v.roots, key) && Live(plan.roots, key)
    requires deletion.DeletionEvent? && deletion.target == plan.roots[key].rootEventId == v.roots[key].rootEventId
    requires t.batch.deletions == s.batch.deletions + [deletion]
    requires key in t.reRootIndex && t.reRootIndex == s.reRootIndex[key := t.reRootIndex[key]]
    ensures RootTargets(plan, t)
  {
    LiveRootNotTargeted(plan, v0, s, v, key);
    hide Consistent;
    var before, after := Targets(s.batch.deletions), Targets(t.batch.deletions);
    assert after == before + [deletion.target];
    forall x ensures x in after <==> Replaced(plan, t.reRootIndex, x) {
      if Replaced(plan, s.reRootIndex, x) {
        var k :| k in s.reRootIndex && Live(plan.roots, k) && plan.roots[k].rootEventId == x;
        assert k in t.reRootIndex;
      }
      assert x in after <==> x in before || x == deletion.target;
    }
  }

  lemma MovedDone(plan: Plan, v0: View, s: RunState, v: View, i: nat, w: View, content: string)
    requires Turn(plan, v0, s, v, i, Moved)
    requires var root := plan.state.roots[i];
             && root.key in plan.roots && content == Insert(Strip(root.content).body, plan.noticeText(root, plan.roots[root.key]))
             && root.key in w.roots && w.roots[root.key] == FreshRow(root, v.mint, content)
    ensures Wanted(plan, plan.state.roots[i].key) && Done(plan, v0.mint, plan.state.roots[i].key, w.roots)
  {
    hide RootsUpTo, RootCorpora, ClassOf, Insert, FirstAt;
    KnownRow(plan, v0, s, v, i, Moved);
    TurnParts(plan, v0, s, v, i, Moved);
    ConsistentMeans(plan, v0, s, v);
  }

  // ---------------------------------------------------------------- the pass

  /** One desired root: a second root of a key is skipped, the first is classified against the ledger. */
  method ProcessRoot(plan: Plan, i: nat, s: RunState, ghost v0: View, ghost v: View) returns (t: RunState, ghost w: View)
    requires i < |plan.state.roots| && RootsUpTo(plan, v0, s, v, i) && QuietSoFar(plan, v0, v, i)
    ensures RootsUpTo(plan, v0, t, w, i + 1) && QuietSoFar(plan, v0, w, i + 1)
  {
    var root := plan.state.roots[i];
    if root.key in s.seenRoots {
      t, w := s, v;
      SkipDuplicate(plan, v0, s, v, i);
      QuietStep(plan, v0, v, w, i);
      return;
    }
    TurnOf(plan, v0, s, v, i);
    hide RootsUpTo, FirstAt, QuietSoFar, Strip, Insert, Turn, ClassOf, Effective;
    ClassIs(root, LiveRow(plan.roots, root.key));
    var before := LiveRow(plan.roots, root.key);
    if before.None? {
      t, w := PublishRoot(plan, i, s, v0, v);
      QuietStep(plan, v0, v, w, i);
      return;
    }
    var row := before.value;
    var stored := StripSupersedesNotice(row.tipContent);
    var desired := StripSupersedesNotice(root.content);
    var effective := root.content;
    if desired.notice.None? && stored.notice.Some? {
      effective := InsertSupersedesLine(root.content, stored.notice.value);
    }
    var sameIdentity := row.iSet == root.iSet && row.imeta == root.imeta;
    if sameIdentity && row.tipContent == effective {
      t, w := KeepRoot(plan, i, s, v0, v);
    } else if sameIdentity && row.genVersion == GEN_VERSION {
      t, w := PatchRoot(plan, i, s, effective, v0, v);
    } else {
      t, w := ReRoot(plan, i, s, desired, v0, v);
    }
    QuietStep(plan, v0, v, w, i);
  }

  /** The comparisons the pass makes decide the class. */
  lemma ClassIs(root: DesiredRoot, row: Option<RootRow>)
    ensures row.None? ==> ClassOf(root, row) == NewRoot
    ensures row.Some? ==>
              && Effective(root, row.value) ==
                 (var stored := Strip(row.value.tipContent).notice;
                  if Strip(root.content).notice.None? && stored.Some? then Insert(root.content, stored.value) else root.content)
              && ClassOf(root, row) ==
                 (var same := row.value.iSet == root.iSet && row.value.imeta == root.imeta;
                  if same && row.value.tipContent == Effective(root, row.value) then Stable
                  else if same && row.value.genVersion == GEN_VERSION then ContentOnly else Moved)
  {
  }

  lemma TurnOf(plan: Plan, v0: View, s: RunState, v: View, i: nat)
    requires i < |plan.state.roots| && RootsUpTo(plan, v0, s, v, i) && plan.state.roots[i].key !in s.seenRoots
    ensures Turn(plan, v0, s, v, i, ClassOf(plan.state.roots[i], LiveRow(plan.roots, plan.state.roots[i].key)))
    ensures FirstAt(plan.state.roots, plan.state.roots[i].key) == i
    ensures KeyClass(plan, plan.state.roots[i].key) == ClassOf(plan.state.roots[i], LiveRow(plan.roots, plan.state.roots[i].key))
  {
    hide Consistent, ClassOf, ReRootsOk, PatchParentsOk, RootTargets;
    FirstSeen(plan, i, s.seenRoots);
  }

  lemma SkipDuplicate(plan: Plan, v0: View, s: RunState, v: View, i: nat)
    requires i < |plan.state.roots| && RootsUpTo(plan, v0, s, v, i) && plan.state.roots[i].key in s.seenRoots
    ensures RootsUpTo(plan, v0, s, v, i + 1)
  {
    hide Consistent, ClassOf, ReRootsOk, PatchParentsOk, RootTargets, Done, Untouched;
    FirstSeen(plan, i, s.seenRoots);
    assert s.seenRoots + {plan.state.roots[i].key} == s.seenRoots;
  }

  /** Endpoints known before the run: the live roots of every corpus in scope. */
  function SeedIds(roots: Roots, state: DesiredState): map<RootKey, Id> {
    map k | k in roots && roots[k].live && k.corpus in RootCorpora(state) :: roots[k].rootEventId
  }

  function Start(plan: Plan, mint: Id): RunState {
    RunState(mint, Batch([], [], [], [], []), [], [], SeedIds(plan.roots, plan.state), {}, {}, map[], 0)
  }

  lemma StartOk(plan: Plan, v0: View)
    requires Inv(plan.patchText, v0) && v0.roots == plan.roots && v0.relations == plan.relations
    ensures RootsUpTo(plan, v0, Start(plan, v0.mint), v0, 0) && QuietSoFar(plan, v0, v0, 0)
  {
    hide Inv, RootCorpora, Done, ClassOf;
    var s := Start(plan, v0.mint);
    assert forall e :: !InBatch(s.batch, e);
    assert Signed(s.batch, v0.mint, v0.log, v0.mint);
    assert Consistent(plan, v0, s, v0);
  }

  // ---------------------------------------------------------------- C5

  /** The key stands for the source's record itself. */
  predicate IsRecord(k: RootKey, corpus: string, sourceId: string) {
    k.corpus == corpus && k.sourceId == sourceId && (k.role == "product" || k.role == "metadata")
  }

  /** Some row, live or retired, stands for the source's record. */
  predicate KnownSource(roots: Roots, corpus: string, sourceId: string) {
    exists k :: k in roots && IsRecord(k, corpus, sourceId)
  }

  /** The dataset lists the key's corpus without its source. */
  predicate Unlisted(state: DesiredState, k: RootKey) {
    k.corpus in state.sourceIds && k.sourceId !in state.sourceIds[k.corpus]
  }

  /** A live row of a known source that the dataset no longer lists. */
  predicate Gone(plan: Plan, k: RootKey) {
    && Live(plan.roots, k)
    && Unlisted(plan.state, k)
    && KnownSource(plan.roots, k.corpus, k.sourceId)
  }

  /** The roots after the whole pass. */
  ghost predicate RootsSettled(plan: Plan, v0: View, roots: Roots) {
    && (forall k :: Gone(plan, k) ==> k in roots && k in plan.roots && roots[k] == plan.roots[k].(live := false))
    && (forall k :: Wanted(plan, k) && !Gone(plan, k) ==> Done(plan, v0.mint, k, roots))
    && forall k :: !Wanted(plan, k) && !Gone(plan, k) ==> Untouched(plan.roots, roots, k)
  }

  ghost predicate RootsDone(plan: Plan, v0: View, s: RunState, v: View) {
    && Consistent(plan, v0, s, v) && RootsSettled(plan, v0, v.roots)
    && v.relations == plan.relations && s.relationRows == []
    && ReRootsAre(plan, s) && RootTargets(plan, s)
    && (Quiet(plan, |plan.state.roots|) ==> v.mint == v0.mint)
  }

  /** Exactly the keys that moved were re-rooted. */
  ghost predicate ReRootsAre(plan: Plan, s: RunState) {
    && (forall k :: k in s.reRootIndex <==> Wanted(plan, k) && KeyClass(plan, k) == Moved)
    && forall k :: k in s.reRootIndex ==> Supersedes(plan, s, k)
  }

  /** The gone keys handled so far are retired, and no other row has moved. */
  ghost predicate RetiredBut(plan: Plan, before: Roots, after: Roots, gone: set<RootKey>, todo: set<RootKey>) {
    && (forall k :: k in gone && k !in todo ==> k in after && k in plan.roots && after[k] == plan.roots[k].(live := false))
    && forall k :: k in todo || k !in gone ==> Untouched(before, after, k)
  }

  lemma RetiredOneMore(plan: Plan, before: Roots, after: Roots, gone: set<RootKey>, todo: set<RootKey>, k: RootKey)
    requires RetiredBut(plan, before, after, gone, todo) && k in todo && todo <= gone && k in plan.roots
    ensures RetiredBut(plan, before, after[k := plan.roots[k].(live := false)], gone, todo - {k})
  {
  }

  lemma NoneRetired(plan: Plan, before: Roots, gone: set<RootKey>)
    ensures RetiredBut(plan, before, before, gone, gone)
  {
  }

  ghost predicate Retiring(plan: Plan, v0: View, s: RunState, v: View, gone: set<RootKey>, todo: set<RootKey>, t: RunState, w: View) {
    && todo <= gone && Consistent(plan, v0, t, w)
    && w == v.(roots := w.roots) && t == s.(rootRows := t.rootRows, rootIds := t.rootIds)
    && RetiredBut(plan, v.roots, w.roots, gone, todo)
    && forall k :: k in plan.roots ==> k in w.roots
  }

  lemma RetiringStart(plan: Plan, v0: View, s: RunState, v: View, gone: set<RootKey>)
    requires RootsUpTo(plan, v0, s, v, |plan.state.roots|)
    ensures Retiring(plan, v0, s, v, gone, gone, s, v)
  {
    hide RootsUpTo, Consistent, RootTargets, Done, Quiet, ReRootsAre, Untouched, Wanted, RetiredBut;
    PassFacts(plan, v0, s, v);
    NoneRetired(plan, v.roots, gone);
  }

  lemma RetiringStep(plan: Plan, v0: View, s: RunState, v: View, gone: set<RootKey>, todo: set<RootKey>, t: RunState, w: View, k: RootKey)
    requires Retiring(plan, v0, s, v, gone, todo, t, w) && k in todo && k in plan.roots
    ensures var retired := plan.roots[k].(live := false);
            Retiring(plan, v0, s, v, gone, todo - {k},
                     t.(rootRows := t.rootRows + [RootUpsert(k, retired)], rootIds := t.rootIds - {k}),
                     w.(roots := w.roots[k := retired]))
  {
    hide Consistent, RetiredBut;
    RetiredOneMore(plan, v.roots, w.roots, gone, todo, k);
    RetireOne(plan, v0, t, w, k, plan.roots[k].(live := false));
  }

  /** Retires the rows of sources gone from the dataset; no event is signed. */
  method RetireGone(plan: Plan, s: RunState, ghost v0: View, ghost v: View) returns (t: RunState, ghost w: View)
    requires RootsUpTo(plan, v0, s, v, |plan.state.roots|) && QuietSoFar(plan, v0, v, |plan.state.roots|)
    ensures RootsDone(plan, v0, t, w)
  {
    hide RootsUpTo, RootsDone, Retiring, QuietSoFar, KnownSource;
    var gone := set k | k in plan.roots && Gone(plan, k);
    assert forall k :: Gone(plan, k) ==> k in plan.roots;
    hide Gone;
    t, w := s, v;
    var todo := gone;
    RetiringStart(plan, v0, s, v, gone);
    while todo != {}
      invariant todo <= gone && Retiring(plan, v0, s, v, gone, todo, t, w)
      decreases |todo|
    {
      var k := Pick(todo);
      RetiringStep(plan, v0, s, v, gone, todo, t, w, k);
      todo := todo - {k};
      var retired := plan.roots[k].(live := false);
      t := t.(rootRows := t.rootRows + [RootUpsert(k, retired)], rootIds := t.rootIds - {k});
      w := w.(roots := w.roots[k := retired]);
    }
    Retired(plan, v0, s, v, t, w, gone);
  }

  /** Every ledger key still has a row after the pass. */
  lemma PassFacts(plan: Plan, v0: View, s: RunState, v: View)
    requires RootsUpTo(plan, v0, s, v, |plan.state.roots|)
    ensures Consistent(plan, v0, s, v) && RootTargets(plan, s) && ReRootsAre(plan, s)
    ensures v.relations == plan.relations && s.relationRows == []
    ensures forall k :: k in plan.roots ==> k in v.roots
    ensures forall k :: Wanted(plan, k) ==> Done(plan, v0.mint, k, v.roots)
    ensures forall k :: !Wanted(plan, k) ==> Untouched(plan.roots, v.roots, k)
  {
    hide Consistent, RootTargets, PatchParentsOk, Quiet, KeyClass, ClassOf;
    forall k | k in plan.roots ensures k in v.roots {
      if k in s.seenRoots { assert Done(plan, v0.mint, k, v.roots); } else { assert Untouched(plan.roots, v.roots, k); }
    }
  }

  lemma RetireOne(plan: Plan, v0: View, s: RunState, v: View, k: RootKey, retired: RootRow)
    requires Consistent(plan, v0, s, v) && k in v.roots && !retired.live
    ensures Consistent(plan, v0, s.(rootRows := s.rootRows + [RootUpsert(k, retired)], rootIds := s.rootIds - {k}),
                       v.(roots := v.roots[k := retired]))
  {
    var t := s.(rootRows := s.rootRows + [RootUpsert(k, retired)], rootIds := s.rootIds - {k});
    var w := v.(roots := v.roots[k := retired]);
    assert RootIdsOk(plan.state, t.rootIds, w.roots) by {
      hide Inv, Signed, Sorts, RootCorpora, UpsertedRoots, Grows;
      assert RootIdsOk(plan.state, s.rootIds, v.roots);
    }
    hide Inv, Signed, Sorts, RootIdsOk, UpsertedRoots;
    RowStep(plan.patchText, v, k, retired);
    UpsertOne(plan.roots, s.rootRows, RootUpsert(k, retired));
  }

  lemma Retired(plan: Plan, v0: View, s: RunState, v: View, t: RunState, w: View, gone: set<RootKey>)
    requires RootsUpTo(plan, v0, s, v, |plan.state.roots|) && QuietSoFar(plan, v0, v, |plan.state.roots|)
    requires Retiring(plan, v0, s, v, gone, {}, t, w)
    requires forall k :: k in gone <==> Gone(plan, k)
    ensures RootsDone(plan, v0, t, w)
  {
    hide RootsUpTo, Gone, Consistent, RootTargets, Quiet, KeyClass, ClassOf, RetiredBut, RootsSettled, ReRootsAre, Wanted;
    PassFacts(plan, v0, s, v);
    SameTargets(plan, s, t);
    SettledAfter(plan, v0, v.roots, w.roots, gone);
    assert ReRootsAre(plan, t) by { SameReRoots(plan, s, t); }
  }

  lemma SameReRoots(plan: Plan, s: RunState, t: RunState)
    requires ReRootsAre(plan, s) && t.reRootIndex == s.reRootIndex && t.batch == s.batch
    ensures ReRootsAre(plan, t)
  {
    hide KeyClass, Wanted;
  }

  lemma SettledAfter(plan: Plan, v0: View, before: Roots, after: Roots, gone: set<RootKey>)
    requires forall k :: k in gone <==> Gone(plan, k)
    requires RetiredBut(plan, before, after, gone, {})
    requires forall k :: Wanted(plan, k) ==> Done(plan, v0.mint, k, before)
    requires forall k :: !Wanted(plan, k) ==> Untouched(plan.roots, before, k)
    ensures RootsSettled(plan, v0, after)
  {
    hide Gone, KeyClass, ClassOf, FirstAt;
    forall k | Wanted(plan, k) && !Gone(plan, k) ensures Done(plan, v0.mint, k, after) {
      DoneKept(plan, v0.mint, k, before, after);
    }
    forall k | !Wanted(plan, k) && !Gone(plan, k) ensures Untouched(plan.roots, after, k) {
      assert Untouched(plan.roots, before, k) && Untouched(before, after, k);
    }
  }

  lemma DoneKept(plan: Plan, start: Id, k: RootKey, before: Roots, after: Roots)
    requires Wanted(plan, k) && Done(plan, start, k, before) && Untouched(before, after, k)
    ensures Done(plan, start, k, after)
  {
    hide KeyClass, ClassOf, FirstAt;
  }

  /** The whole root pass. */
  method RootPass(plan: Plan, mint: Id, ghost v0: View) returns (t: RunState, ghost w: View)
    requires Inv(plan.patchText, v0) && v0.roots == plan.roots && v0.relations == plan.relations && v0.mint == mint
    ensures RootsDone(plan, v0, t, w)
  {
    t, w := Start(plan, mint), v0;
    StartOk(plan, v0);
    hide RootsUpTo, RootsDone, QuietSoFar;
    for i := 0 to |plan.state.roots|
      invariant RootsUpTo(plan, v0, t, w, i) && QuietSoFar(plan, v0, w, i)
    {
      t, w := ProcessRoot(plan, i, t, v0, w);
    }
    t, w := RetireGone(plan, t, v0, w);
  }
}
