/** The sync engine over its ledger, run after run: what a run publishes, and what runs keep. */
module Mirror {
  import opened Prelude
  import opened MirrorModel
  import opened MirrorBatch
  import opened MirrorRoots
  import opened MirrorRootPass
  import opened MirrorRelations
  import opened MirrorRelationPass
  import opened Notice

  /** The two keyed tables. */
  class SecCertsLedger {
    var roots: Roots
    var relations: Relations

    constructor ()
      ensures roots == map[] && relations == map[]
    {
      roots, relations := map[], map[];
    }

    method UpsertRoots(rows: seq<RootUpsert>)
      modifies this`roots
      ensures roots == UpsertedRoots(old(roots), rows)
    {
      for i := 0 to |rows|
        invariant roots == UpsertedRoots(old(roots), rows[..i])
      {
        UpsertOne(old(roots), rows[..i], rows[i]);
        assert rows[..i + 1] == rows[..i] + [rows[i]];
        roots := roots[rows[i].key := rows[i].row];
      }
      assert rows[..|rows|] == rows;
    }

    method UpsertRelations(rows: seq<RelationUpsert>)
      modifies this`relations
      ensures relations == UpsertedRelations(old(relations), rows)
    {
      for i := 0 to |rows|
        invariant relations == UpsertedRelations(old(relations), rows[..i])
      {
        UpsertOneRelation(old(relations), rows[..i], rows[i]);
        assert rows[..i + 1] == rows[..i] + [rows[i]];
        relations := relations[rows[i].key := rows[i].row];
      }
      assert rows[..|rows|] == rows;
    }
  }

  /** The batch as published: one place per event signed in this run, deletions last. */
  ghost predicate Publishes(v0: View, v: View, events: seq<Emitted>) {
    && |events| == v.mint - v0.mint
    && (forall id :: v0.mint <= id < v.mint ==> id in v.log && v.log[id] in events)
    && (forall e :: e in events ==> v0.mint <= e.id && e.id in v.log && v.log[e.id] == e)
    && DeletionsLast(events)
  }

  /** The engine: it reads the snapshot, signs the delta, and returns the rows to apply. */
  method RunEngine(plan: Plan, mint: Id, ghost v0: View) returns (events: seq<Emitted>, s: RunState, ghost v: View)
    requires Inv(plan.patchText, v0) && v0.roots == plan.roots && v0.relations == plan.relations && v0.mint == mint
    ensures RunDone(plan, v0, s, v) && Publishes(v0, v, events) && Staged(events, s.reRootIndex)
  {
    var r: RunState;
    ghost var u: View;
    r, u := RootPass(plan, mint, v0);
    s, v := r, u;
    var seen: set<RelKey> := {};
    RelationsStart(plan, v0, r, u);
    hide RootsDone, RelsUpTo, RunDone, Inv;
    for j := 0 to |plan.state.relations|
      invariant RelsUpTo(plan, v0, r, u, s, v, seen, j)
    {
      s, v, seen := ProcessRelation(plan, v0, r, u, s, v, seen, j);
    }
    s, v := RetractAbsent(plan, v0, r, u, s, v, seen);
    RunBatch(plan, v0, s, v);
    hide Signed, Sorts, InBatch, Size, Staged;
    events := Assemble(s.batch, s.reRootIndex);
    Published(plan, v0, s, v, events);
  }

  lemma RelationsStart(plan: Plan, v0: View, r: RunState, u: View)
    requires RootsDone(plan, v0, r, u)
    ensures RelsUpTo(plan, v0, r, u, r, u, {}, 0)
  {
    hide Consistent, RootsSettled, Quiet, KeyClass, Wanted, Replaced;
    forall rk ensures !Dropped(plan, u.relations, rk) {}
    assert forall t :: !DroppedId(plan, u.relations, t);
  }

  lemma RunBatch(plan: Plan, v0: View, s: RunState, v: View)
    requires RunDone(plan, v0, s, v)
    ensures Sorts(s.batch, s.reRootIndex) && Signed(s.batch, v0.mint, v.log, v.mint)
  {
    hide Inv, Signed, Sorts, RootsSettled, RelationsSettled, AllTargets, UpsertedRoots, UpsertedRelations, RootIdsOk, ReRootsAre, Quiet, RelsQuiet;
  }

  lemma Published(plan: Plan, v0: View, s: RunState, v: View, events: seq<Emitted>)
    requires Signed(s.batch, v0.mint, v.log, v.mint)
    requires |events| == Size(s.batch) && (forall e :: e in events <==> InBatch(s.batch, e)) && DeletionsLast(events)
    ensures Publishes(v0, v, events)
  {
    hide InBatch, Size, DeletionsLast;
  }

  /** The mirror between runs: its ledger, the ids it will mint, and (as history) all it ever signed. */
  class SyncedMirror {
    const patchText: PatchText
    const noticeText: NoticeText
    const ledger: SecCertsLedger
    var mint: Id
    ghost var log: Log
    ghost var lines: Lines

    ghost function Now(): View
      reads this, ledger
    {
      View(ledger.roots, ledger.relations, log, lines, mint)
    }

    ghost predicate Valid()
      reads this, ledger
    {
      Inv(patchText, Now())
    }

    constructor (patchText: PatchText, noticeText: NoticeText)
      ensures Valid() && fresh(ledger) && log == map[]
    {
      this.patchText := patchText;
      this.noticeText := noticeText;
      ledger := new SecCertsLedger();
      mint, log, lines := 0, map[], map[];
    }

    /** One run with its rows applied. */
    method Sync(state: DesiredState) returns (events: seq<Emitted>, s: RunState)
      requires Valid()
      modifies this`mint, this`log, this`lines, ledger
      ensures Valid()
      ensures RunDone(Plan(patchText, noticeText, old(ledger.roots), old(ledger.relations), state), old(Now()), s, Now())
      ensures Publishes(old(Now()), Now(), events) && Staged(events, s.reRootIndex)
      ensures var plan := Plan(patchText, noticeText, old(ledger.roots), old(ledger.relations), state);
              EndpointsCurrent(old(Now())) && FingerprintsCover(plan, old(Now())) && FullRun(plan) ==> EndpointsCurrent(Now())
    {
      var plan := Plan(patchText, noticeText, ledger.roots, ledger.relations, state);
      ghost var v0 := Now();
      hide Inv, RunDone, Publishes, Staged, EndpointsCurrent, FingerprintsCover, FullRun;
      ghost var v;
      events, s, v := RunEngine(plan, mint, v0);
      RunRows(plan, v0, s, v);
      if EndpointsCurrent(v0) && FingerprintsCover(plan, v0) && FullRun(plan) { EndpointsFollow(plan, v0, s, v); }
      ledger.UpsertRoots(s.rootRows);
      ledger.UpsertRelations(s.relationRows);
      mint, log, lines := s.mint, v.log, v.lines;
      assert Now() == v;
    }
  }

  /** The rows of a run take the ledger exactly to where the run left it. */
  lemma RunRows(plan: Plan, v0: View, s: RunState, v: View)
    requires RunDone(plan, v0, s, v)
    ensures UpsertedRoots(plan.roots, s.rootRows) == v.roots
    ensures UpsertedRelations(plan.relations, s.relationRows) == v.relations
    ensures s.mint == v.mint && Inv(plan.patchText, v) && Inv(plan.patchText, v0) && Grows(v0, v)
    ensures v0.roots == plan.roots && v0.relations == plan.relations && RootIdsOk(plan.state, s.rootIds, v.roots)
    ensures s.forkGuards == 0
  {
    hide Inv, Signed, Sorts, RootsSettled, RelationsSettled, AllTargets, UpsertedRoots, UpsertedRelations, RootIdsOk, ReRootsAre,
         Quiet, RelsQuiet, Grows;
  }

  // ---------------------------------------------------------------- conservation of deletions

  /** The key is desired and its identity moved: the root is replaced. */
  ghost predicate ReRooted(plan: Plan, k: RootKey) {
    Wanted(plan, k) && KeyClass(plan, k) == Moved
  }

  /**
   * The deletions of a run name exactly the replaced roots and the bindings no longer stood by, each once;
   * none of them was signed in the run, and none is live after it.
   */
  lemma DeletionsExact(plan: Plan, v0: View, s: RunState, v: View)
    requires RunDone(plan, v0, s, v)
    ensures forall d :: d in s.batch.deletions ==> d.DeletionEvent?
    ensures Distinct(Targets(s.batch.deletions))
    ensures forall t :: t in Targets(s.batch.deletions) <==>
              (exists k :: ReRooted(plan, k) && k in plan.roots && plan.roots[k].rootEventId == t)
              || (exists rk :: Dropped(plan, v.relations, rk) && plan.relations[rk].eventId == t)
    ensures forall t :: t in Targets(s.batch.deletions) ==> t in v0.log && t < v0.mint && Obsolete(v, t)
  {
    RunRows(plan, v0, s, v);
    RunTargets(plan, v0, s, v);
    hide RunDone, Obsolete, Inv, RootIdsOk, UpsertedRoots, UpsertedRelations, Dropped;
    forall t ensures Replaced(plan, s.reRootIndex, t) <==>
                     exists k :: ReRooted(plan, k) && k in plan.roots && plan.roots[k].rootEventId == t
    {
      ReplacedAre(plan, s, t);
    }
    forall t | t in Targets(s.batch.deletions) ensures t in v0.log && t < v0.mint && Obsolete(v, t) {
      TargetIsOld(plan, v0, s, v, t);
    }
  }

  lemma RunTargets(plan: Plan, v0: View, s: RunState, v: View)
    requires RunDone(plan, v0, s, v)
    ensures AllTargets(plan, s, v.relations) && ReRootsAre(plan, s)
    ensures RootsSettled(plan, v0, v.roots) && RelationsSettled(plan, s, v0.mint, v)
    ensures Signed(s.batch, v0.mint, v.log, v.mint)
    ensures Quiet(plan, |plan.state.roots|) && RelsQuiet(plan, s, |plan.state.relations|) && (forall rk :: !AbsentRel(plan, rk))
            ==> v.mint == v0.mint
  {
    hide Inv, Signed, Sorts, RootsSettled, RelationsSettled, AllTargets, UpsertedRoots, UpsertedRelations, RootIdsOk, ReRootsAre,
         Quiet, RelsQuiet, Grows, AbsentRel;
  }

  lemma ReplacedAre(plan: Plan, s: RunState, t: Id)
    requires ReRootsAre(plan, s)
    ensures Replaced(plan, s.reRootIndex, t) <==>
            exists k :: ReRooted(plan, k) && k in plan.roots && plan.roots[k].rootEventId == t
  {
    forall k | ReRooted(plan, k) ensures Live(plan.roots, k) { MovedIsLive(plan, k); }
    hide KeyClass, Wanted;
    if k :| k in s.reRootIndex && Live(plan.roots, k) && plan.roots[k].rootEventId == t {
      assert ReRooted(plan, k);
    }
    if k :| ReRooted(plan, k) && k in plan.roots && plan.roots[k].rootEventId == t {
      assert k in s.reRootIndex;
    }
  }

  lemma MovedIsLive(plan: Plan, k: RootKey)
    requires ReRooted(plan, k)
    ensures Live(plan.roots, k)
  {
    hide Strip, Insert, FirstAt;
  }

  lemma TargetIsOld(plan: Plan, v0: View, s: RunState, v: View, t: Id)
    requires AllTargets(plan, s, v.relations) && Signed(s.batch, v0.mint, v.log, v.mint)
    requires Inv(plan.patchText, v0) && Inv(plan.patchText, v) && v0.roots == plan.roots && v0.relations == plan.relations
    requires t in Targets(s.batch.deletions)
    ensures t in v0.log && t < v0.mint && Obsolete(v, t)
  {
    hide Obsolete;
    var ts := Targets(s.batch.deletions);
    var i :| 0 <= i < |ts| && ts[i] == t;
    var d := s.batch.deletions[i];
    assert InBatch(s.batch, d);
    hide InBatch;
    assert v.log[d.id] == d && Obsolete(v, d.target);
    if Replaced(plan, s.reRootIndex, t) {
      var k :| k in s.reRootIndex && Live(plan.roots, k) && plan.roots[k].rootEventId == t;
      TipsAreOwn(plan.patchText, v0, k);
    } else {
      var rk :| Dropped(plan, v.relations, rk) && plan.relations[rk].eventId == t;
      assert IsBindingOf(v0.log, rk, v0.relations[rk]);
    }
  }

  // ---------------------------------------------------------------- nothing goes before its replacement is there

  lemma SignedIsPublished(patchText: PatchText, v0: View, v: View, b: Batch, events: seq<Emitted>, e: Emitted)
    requires Publishes(v0, v, events) && Signed(b, v0.mint, v.log, v.mint) && InBatch(b, e) && Inv(patchText, v)
    ensures e in events
  {
    hide InBatch, Size, LinesOk, RelationsOk, DeletionsOk;
    assert v0.mint <= e.id < v.mint;
  }

  lemma StageDecides(events: seq<Emitted>, sites: Sites, e: Emitted, j: nat) returns (i: nat)
    requires InStages(events, sites) && e in events && j < |events| && Stage(e, sites) < Stage(events[j], sites)
    ensures i < j && events[i] == e
  {
    i :| 0 <= i < |events| && events[i] == e;
    hide Stage;
  }

  /** The superseding root of a replaced one is published before the old root's deletion. */
  lemma ReplacementRootFirst(plan: Plan, v0: View, s: RunState, v: View, events: seq<Emitted>, j: nat, k: RootKey)
    requires RunDone(plan, v0, s, v) && Publishes(v0, v, events) && Staged(events, s.reRootIndex)
    requires j < |events| && events[j].DeletionEvent?
    requires ReRooted(plan, k) && k in plan.roots && plan.roots[k].rootEventId == events[j].target
    ensures exists i :: 0 <= i < j && events[i].RootEvent? && events[i].key == k && events[i].supersedes == Some(events[j].target)
  {
    hide *;
    RunRows(plan, v0, s, v);
    RunTargets(plan, v0, s, v);
    var e := SupersedingEvent(plan, s, k);
    SignedIsPublished(plan.patchText, v0, v, s.batch, events, e);
    var i := DeletionIsLater(events, s.reRootIndex, e, j);
  }

  lemma SupersedingEvent(plan: Plan, s: RunState, k: RootKey) returns (e: Emitted)
    requires ReRootsAre(plan, s) && ReRooted(plan, k) && k in plan.roots
    ensures e.RootEvent? && e.key == k && e.supersedes == Some(plan.roots[k].rootEventId) && InBatch(s.batch, e)
  {
    hide KeyClass, Wanted;
    assert Supersedes(plan, s, k);
    e := s.batch.reRoots[s.reRootIndex[k]].event;
    assert InEntry(s.batch.reRoots, s.reRootIndex[k], e);
  }

  lemma DeletionIsLater(events: seq<Emitted>, sites: Sites, e: Emitted, j: nat) returns (i: nat)
    requires Staged(events, sites) && e in events && !e.DeletionEvent? && j < |events| && events[j].DeletionEvent?
    ensures i < j && events[i] == e
  {
    hide Attached;
    i := StageDecides(events, sites, e, j);
  }

  /** A binding replaced in the run has its successor published before its own deletion. */
  lemma ReplacementBindingFirst(plan: Plan, v0: View, s: RunState, v: View, events: seq<Emitted>, j: nat, rk: RelKey)
    requires RunDone(plan, v0, s, v) && Publishes(v0, v, events) && Staged(events, s.reRootIndex)
    requires j < |events| && events[j].DeletionEvent?
    requires Dropped(plan, v.relations, rk) && plan.relations[rk].eventId == events[j].target && Bound(v.relations, rk)
    ensures exists i :: 0 <= i < j && events[i].BindingEvent? && events[i].rel == rk && events[i].id == v.relations[rk].eventId
  {
    RunRows(plan, v0, s, v);
    RunTargets(plan, v0, s, v);
    SuccessorIsNew(plan, v0, s, v, rk);
    hide RunDone, Signed, RootsSettled, RelationsSettled, AllTargets, ReRootsAre, LinesOk, DeletionsOk, UpsertedRoots, UpsertedRelations;
    assert IsBindingOf(v.log, rk, v.relations[rk]);
    var e := v.log[v.relations[rk].eventId];
    assert v0.mint <= v.relations[rk].eventId < v.mint && e in events;
    var i := DeletionIsLater(events, s.reRootIndex, e, j);
  }

  lemma SuccessorIsNew(plan: Plan, v0: View, s: RunState, v: View, rk: RelKey)
    requires RelationsSettled(plan, s, v0.mint, v) && Dropped(plan, v.relations, rk) && Bound(v.relations, rk)
    ensures v.relations[rk].eventId >= v0.mint
  {
    hide FirstRel, RelationCorpora, Resolvable, RelStable, Binds;
    assert !WantedRel(plan, rk) && !AbsentRel(plan, rk) ==> RelUntouched(plan.relations, v.relations, rk);
    if WantedRel(plan, rk) {
      assert RelDone(plan, s, v0.mint, plan.state.relations[FirstRel(plan.state.relations, rk)], v);
    }
  }

  // ---------------------------------------------------------------- what leaves the ledger's live rows

  /**
   * A live root is retired exactly when the dataset lists its corpus without its source and some row
   * of the ledger is the source's own product or metadata record; nothing else of the row changes.
   */
  lemma RetiredIff(plan: Plan, v0: View, s: RunState, v: View, k: RootKey)
    requires RunDone(plan, v0, s, v) && Live(plan.roots, k)
    ensures !Live(v.roots, k) <==>
            && k.corpus in plan.state.sourceIds && k.sourceId !in plan.state.sourceIds[k.corpus]
            && exists r :: r in plan.roots && r.corpus == k.corpus && r.sourceId == k.sourceId && r.role in ["product", "metadata"]
    ensures !Live(v.roots, k) ==> k in v.roots && v.roots[k] == plan.roots[k].(live := false)
  {
    RunTargets(plan, v0, s, v);
    GoneMeans(plan, k);
    hide RunDone, Gone, Wanted, ClassOf, KeyClass, ExpectedRow;
    assert Wanted(plan, k) && !Gone(plan, k) ==> Done(plan, v0.mint, k, v.roots);
    assert !Wanted(plan, k) && !Gone(plan, k) ==> Untouched(plan.roots, v.roots, k);
  }

  lemma GoneMeans(plan: Plan, k: RootKey)
    ensures Gone(plan, k) <==>
            && Live(plan.roots, k) && k.corpus in plan.state.sourceIds && k.sourceId !in plan.state.sourceIds[k.corpus]
            && exists r :: r in plan.roots && r.corpus == k.corpus && r.sourceId == k.sourceId && r.role in ["product", "metadata"]
  {
    forall r: RootKey ensures r.role in ["product", "metadata"] <==> r.role == "product" || r.role == "metadata" {}
    if r :| r in plan.roots && r.corpus == k.corpus && r.sourceId == k.sourceId && r.role in ["product", "metadata"] {
      assert IsRecord(r, k.corpus, k.sourceId);
    }
  }

  /**
   * A live relation is retracted exactly when its corpus is in scope, by a source list or a desired
   * relation, and no desired relation has its key; one that is desired stays, replaced or not.
   */
  lemma RetractedIff(plan: Plan, v0: View, s: RunState, v: View, rk: RelKey)
    requires RunDone(plan, v0, s, v) && Bound(plan.relations, rk)
    ensures !Bound(v.relations, rk) <==>
            && (rk.corpus in plan.state.sourceIds || exists r :: r in plan.state.relations && r.key.corpus == rk.corpus)
            && forall r :: r in plan.state.relations ==> r.key != rk
    ensures !Bound(v.relations, rk) ==> rk in v.relations && v.relations[rk] == plan.relations[rk].(live := false)
  {
    RunTargets(plan, v0, s, v);
    AbsentMeans(plan, rk);
    hide RunDone, AbsentRel, Resolvable, RelStable, Binds;
    assert !WantedRel(plan, rk) && !AbsentRel(plan, rk) ==> RelUntouched(plan.relations, v.relations, rk);
    if WantedRel(plan, rk) {
      assert RelDone(plan, s, v0.mint, plan.state.relations[FirstRel(plan.state.relations, rk)], v);
    }
  }

  lemma AbsentMeans(plan: Plan, rk: RelKey)
    ensures WantedRel(plan, rk) <==> exists r :: r in plan.state.relations && r.key == rk
    ensures AbsentRel(plan, rk) <==>
            && Bound(plan.relations, rk)
            && (rk.corpus in plan.state.sourceIds || exists r :: r in plan.state.relations && r.key.corpus == rk.corpus)
            && forall r :: r in plan.state.relations ==> r.key != rk
  {
  }

  // ---------------------------------------------------------------- bindings follow their endpoints

  /** Every live binding names its endpoints' current root events. */
  ghost predicate EndpointsCurrent(v: View) {
    forall rk :: Bound(v.relations, rk) ==> Current(v, v.relations[rk].eventId)
  }

  ghost predicate Current(v: View, id: Id) {
    && id in v.log && v.log[id].BindingEvent?
    && Live(v.roots, v.log[id].rootRef) && v.roots[v.log[id].rootRef].rootEventId == v.log[id].root
    && Live(v.roots, v.log[id].linkRef) && v.roots[v.log[id].linkRef].rootEventId == v.log[id].link
  }

  /** An unchanged fingerprint means unchanged endpoint keys. */
  ghost predicate FingerprintsCover(plan: Plan, v0: View) {
    forall rel :: rel in plan.state.relations && Bound(plan.relations, rel.key)
                  && plan.relations[rel.key].fingerprint == rel.fingerprint ==>
      var id := plan.relations[rel.key].eventId;
      id in v0.log && v0.log[id].BindingEvent? && v0.log[id].rootRef == rel.rootRef && v0.log[id].linkRef == rel.linkRef
  }

  /** The key has a root event once the roots of the run are in: desired or live in the ledger, and not retired by the run. */
  ghost predicate Resolves(plan: Plan, k: RootKey) {
    (Wanted(plan, k) || Live(plan.roots, k)) && !Gone(plan, k)
  }

  /** The run looks at every live relation, and every desired endpoint resolves. */
  ghost predicate FullRun(plan: Plan) {
    && (forall rk :: Bound(plan.relations, rk) ==> rk.corpus in RelationCorpora(plan.state))
    && forall rel :: rel in plan.state.relations ==> Resolves(plan, rel.rootRef) && Resolves(plan, rel.linkRef)
  }

  /** The endpoints that resolve in a run are known before it from the desired state and the ledger. */
  lemma ResolvableIff(plan: Plan, v0: View, s: RunState, v: View, rel: DesiredRelation)
    requires RunDone(plan, v0, s, v) && rel in plan.state.relations
    ensures Resolvable(s.rootIds, rel) <==> Resolves(plan, rel.rootRef) && Resolves(plan, rel.linkRef)
  {
    RunRows(plan, v0, s, v);
    RunTargets(plan, v0, s, v);
    InRootScope(plan.state, rel);
    hide RunDone, RelationsSettled, AllTargets, ReRootsAre, Inv, UpsertedRoots, UpsertedRelations, RootCorpora, Gone, Wanted;
    EndpointLive(plan, v0, v, rel.rootRef);
    EndpointLive(plan, v0, v, rel.linkRef);
  }

  lemma InRootScope(state: DesiredState, rel: DesiredRelation)
    requires rel in state.relations
    ensures rel.rootRef.corpus in RootCorpora(state) && rel.linkRef.corpus in RootCorpora(state)
  {
  }

  lemma EndpointLive(plan: Plan, v0: View, v: View, k: RootKey)
    requires RootsSettled(plan, v0, v.roots)
    ensures Live(v.roots, k) <==> Resolves(plan, k)
  {
    hide Gone, FirstAt, KeyClass, ClassOf;
    if Wanted(plan, k) && !Gone(plan, k) {
      assert Done(plan, v0.mint, k, v.roots);
    } else if !Gone(plan, k) {
      assert Untouched(plan.roots, v.roots, k);
    }
  }

  /** A root that was live and was not re-rooted is still the same root event. */
  lemma RootStays(plan: Plan, v0: View, s: RunState, v: View, k: RootKey)
    requires RootsSettled(plan, v0, v.roots) && ReRootsAre(plan, s)
    requires Live(plan.roots, k) && Live(v.roots, k) && k !in s.reRootIndex
    ensures v.roots[k].rootEventId == plan.roots[k].rootEventId
  {
    hide ClassOf, FirstAt;
    if Wanted(plan, k) && !Gone(plan, k) {
      assert Done(plan, v0.mint, k, v.roots);
    } else if !Gone(plan, k) {
      assert Untouched(plan.roots, v.roots, k);
    }
  }

  lemma StableBindingCurrent(plan: Plan, v0: View, s: RunState, v: View, rel: DesiredRelation)
    requires RunDone(plan, v0, s, v) && EndpointsCurrent(v0) && FingerprintsCover(plan, v0)
    requires rel in plan.state.relations && Resolvable(s.rootIds, rel) && RelStable(plan, s.reRootIndex, rel)
    ensures Current(v, plan.relations[rel.key].eventId)
  {
    RunRows(plan, v0, s, v);
    RunTargets(plan, v0, s, v);
    hide RunDone, RootsSettled, ReRootsAre, RelationsSettled, AllTargets, Inv, UpsertedRoots, UpsertedRelations, RootCorpora;
    assert Bound(v0.relations, rel.key) && Current(v0, plan.relations[rel.key].eventId);
    RootStays(plan, v0, s, v, rel.rootRef);
    RootStays(plan, v0, s, v, rel.linkRef);
  }

  lemma NewBindingCurrent(plan: Plan, s: RunState, v: View, rel: DesiredRelation, row: RelationRow)
    requires RootIdsOk(plan.state, s.rootIds, v.roots) && Binds(v.log, row, rel, s.rootIds)
    ensures Current(v, row.eventId)
  {
    hide RootCorpora;
  }

  lemma UnwantedUnbound(plan: Plan, v0: View, s: RunState, v: View, rk: RelKey)
    requires RelationsSettled(plan, s, v0.mint, v) && !WantedRel(plan, rk)
    requires Bound(plan.relations, rk) ==> rk.corpus in RelationCorpora(plan.state)
    ensures !Bound(v.relations, rk)
  {
    hide RelDone, FirstRel, RelationCorpora;
    if !AbsentRel(plan, rk) { assert RelUntouched(plan.relations, v.relations, rk); }
  }

  /** After a full run every live binding names the current roots, if every one did before. */
  lemma EndpointsFollow(plan: Plan, v0: View, s: RunState, v: View)
    requires RunDone(plan, v0, s, v) && EndpointsCurrent(v0) && FingerprintsCover(plan, v0) && FullRun(plan)
    ensures EndpointsCurrent(v)
  {
    RunRows(plan, v0, s, v);
    RunTargets(plan, v0, s, v);
    forall rk | Bound(v.relations, rk) ensures Current(v, v.relations[rk].eventId) {
      hide Resolves, RunDone, RootsSettled, ReRootsAre, AllTargets, Inv, UpsertedRoots, UpsertedRelations, RootCorpora, Current,
           RelationCorpora, RelStable, Binds, FirstRel, RootIdsOk;
      if WantedRel(plan, rk) {
        var rel := plan.state.relations[FirstRel(plan.state.relations, rk)];
        assert rel in plan.state.relations && RelDone(plan, s, v0.mint, rel, v);
        ResolvableIff(plan, v0, s, v, rel);
        if RelStable(plan, s.reRootIndex, rel) {
          StableBindingCurrent(plan, v0, s, v, rel);
        } else {
          NewBindingCurrent(plan, s, v, rel, v.relations[rk]);
        }
      } else {
        UnwantedUnbound(plan, v0, s, v, rk);
      }
    }
  }
}
