/**
 * The two ways in which a cached answer does go stale, each on a run of the store: a reply lineage
 * that crosses into another root's patches, and a queried id that turns out not to be a root.
 */
module StaleReads {
  import opened Prelude
  import opened Ordering
  import opened Events
  import opened Validate
  import opened StoreTables
  import opened StoreReducer
  import opened StoreLaws
  import opened PatchTypes
  import opened ResolveSpec
  import opened Locality
  import opened Store
  import A = AdmitModel
  import AL = AdmitLaws
  import L = Lineage

  // ---------------------------------------------------------------- one step, from its exact relation

  /** After an observe, the visible events are those observed and not rejected. */
  lemma ObservedAfter(s: StoreState, model: A.Model, events: seq<Event>, next: StoreState, badPayload: PayloadCheck)
    requires StoreStep(s, model, A.Observe(events), next, badPayload)
    ensures next.Obs() == A.AfterObserve(s.Obs(), events) && Keyed(next.Obs()) && Keyed(Visible(next))
  {
    ObsOf(s.admit, model);
    ObsOf(next.admit, A.Step(model, A.Observe(events)));
    KeyedOf(A.Step(model, A.Observe(events)));
  }

  /** If the validity layer rejects nothing of a settled store, everything observed is visible. */
  lemma NothingRejected(s: StoreState, badPayload: PayloadCheck)
    requires VerdictsSettled(s, badPayload) && Keyed(s.Obs())
    requires forall id :: !Rejected(id, s.Obs(), badPayload)
    ensures Visible(s) == s.Obs()
  {
    VerdictsSettledMeans(s, badPayload);
    hide Rejected, VerdictsSettled, ValidateEvent;
    forall id ensures id in Visible(s) <==> id in s.Obs() { assert !Rejected(id, s.Obs(), badPayload); }
    SameMaps(Visible(s), s.Obs());
  }

  lemma EmptyIsSettled(badPayload: PayloadCheck)
    ensures VerdictsSettled(EMPTY_STORE_STATE, badPayload)
  {
  }

  // ---------------------------------------------------------------- a crossing lineage

  /** Two products of one author; the patch of the first replies to a patch of the second, which replies to id 99. */
  const FIRST := Event(1, 10, 0, 1, [FabricLabel, VersionLabel, TypeLabel(Product)], [], [], "")
  const SECOND := Event(2, 10, 0, 1, [FabricLabel, VersionLabel, TypeLabel(Product)], [], [], "")
  const CROSSING := Event(3, 10, 0, 1, [FabricLabel, VersionLabel, TypeLabel(Patch)], [ERef(1, RootMark), ERef(4, ReplyMark)], [], "")
  const WAITING := Event(4, 10, 0, 1, [FabricLabel, VersionLabel, TypeLabel(Patch)], [ERef(2, RootMark), ERef(99, ReplyMark)], [], "")
  const ARRIVAL := Event(99, 77, 0, 1, [], [], [], "")

  const BATCH := [FIRST, SECOND, CROSSING, WAITING]
  const BEFORE: Observed := map[1 := FIRST, 2 := SECOND, 3 := CROSSING, 4 := WAITING]
  const AFTER: Observed := BEFORE[99 := ARRIVAL]

  lemma Types()
    ensures TypeOf(FIRST) == Some(Product) && TypeOf(SECOND) == Some(Product) && TypeOf(ARRIVAL) == None
    ensures TypeOf(CROSSING) == Some(Patch) && RootTarget(CROSSING) == Some(1) && ReplyTarget(CROSSING) == Some(4)
    ensures TypeOf(WAITING) == Some(Patch) && RootTarget(WAITING) == Some(2) && ReplyTarget(WAITING) == Some(99)
  {
    assert TypesIn(FIRST.labels) == [Product] && TypesIn(CROSSING.labels) == [Patch];
    assert WithMarker(CROSSING.refs, RootMark) == [ERef(1, RootMark)] && WithMarker(CROSSING.refs, ReplyMark) == [ERef(4, ReplyMark)];
    assert WithMarker(WAITING.refs, RootMark) == [ERef(2, RootMark)] && WithMarker(WAITING.refs, ReplyMark) == [ERef(99, ReplyMark)];
  }

  lemma ProductAccepted(e: Event, obs: Observed, badPayload: PayloadCheck)
    requires TypeOf(e) == Some(Product) && TagsOk(e) && IsScrutiny(e) && e.indexers == []
    ensures ValidateEvent(e, obs, badPayload) == Valid(Product)
  {
    hide TypeOf, TagsOk, IsScrutiny, IndexerOk;
  }

  lemma OwnPatchAccepted(e: Event, obs: Observed, badPayload: PayloadCheck, root: ERef, reply: ERef)
    requires TypeOf(e) == Some(Patch) && TagsOk(e) && IsScrutiny(e) && !badPayload(e.content)
    requires WithMarker(e.refs, RootMark) == [root] && WithMarker(e.refs, ReplyMark) == [reply]
    requires root.id in obs && IsRoot(obs[root.id]) && obs[root.id].pubkey == e.pubkey
    ensures ValidateEvent(e, obs, badPayload) == Valid(Patch)
  {
    hide TypeOf, TagsOk, IsScrutiny, WithMarker, IsRoot;
  }

  lemma Tags()
    ensures forall e :: e in {FIRST, SECOND, CROSSING, WAITING} ==> TagsOk(e) && IsScrutiny(e)
    ensures !IsScrutiny(ARRIVAL)
    ensures WithMarker(CROSSING.refs, RootMark) == [ERef(1, RootMark)] && WithMarker(CROSSING.refs, ReplyMark) == [ERef(4, ReplyMark)]
    ensures WithMarker(WAITING.refs, RootMark) == [ERef(2, RootMark)] && WithMarker(WAITING.refs, ReplyMark) == [ERef(99, ReplyMark)]
  {
    assert FIRST.labels[0] == FabricLabel && CROSSING.labels[0] == FabricLabel;
    assert TagsOk(FIRST) && TagsOk(CROSSING);
    assert FabricLabel !in ARRIVAL.labels;
  }

  /** All five are valid, or not of this protocol at all. */
  lemma AllAccepted(obs: Observed, badPayload: PayloadCheck, id: Id)
    requires (obs == BEFORE || obs == AFTER) && !badPayload("") && id in obs
    ensures !ValidateEvent(obs[id], obs, badPayload).Invalid? && !ValidateEvent(obs[id], obs, badPayload).Pending?
  {
    Types();
    Tags();
    hide TypeOf, TagsOk, WithMarker, RootTarget, ReplyTarget;
    assert IsRoot(obs[1]) && IsRoot(obs[2]);
    if id == 1 || id == 2 {
      ProductAccepted(obs[id], obs, badPayload);
    } else if id == 3 {
      OwnPatchAccepted(CROSSING, obs, badPayload, ERef(1, RootMark), ERef(4, ReplyMark));
    } else if id == 4 {
      OwnPatchAccepted(WAITING, obs, badPayload, ERef(2, RootMark), ERef(99, ReplyMark));
    } else {
      assert ValidateEvent(ARRIVAL, obs, badPayload) == NotScrutiny;
    }
  }

  lemma ObservedBatch()
    ensures A.AfterObserve(map[], BATCH) == BEFORE && A.AfterObserve(BEFORE, [ARRIVAL]) == AFTER
  {
    assert BATCH[..3] == [FIRST, SECOND, CROSSING] && BATCH[..3][..2] == [FIRST, SECOND] && [FIRST, SECOND][..1] == [FIRST];
    assert [FIRST][..0] == [] && [ARRIVAL][..0] == [];
    assert A.AfterObserve(map[], [FIRST]) == map[1 := FIRST];
    assert A.AfterObserve(map[], [FIRST, SECOND]) == map[1 := FIRST, 2 := SECOND];
    assert A.AfterObserve(map[], BATCH[..3]) == map[1 := FIRST, 2 := SECOND, 3 := CROSSING];
  }

  /** Nothing of these events is rejected, so all of them are visible. */
  lemma AllVisible(s: StoreState, model: A.Model, events: seq<Event>, next: StoreState, badPayload: PayloadCheck)
    requires StoreStep(s, model, A.Observe(events), next, badPayload) && VerdictsSettled(s, badPayload) && !badPayload("")
    requires A.AfterObserve(s.Obs(), events) == BEFORE || A.AfterObserve(s.Obs(), events) == AFTER
    ensures next.Obs() == A.AfterObserve(s.Obs(), events) && Visible(next) == next.Obs()
    ensures VerdictsSettled(next, badPayload)
  {
    ObservedAfter(s, model, events, next, badPayload);
    StepSettlesVerdicts(s, model, A.Observe(events), next, badPayload);
    hide StoreStep, VerdictsSettled, ValidateEvent;
    forall id ensures !Rejected(id, next.Obs(), badPayload) { if id in next.Obs() { AllAccepted(next.Obs(), badPayload, id); } }
    NothingRejected(next, badPayload);
  }

  lemma NobodyHeld(badPayload: PayloadCheck)
    requires !badPayload("")
    ensures forall x, a :: !Awaits(x, BEFORE, badPayload, a)
  {
    forall x, a ensures !Awaits(x, BEFORE, badPayload, a) { if x in BEFORE { AllAccepted(BEFORE, badPayload, x); } }
  }

  lemma PatchesOfFirst(x: Id)
    requires x in BEFORE && PatchOfRoot(BEFORE[x], 1)
    ensures ReplyTarget(BEFORE[x]) == Some(4)
  {
    Types();
    assert x in {1, 2, 3, 4};
  }

  /** After the batch nothing waits for id 99, neither a verdict nor an overlay of the first product. */
  lemma NothingWaits(s: StoreState, badPayload: PayloadCheck)
    requires Folded(map[], BEFORE, badPayload, EMPTY_STORE_STATE.tables, s.tables, BEFORE.Keys) && !badPayload("")
    ensures forall x :: !Waits(s.tables.pending, 99, x)
    ensures !Waits(s.tables.overlay, 99, 1)
  {
    hide ValidateEvent, TypeOf, RootTarget, ReplyTarget, Awaits, Indexed, Touches, Moves, Stirred, Bumped, NotBefore, PatchOfRoot;
    NobodyHeld(badPayload);
    assert IndexesExact(BEFORE, EMPTY_STORE_STATE.tables, s.tables, BEFORE.Keys);
    if Waits(s.tables.overlay, 99, 1) {
      var x :| x in BEFORE && PatchOfRoot(BEFORE[x], 1) && ReplyTarget(BEFORE[x]) == Some(99);
      PatchesOfFirst(x);
    }
  }

  lemma AfterBatch(s: StoreState, badPayload: PayloadCheck)
    requires StoreStep(EMPTY_STORE_STATE, A.EMPTY_MODEL, A.Observe(BATCH), s, badPayload) && !badPayload("")
    ensures s.Obs() == BEFORE && Visible(s) == BEFORE && VerdictsSettled(s, badPayload)
    ensures forall x :: !Waits(s.tables.pending, 99, x)
    ensures !Waits(s.tables.overlay, 99, 1)
  {
    ObservedBatch();
    EmptyIsSettled(badPayload);
    AllVisible(EMPTY_STORE_STATE, A.EMPTY_MODEL, BATCH, s, badPayload);
    hide Folded, VerdictsSettled, Held, A.Represents, Indexed, VisibleOf;
    assert s.Obs().Keys - EMPTY_STORE_STATE.Obs().Keys == BEFORE.Keys;
    NothingWaits(s, badPayload);
  }

  /** The arrival stirs nothing else and the first product is not its target. */
  lemma EpochStands(s: StoreState, next: StoreState, badPayload: PayloadCheck)
    requires Folded(BEFORE, AFTER, badPayload, s.tables, next.tables, {99})
    requires forall x :: !Waits(s.tables.pending, 99, x)
    requires !Waits(s.tables.overlay, 99, 1)
    ensures EpochOf(next.tables.epoch, 1) == EpochOf(s.tables.epoch, 1)
  {
    Types();
    hide TypeOf, RootTarget, ReplyTarget, Awaits, Indexed, Touches, IsTarget, Rejected, Waits;
    if Bumped(s.tables.epoch, next.tables.epoch, 1) {
      var id :| id in AFTER && Stirred(s.tables, {99}, id) && MayMove(AFTER[id], s.tables, next.tables, 1);
      assert id == 99;
      NotATarget(s.tables.membership, next.tables.overlay);
      NotATarget(next.tables.membership, next.tables.overlay);
    }
  }

  lemma NotATarget(membership: map<Id, Id>, overlay: map<Id, set<Id>>)
    requires !Waits(overlay, 99, 1)
    ensures !IsTarget(ARRIVAL, membership, overlay, 1)
  {
    Types();
  }

  lemma AfterArrival(s: StoreState, model: A.Model, next: StoreState, badPayload: PayloadCheck)
    requires StoreStep(s, model, A.Observe([ARRIVAL]), next, badPayload) && !badPayload("")
    requires s.Obs() == BEFORE && VerdictsSettled(s, badPayload)
    requires forall x :: !Waits(s.tables.pending, 99, x)
    requires !Waits(s.tables.overlay, 99, 1)
    ensures next.Obs() == AFTER && Visible(next) == AFTER
    ensures EpochOf(next.tables.epoch, 1) == EpochOf(s.tables.epoch, 1)
  {
    ObservedBatch();
    AllVisible(s, model, [ARRIVAL], next, badPayload);
    hide Folded, VerdictsSettled, Held, A.Represents, Indexed, VisibleOf, EpochOf;
    assert AFTER.Keys - BEFORE.Keys == {99};
    EpochStands(s, next, badPayload);
  }

  // ---------------------------------------------------------------- what the resolutions are

  lemma OnlyCrossing(obs: Observed)
    requires obs == BEFORE || obs == AFTER
    ensures Patchable(obs, 1) && Line(obs, 1) == {CROSSING} && PatchesOf(obs, 1) == {CROSSING}
  {
    Types();
    OnlyPatch(obs);
    assert !Deleted(obs, 3);
    hide PatchesOf, Deleted, TypeOf;
    forall p ensures p in Line(obs, 1) <==> p == CROSSING {}
    SameElements(Line(obs, 1), {CROSSING});
  }

  lemma OnlyPatch(obs: Observed)
    requires obs == BEFORE || obs == AFTER
    ensures PatchesOf(obs, 1) == {CROSSING}
  {
    Types();
    hide TypeOf, RootTarget;
    forall p ensures p in PatchesOf(obs, 1) <==> p == CROSSING { PatchMember(obs, 1, p); }
    SameElements(PatchesOf(obs, 1), {CROSSING});
  }

  /** The crossing patch is held before the arrival, through the other product's patch, and ignored after it. */
  lemma CrossingClasses()
    ensures L.ClassOf(BEFORE, 1, 10, CROSSING) == L.Held
    ensures L.ClassOf(AFTER, 1, 10, CROSSING) == L.Ignored
  {
    Types();
    hide ReplyTarget, L.ClassOf;
    L.ClassStep(BEFORE, 1, 10, CROSSING);
    L.ClassStep(BEFORE, 1, 10, WAITING);
    L.ClassStep(AFTER, 1, 10, CROSSING);
    L.ClassStep(AFTER, 1, 10, WAITING);
  }

  lemma HeldSets()
    ensures Patchable(BEFORE, 1) && Patchable(AFTER, 1)
    ensures HeldPatches(BEFORE, 1) == {CROSSING} && HeldPatches(AFTER, 1) == {}
  {
    OnlyCrossing(BEFORE);
    OnlyCrossing(AFTER);
    CrossingClasses();
    hide L.ClassOf, Line, IsRoot;
  }

  lemma NotClosed()
    ensures Keyed(BEFORE) && Keyed(AFTER) && !LineageClosed(BEFORE, 1)
  {
    OnlyPatch(BEFORE);
    Types();
    hide PatchesOf, ReplyTarget;
  }

  lemma PendingLists(apply: Applier)
    ensures Keyed(BEFORE) && Keyed(AFTER)
    ensures ResolveOf(apply, BEFORE, 1).pending == [3] && ResolveOf(apply, AFTER, 1).pending == []
  {
    HeldSets();
    NotClosed();
    hide HeldPatches, ChainOf, OverlaySet, AnnotationSet, LineageClosed, IsRoot, Line, PatchesOf;
    assert IdsOf({CROSSING}) == {3} && IdsOf({}) == {};
    assert Elems([3]) == {3} && Elems<Id>([]) == {};
    ListsUnique(ResolveOf(apply, BEFORE, 1).pending, [3], {3}, IdKey);
    ListsUnique(ResolveOf(apply, AFTER, 1).pending, [], {}, IdKey);
  }

  /** On this run the first product's epoch stands while its pending list goes from one patch to none. */
  lemma CrossingLineageGoesStale(apply: Applier, states: seq<StoreState>, badPayload: PayloadCheck)
    requires StoreRun(states, [A.Observe(BATCH), A.Observe([ARRIVAL])], badPayload) && !badPayload("")
    ensures EpochOf(states[1].tables.epoch, 1) == EpochOf(states[2].tables.epoch, 1)
    ensures Visible(states[1]) == BEFORE && Visible(states[2]) == AFTER && Keyed(BEFORE) && Keyed(AFTER) && !LineageClosed(BEFORE, 1)
    ensures ResolveOf(apply, Visible(states[1]), 1).pending == [3] && ResolveOf(apply, Visible(states[2]), 1).pending == []
  {
    var deltas := [A.Observe(BATCH), A.Observe([ARRIVAL])];
    assert StepAt(states, deltas, badPayload, 0) && StepAt(states, deltas, badPayload, 1);
    assert deltas[..0] == [];
    hide StoreStep, VerdictsSettled, EpochOf, VisibleOf, ResolveOf;
    AfterBatch(states[1], badPayload);
    AfterArrival(states[1], AL.Run(A.EMPTY_MODEL, deltas[..1]), states[2], badPayload);
    PendingLists(apply);
    NotClosed();
  }

  /** The same through the memo: the second read serves the first one's pending list, which is no longer right. */
  method ReadAcrossArrival(applierFor: ApplyOptions -> Applier, badPayload: PayloadCheck, verify: Event -> bool, defaults: ApplyOptions)
    returns (first: Resolution, second: Resolution, store: MemoStore)
    requires !badPayload("")
    ensures store.Valid() && Keyed(Visible(store.state)) && Visible(store.state) == AFTER
    ensures first.pending == [3] && second.pending == [3]
    ensures ResolveOf(applierFor(defaults), Visible(store.state), 1).pending == []
  {
    hide StoreStep, VerdictsSettled, VisibleOf, ResolveOf, EntryOk, StoreInv, A.DeltaFits;
    store := new MemoStore(applierFor, badPayload, verify, defaults);
    BatchDeltaFits();
    store.Fold(A.Observe(BATCH));
    AfterBatch(store.state, badPayload);
    first := store.ResolveRoot(1, None);
    PendingLists(applierFor(defaults));
    label Read:
    store.Fold(A.Observe([ARRIVAL]));
    AfterArrival(old@Read(store.state), old@Read(store.model), store.state, badPayload);
    second := store.ResolveRoot(1, None);
  }

  lemma BatchDeltaFits()
    ensures A.DeltaFits(A.Observe(BATCH)) && A.DeltaFits(A.Observe([ARRIVAL]))
  {
    Types();
  }

  // ---------------------------------------------------------------- an id that is no root

  /** An event of no type, under an id that was asked for before it arrived. */
  const LATE := Event(5, 77, 0, 1, [], [], [], "")

  lemma LateIsNoTarget(membership: map<Id, Id>, overlay: map<Id, set<Id>>)
    requires !Waits(overlay, 5, 5)
    ensures !IsTarget(LATE, membership, overlay, 5)
  {
    assert TypeOf(LATE) == None;
  }

  lemma AfterLate(s: StoreState, badPayload: PayloadCheck)
    requires StoreStep(EMPTY_STORE_STATE, A.EMPTY_MODEL, A.Observe([LATE]), s, badPayload)
    ensures Visible(s) == map[5 := LATE] && EpochOf(s.tables.epoch, 5) == 0
  {
    ObservedAfter(EMPTY_STORE_STATE, A.EMPTY_MODEL, [LATE], s, badPayload);
    var obs: Observed := map[5 := LATE];
    assert [LATE][..0] == [];
    assert s.Obs() == obs;
    assert FabricLabel !in LATE.labels;
    assert s.Obs().Keys - EMPTY_STORE_STATE.Obs().Keys == {5};
    LateTables(s, badPayload);
    SameMaps(Visible(s), obs);
  }

  lemma LateTables(s: StoreState, badPayload: PayloadCheck)
    requires Folded(map[], map[5 := LATE], badPayload, EMPTY_STORE_STATE.tables, s.tables, {5})
    ensures EpochOf(s.tables.epoch, 5) == 0 && 5 !in s.tables.invalid
  {
    assert TypeOf(LATE) == None && FabricLabel !in LATE.labels;
    assert !Rejected(5, map[5 := LATE], badPayload);
    hide TypeOf, RootTarget, ReplyTarget, Awaits, Indexed, Touches, IsTarget, Rejected;
    if Bumped(map[], s.tables.epoch, 5) {
      var obs: Observed := map[5 := LATE];
      var id :| id in obs && Stirred(EMPTY_STORE_STATE.tables, {5}, id) && MayMove(obs[id], EMPTY_STORE_STATE.tables, s.tables, 5);
      LateIsNoTarget(map[], s.tables.overlay);
      LateIsNoTarget(s.tables.membership, s.tables.overlay);
    }
  }

  /** On this run the id's epoch stands while its chain goes from "not observed" to "not a root". */
  lemma LateTypeGoesStale(apply: Applier, states: seq<StoreState>, badPayload: PayloadCheck)
    requires StoreRun(states, [A.Observe([LATE])], badPayload)
    ensures EpochOf(states[0].tables.epoch, 5) == EpochOf(states[1].tables.epoch, 5)
    ensures Keyed(Visible(states[0])) && ResolveOf(apply, Visible(states[0]), 5).chain == Absent(RootUnobserved)
    ensures Keyed(Visible(states[1])) && ResolveOf(apply, Visible(states[1]), 5).chain == Absent(RootNotPatchable)
  {
    var deltas := [A.Observe([LATE])];
    assert StepAt(states, deltas, badPayload, 0) && deltas[..0] == [];
    AfterLate(states[1], badPayload);
    assert TypeOf(LATE) == None;
  }

  /** The same through the memo: the second read still says that the id is not observed. */
  method ReadAcrossLateType(applierFor: ApplyOptions -> Applier, badPayload: PayloadCheck, verify: Event -> bool, defaults: ApplyOptions)
    returns (first: Resolution, second: Resolution, store: MemoStore)
    ensures store.Valid() && Keyed(Visible(store.state)) && 5 in Visible(store.state)
    ensures first.chain == Absent(RootUnobserved) && second.chain == Absent(RootUnobserved)
    ensures ResolveOf(applierFor(defaults), Visible(store.state), 5).chain == Absent(RootNotPatchable)
  {
    hide StoreStep, EntryOk, StoreInv;
    store := new MemoStore(applierFor, badPayload, verify, defaults);
    assert TypeOf(LATE) == None;
    first := store.ResolveRoot(5, None);
    store.Fold(A.Observe([LATE]));
    AfterLate(store.state, badPayload);
    second := store.ResolveRoot(5, None);
  }
}
