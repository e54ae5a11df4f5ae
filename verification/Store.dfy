/**
 * The store: the reducer's state with a resolution memo beside it. Its invariant says what every
 * cached resolution is worth, over every interleaving of deltas and reads.
 */
module Store {
  import opened Prelude
  import opened Events
  import opened Validate
  import opened StoreTables
  import opened StoreReducer
  import opened PatchTypes
  import opened ResolveSpec
  import opened Locality
  import opened MemoLaws
  import A = AdmitModel
  import AL = AdmitLaws
  import Resolve

  /** Application ceilings; they are part of the memo's key. */
  datatype ApplyOptions = ApplyOptions(maxHunks: Option<nat>, maxWork: Option<nat>)

  datatype MemoEntry = MemoEntry(epoch: nat, options: ApplyOptions, resolution: Resolution)

  datatype EventsCache = EventsCache(observedEpoch: nat, events: seq<Event>)

  /** `root` was never observed as anything but a Product or Metadata. */
  ghost predicate AlwaysRoot(ever: set<Event>, root: Id) {
    forall e :: e in ever && e.id == root ==> IsRoot(e)
  }

  /** `res` is the fresh answer, `pending` included when lineages stay inside the root's patches. */
  ghost predicate Fresh(apply: Applier, obs: Observed, root: Id, res: Resolution) {
    && Keyed(obs)
    && SameView(res, ResolveOf(apply, obs, root))
    && (LineageClosed(obs, root) ==> res == ResolveOf(apply, obs, root))
  }

  /** Nothing an answer hides: `rootId` counts as unobserved in it exactly when it is not visible now. */
  ghost predicate KnowsPresence(res: Resolution, obs: Observed, root: Id) {
    res.chain == Absent(RootUnobserved) <==> root !in obs
  }

  /**
   * A cached entry whose epoch still stands holds the answer for `was`, the events it was computed
   * from, and they agree with the visible ones on all but the presence of an id that is no root.
   */
  ghost predicate EntryOk(applierFor: ApplyOptions -> Applier, s: StoreState, ever: set<Event>, root: Id, entry: MemoEntry, was: Observed) {
    && entry.epoch <= EpochOf(s.tables.epoch, root)
    && (root in was ==> was[root] in ever)
    && Keyed(was) && entry.resolution == ResolveOf(applierFor(entry.options), was, root)
    && (entry.epoch == EpochOf(s.tables.epoch, root) ==> SameButRoot(was, Visible(s), root))
  }

  /** What a cached answer is worth: its view is fresh if and only if it has the root's presence right. */
  lemma EntryWorth(applierFor: ApplyOptions -> Applier, s: StoreState, ever: set<Event>, root: Id, entry: MemoEntry, was: Observed)
    requires EntryOk(applierFor, s, ever, root, entry, was) && Keyed(Visible(s))
    requires entry.epoch == EpochOf(s.tables.epoch, root)
    ensures var apply, now := applierFor(entry.options), Visible(s);
            && (SameView(entry.resolution, ResolveOf(apply, now, root)) <==> KnowsPresence(entry.resolution, now, root))
            && (KnowsPresence(entry.resolution, now, root) ==> Fresh(apply, now, root, entry.resolution))
    ensures AlwaysRoot(ever, root) && (forall id :: id in s.Obs() ==> s.Obs()[id] in ever) ==>
              KnowsPresence(entry.resolution, Visible(s), root)
  {
    var apply, now := applierFor(entry.options), Visible(s);
    ViewAgreesIff(apply, was, now, root);
    if SameFor(was, now, root) { PendingIsLocal(apply, was, now, root); }
    hide SamePatches, ResolveOf, LineageClosed, IsRoot, Keyed;
    if AlwaysRoot(ever, root) && forall id :: id in s.Obs() ==> s.Obs()[id] in ever {
      assert root in now ==> now[root] == s.Obs()[root] && now[root].id == root by { KeyedAt(now, root); }
      assert root in was ==> was[root].id == root by { KeyedAt(was, root); }
      RootTypedStays(was, now, root);
    }
  }

  lemma KeyedAt(obs: Observed, id: Id)
    requires Keyed(obs)
    ensures id in obs ==> obs[id].id == id
  {
  }

  ghost predicate CacheOk(s: StoreState, cache: EventsCache) {
    && cache.observedEpoch <= s.observedEpoch
    && (cache.observedEpoch == s.observedEpoch ==> ById(cache.events) == Visible(s))
  }

  /** A delta either moves the entry's epoch past it or leaves what it answers for as it was. */
  lemma EntrySurvives(applierFor: ApplyOptions -> Applier, s: StoreState, model: A.Model, delta: A.AdmissionDelta, next: StoreState,
                      badPayload: PayloadCheck, ever: set<Event>, later: set<Event>, root: Id, entry: MemoEntry, was: Observed)
    requires StoreStep(s, model, delta, next, badPayload)
    requires EntryOk(applierFor, s, ever, root, entry, was) && ever <= later
    ensures EntryOk(applierFor, next, later, root, entry, was)
  {
    EpochsNeverGoBack(s, model, delta, next, badPayload);
    assert EpochOf(s.tables.epoch, root) <= EpochOf(next.tables.epoch, root);
    if entry.epoch == EpochOf(next.tables.epoch, root) {
      UnbumpedDelta(s, model, delta, next, root, badPayload);
      hide StoreStep, SamePatches, ResolveOf, VisibleOf, Keyed;
      SameButRootTransitive(was, Visible(s), Visible(next), root);
    }
  }

  lemma CacheSurvives(s: StoreState, model: A.Model, delta: A.AdmissionDelta, next: StoreState, badPayload: PayloadCheck, cache: EventsCache)
    requires StoreStep(s, model, delta, next, badPayload) && CacheOk(s, cache)
    ensures CacheOk(next, cache)
  {
    EpochsNeverGoBack(s, model, delta, next, badPayload);
    hide StoreStep;
  }

  lemma EverGrows(s: StoreState, model: A.Model, delta: A.AdmissionDelta, next: StoreState, badPayload: PayloadCheck, ever: set<Event>)
    requires StoreStep(s, model, delta, next, badPayload)
    requires forall id :: id in s.Obs() ==> s.Obs()[id] in ever
    ensures forall id :: id in next.Obs() ==> next.Obs()[id] in ever + (if delta.Observe? then Elems(delta.events) else {})
  {
    VisibleFits(s, model);
    ObsOf(s.admit, model);
    ObsOf(next.admit, A.Step(model, delta));
    if delta.Observe? { A.AfterObserveKeeps(model.obs, delta.events); }
    hide StoreStep, A.StrandedBy;
  }

  class MemoStore {
    const applierFor: ApplyOptions -> Applier
    const badPayload: PayloadCheck
    const verify: Event -> bool
    const defaults: ApplyOptions
    var state: StoreState
    var entries: map<Id, MemoEntry>
    var eventsCache: Option<EventsCache>
    ghost var model: A.Model
    ghost var ever: set<Event>
    /** For every cached root, the events its entry was computed from. */
    ghost var readAt: map<Id, Observed>

    ghost predicate Valid()
      reads this
    {
      && StoreInv(state, model)
      && (forall id :: id in state.Obs() ==> state.Obs()[id] in ever)
      && (forall root :: root in entries ==> root in readAt && EntryOk(applierFor, state, ever, root, entries[root], readAt[root]))
      && (eventsCache.Some? ==> CacheOk(state, eventsCache.value))
    }

    constructor (applierFor: ApplyOptions -> Applier, badPayload: PayloadCheck, verify: Event -> bool, defaults: ApplyOptions)
      ensures Valid() && state == EMPTY_STORE_STATE && model == A.EMPTY_MODEL && ever == {} && entries == map[]
      ensures this.applierFor == applierFor && this.badPayload == badPayload
      ensures this.verify == verify && this.defaults == defaults
    {
      this.applierFor, this.badPayload, this.verify, this.defaults := applierFor, badPayload, verify, defaults;
      state, entries, eventsCache := EMPTY_STORE_STATE, map[], None;
      model, ever, readAt := A.EMPTY_MODEL, {}, map[];
      new;
      A.EmptyRepresents();
    }

    /** Folds one delta into the state; the memo is left alone and stays sound. */
    method Fold(delta: A.AdmissionDelta)
      requires Valid() && A.DeltaFits(delta)
      modifies this`state, this`model, this`ever
      ensures Valid()
      ensures StoreStep(old(state), old(model), delta, state, badPayload) && model == A.Step(old(model), delta)
      ensures ever == old(ever) + if delta.Observe? then Elems(delta.events) else {}
    {
      hide StoreStep, StoreInv, EntryOk, CacheOk;
      var next := ApplyStoreDelta(state, delta, badPayload, model);
      ghost var later := ever + if delta.Observe? then Elems(delta.events) else {};
      EverGrows(state, model, delta, next, badPayload, ever);
      forall root | root in entries ensures EntryOk(applierFor, next, later, root, entries[root], readAt[root]) {
        EntrySurvives(applierFor, state, model, delta, next, badPayload, ever, later, root, entries[root], readAt[root]);
      }
      if eventsCache.Some? { CacheSurvives(state, model, delta, next, badPayload, eventsCache.value); }
      StepInv(state, model, delta, next, badPayload);
      state, model, ever := next, A.Step(model, delta), later;
    }

    /** Admits the events that pass verification (or all of them, when the caller vouches for the batch). */
    method Add(events: seq<Event>, bypass: bool) returns (accepted: seq<Event>, rejected: set<Id>, pending: set<Id>)
      requires Valid() && forall e :: e in events ==> KindFitsType(e)
      modifies this`state, this`model, this`ever
      ensures Valid()
      ensures accepted == Passing(events, verify, bypass)
      ensures if accepted == [] then state == old(state)
              else StoreStep(old(state), old(model), A.Observe(accepted), state, badPayload)
      ensures forall id :: id in rejected <==>
                || (exists e :: e in events && e.id == id && !bypass && !verify(e))
                || (exists e :: e in accepted && e.id == id && ValidateEvent(e, state.Obs(), badPayload).Invalid?)
      ensures forall id :: id in pending <==> exists e :: e in accepted && e.id == id && ValidateEvent(e, state.Obs(), badPayload).Pending?
    {
      accepted := [];
      var unverified: set<Id> := {};
      for i := 0 to |events|
        invariant accepted == Passing(events[..i], verify, bypass)
        invariant forall e :: e in accepted ==> e in events
        invariant forall id :: id in unverified <==> exists e :: e in events[..i] && e.id == id && !bypass && !verify(e)
      {
        assert events[..i + 1] == events[..i] + [events[i]];
        assert events[..i + 1][..i] == events[..i];
        if bypass || verify(events[i]) {
          accepted := accepted + [events[i]];
        } else {
          unverified := unverified + {events[i].id};
        }
      }
      assert events[..|events|] == events;
      if |accepted| == 0 { return accepted, unverified, {}; }
      hide StoreStep, StoreInv, EntryOk, CacheOk, ValidateEvent;
      Fold(A.Observe(accepted));
      rejected := unverified + set e | e in accepted && ValidateEvent(e, state.Obs(), badPayload).Invalid? :: e.id;
      pending := set e | e in accepted && ValidateEvent(e, state.Obs(), badPayload).Pending? :: e.id;
    }

    /** The visible events as an array, in some order. */
    method Materialise() returns (events: seq<Event>)
      requires Keyed(state.Obs())
      ensures ById(events) == Visible(state)
    {
      var visible := Visible(state);
      events := [];
      var todo: set<Id> := visible.Keys;
      while todo != {}
        invariant todo <= visible.Keys
        invariant forall id :: id in ById(events) <==> id in visible && id !in todo
        invariant forall id :: id in ById(events) ==> ById(events)[id] == visible[id]
        decreases |todo|
      {
        var id := Pick(todo);
        todo := todo - {id};
        var event := visible[id];
        assert (events + [event])[..|events|] == events;
        events := events + [event];
      }
      forall id ensures id in ById(events) <==> id in visible {}
      forall id | id in ById(events) ensures ById(events)[id] == visible[id] {}
      SameMaps(ById(events), visible);
    }

    function Effective(options: Option<ApplyOptions>): ApplyOptions {
      if options.Some? then options.value else defaults
    }

    /** The entry a read of `rootId` is served from: its epoch stands and its options are these. */
    predicate Serves(rootId: Id, options: ApplyOptions)
      reads this
    {
      rootId in entries && entries[rootId].epoch == EpochOf(state.tables.epoch, rootId) && entries[rootId].options == options
    }

    /**
     * Reads a root through the memo: a cached answer is served while its epoch stands. Its chain,
     * overlays and annotations are fresh if and only if it has the root's presence right, which it
     * always has for an id that was never observed as anything but a root.
     */
    method ResolveRoot(rootId: Id, options: Option<ApplyOptions>) returns (res: Resolution)
      requires Valid()
      modifies this`entries, this`eventsCache, this`readAt
      ensures Valid() && Keyed(Visible(state))
      ensures if old(Serves(rootId, Effective(options))) then res == old(entries[rootId].resolution) && entries == old(entries)
              else && res == ResolveOf(applierFor(Effective(options)), Visible(state), rootId)
                   && entries == old(entries)[rootId := MemoEntry(EpochOf(state.tables.epoch, rootId), Effective(options), res)]
      ensures SameView(res, ResolveOf(applierFor(Effective(options)), Visible(state), rootId)) <==> KnowsPresence(res, Visible(state), rootId)
      ensures KnowsPresence(res, Visible(state), rootId) || AlwaysRoot(ever, rootId) ==>
                Fresh(applierFor(Effective(options)), Visible(state), rootId, res)
    {
      var effective := Effective(options);
      var epoch := EpochOf(state.tables.epoch, rootId);
      VisibleFits(state, model);
      hide StoreInv, Fresh, VisibleOf, AlwaysRoot, ById, EntryOk, SameView, KnowsPresence, ResolveOf, Keyed;
      if Serves(rootId, effective) {
        EntryWorth(applierFor, state, ever, rootId, entries[rootId], readAt[rootId]);
        res := entries[rootId].resolution;
      } else {
        if eventsCache.None? || eventsCache.value.observedEpoch != state.observedEpoch {
          var events := Materialise();
          eventsCache := Some(EventsCache(state.observedEpoch, events));
        }
        res := Resolve.Resolve(applierFor(effective), rootId, eventsCache.value.events);
        FreshNow(applierFor, state, ever, rootId, effective, res);
        entries := entries[rootId := MemoEntry(epoch, effective, res)];
        readAt := readAt[rootId := Visible(state)];
      }
    }

    /**
     * A resolution whose overlays, and nothing else, are filtered: through the admission view the
     * caller gives, or else through the current trust view.
     */
    method ViewRoot(rootId: Id, options: Option<ApplyOptions>, admission: Option<AL.AdmissionView>) returns (res: Resolution, unfiltered: Resolution)
      requires Valid()
      modifies this`entries, this`eventsCache, this`readAt
      ensures Valid() && Keyed(Visible(state))
      ensures res.chain == unfiltered.chain && res.pending == unfiltered.pending && res.annotations == unfiltered.annotations
      ensures res.overlays == AL.VisibleOverlays(unfiltered.overlays, if admission.Some? then admission.value else AL.TrustedView(state.admit.reasons))
      ensures SameView(unfiltered, ResolveOf(applierFor(Effective(options)), Visible(state), rootId)) <==>
                KnowsPresence(unfiltered, Visible(state), rootId)
      ensures KnowsPresence(unfiltered, Visible(state), rootId) || AlwaysRoot(ever, rootId) ==>
                Fresh(applierFor(Effective(options)), Visible(state), rootId, unfiltered)
    {
      unfiltered := ResolveRoot(rootId, options);
      var view := if admission.Some? then admission.value else AL.TrustedView(state.admit.reasons);
      res := unfiltered.(overlays := AL.VisibleOverlays(unfiltered.overlays, view));
    }
  }

  function Passing(events: seq<Event>, verify: Event -> bool, bypass: bool): seq<Event>
    decreases |events|
  {
    if events == [] then []
    else
      var n := |events| - 1;
      Passing(events[..n], verify, bypass) + if bypass || verify(events[n]) then [events[n]] else []
  }

  lemma StepInv(s: StoreState, model: A.Model, delta: A.AdmissionDelta, next: StoreState, badPayload: PayloadCheck)
    requires StoreStep(s, model, delta, next, badPayload)
    ensures StoreInv(next, A.Step(model, delta))
  {
  }

  lemma FreshNow(applierFor: ApplyOptions -> Applier, s: StoreState, ever: set<Event>, root: Id, options: ApplyOptions, res: Resolution)
    requires Keyed(Visible(s)) && res == ResolveOf(applierFor(options), Visible(s), root)
    requires forall id :: id in s.Obs() ==> s.Obs()[id] in ever
    ensures EntryOk(applierFor, s, ever, root, MemoEntry(EpochOf(s.tables.epoch, root), options, res), Visible(s))
    ensures Fresh(applierFor(options), Visible(s), root, res) && SameView(res, ResolveOf(applierFor(options), Visible(s), root))
    ensures KnowsPresence(res, Visible(s), root)
  {
    assert SameButRoot(Visible(s), Visible(s), root);
    ViewAgreesIff(applierFor(options), Visible(s), Visible(s), root);
    hide ResolveOf, LineageClosed, SameButRoot;
  }
}
