/** What an unmoved chain epoch says about a resolution, exactly, over every run of the store. */
module MemoLaws {
  import opened Prelude
  import opened Events
  import opened Validate
  import opened StoreTables
  import opened StoreReducer
  import opened PatchTypes
  import opened ResolveSpec
  import opened Locality
  import L = Lineage
  import opened StoreLaws
  import A = AdmitModel
  import AL = AdmitLaws

  /** Wherever the two sets disagree, the event concerned does not touch `root`. */
  ghost predicate Untouched(v: Observed, v': Observed, root: Id, obs: Observed, overlay: map<Id, set<Id>>) {
    forall id :: !SameAt(v, v', id) ==>
      (id in v ==> !Touches(v[id], root, obs, overlay)) && (id in v' ==> !Touches(v'[id], root, obs, overlay))
  }

  /** `root` is observed only as a Product or Metadata. */
  ghost predicate RootTyped(obs: Observed, root: Id) { root in obs ==> IsRoot(obs[root]) }

  lemma PatchesUntouched(v: Observed, v': Observed, root: Id, obs: Observed, overlay: map<Id, set<Id>>, p: Event)
    requires Keyed(v) && Keyed(v') && KindsFit(v) && KindsFit(v') && Untouched(v, v', root, obs, overlay)
    ensures p in PatchesOf(v, root) <==> p in PatchesOf(v', root)
    ensures p in PatchesOf(v, root) ==> p.id in v && p.id in v' && v[p.id] == p && PatchOfRoot(p, root)
  {
    PatchMember(v, root, p);
    PatchMember(v', root, p);
    hide TypeOf, RootTarget, Waits;
    if IsPatchFor(p, root) {
      assert PatchOfRoot(p, root) && Touches(p, root, obs, overlay);
    }
  }

  lemma SameRetractions(v: Observed, v': Observed, root: Id, obs: Observed, overlay: map<Id, set<Id>>, p: Event)
    requires Untouched(v, v', root, obs, overlay)
    requires PatchOfRoot(p, root) && p.id in obs && obs[p.id] == p
    requires Retracted(v, p.id, p.pubkey)
    ensures Retracted(v', p.id, p.pubkey)
  {
    hide TypeOf, RootTarget, Waits;
    var d :| d in v && IsDeletion(v[d]) && v[d].pubkey == p.pubkey && p.id in RefIds(v[d]);
    assert Touches(v[d], root, obs, overlay);
    assert SameAt(v, v', d);
  }

  /** If no changed event touches the root, the two sets agree on all its resolution reads, except whether it is there. */
  lemma UntouchedIsSame(v: Observed, v': Observed, root: Id, obs: Observed, membership: map<Id, Id>, overlay: map<Id, set<Id>>)
    requires Keyed(v) && Keyed(v') && KindsFit(v) && KindsFit(v') && Untouched(v, v', root, obs, overlay)
    requires forall id :: id in v ==> id in obs && obs[id] == v[id]
    requires Indexed(obs.Keys, obs, membership, overlay)
    ensures SameButRoot(v, v', root)
  {
    assert Patchable(v, root) || Patchable(v', root) ==> SameAt(v, v', root) by { hide Waits, TypeOf, RootTarget; }
    forall p ensures p in PatchesOf(v, root) <==> p in PatchesOf(v', root)
             ensures p in PatchesOf(v, root) ==> p.id in v && p.id in v' && v[p.id] == p && PatchOfRoot(p, root)
    {
      PatchesUntouched(v, v', root, obs, overlay, p);
    }
    assert PatchesOf(v, root) == PatchesOf(v', root);
    hide IsRoot;
    forall p | p in PatchesOf(v, root)
      ensures Deleted(v, p.id) <==> Deleted(v', p.id)
      ensures ReplyTarget(p).Some? ==> SameAt(v, v', ReplyTarget(p).value)
    {
      assert SameAt(v, v', p.id) && v'[p.id] == p by { PatchesUntouched(v, v', root, obs, overlay, p); PatchMember(v', root, p); }
      if Retracted(v, p.id, p.pubkey) { SameRetractions(v, v', root, obs, overlay, p); }
      if Retracted(v', p.id, p.pubkey) {
        assert Untouched(v', v, root, obs, overlay) by { UntouchedSym(v, v', root, obs, overlay); }
        SameRetractions(v', v, root, obs, overlay, p);
      }
      if ReplyTarget(p).Some? {
        SameTarget(v, v', root, obs, membership, overlay, p);
      }
    }
    hide PatchesOf, Deleted, ReplyTarget;
  }

  lemma UntouchedSym(v: Observed, v': Observed, root: Id, obs: Observed, overlay: map<Id, set<Id>>)
    requires Untouched(v, v', root, obs, overlay)
    ensures Untouched(v', v, root, obs, overlay)
  {
    hide Touches;
  }

  lemma SameTarget(v: Observed, v': Observed, root: Id, obs: Observed, membership: map<Id, Id>, overlay: map<Id, set<Id>>, p: Event)
    requires Keyed(v) && Keyed(v') && Untouched(v, v', root, obs, overlay)
    requires Indexed(obs.Keys, obs, membership, overlay)
    requires p.id in obs && obs[p.id] == p && PatchOfRoot(p, root) && ReplyTarget(p).Some?
    ensures SameAt(v, v', ReplyTarget(p).value)
  {
    hide TypeOf, RootTarget, ReplyTarget, Waits;
    var t := ReplyTarget(p).value;
    assert Waits(overlay, t, root);
    assert t in v ==> Touches(v[t], root, obs, overlay);
    assert t in v' ==> Touches(v'[t], root, obs, overlay);
  }

  // ---------------------------------------------------------------- one delta

  lemma ObserveUntouched(s: StoreState, events: seq<Event>, next: StoreState, root: Id, badPayload: PayloadCheck)
    requires Keyed(s.Obs()) && next.Obs() == A.AfterObserve(s.Obs(), events)
    requires Folded(s.Obs(), next.Obs(), badPayload, s.tables, next.tables, next.Obs().Keys - s.Obs().Keys)
    requires !Bumped(s.tables.epoch, next.tables.epoch, root)
    ensures Untouched(Visible(s), Visible(next), root, s.Obs(), s.tables.overlay)
  {
    A.AfterObserveKeeps(s.Obs(), events);
    hide Touches, Bumped, NotBefore, Indexed, WaitsGrow, ValidateEvent, IndexesExact, Moves, Awaits, Waits;
    var v, v' := Visible(s), Visible(next);
    forall id | !SameAt(v, v', id)
      ensures id in v ==> !Touches(v[id], root, s.Obs(), s.tables.overlay)
      ensures id in v' ==> !Touches(v'[id], root, s.Obs(), s.tables.overlay)
    {
      if id in s.Obs() {
        assert next.Obs()[id] == s.Obs()[id];
        assert id in next.tables.invalid && id !in s.tables.invalid;
      } else if id in v' {
        assert id in next.Obs().Keys - s.Obs().Keys;
        assert Stirred(s.tables, next.Obs().Keys - s.Obs().Keys, id);
      }
    }
  }

  lemma UnobserveUntouched(s: StoreState, ids: seq<Id>, next: StoreState, root: Id, badPayload: PayloadCheck)
    requires Keyed(s.Obs()) && KindsFit(s.Obs()) && next.Obs() == A.Without(s.Obs(), Elems(ids))
    requires Retired(ids, s.Obs(), badPayload, s.tables, next.tables)
    requires Indexed(s.Obs().Keys, s.Obs(), s.tables.membership, s.tables.overlay)
    requires !Bumped(s.tables.epoch, next.tables.epoch, root)
    ensures Untouched(Visible(s), Visible(next), root, s.Obs(), s.tables.overlay)
  {
    var v, v' := Visible(s), Visible(next);
    assert WaitsGrow(s.tables.overlay, s.tables.overlay);
    hide Waits, ValidateEvent, Touches, IsTarget, Bumped, Indexed;
    forall id | !SameAt(v, v', id)
      ensures id in v ==> !Touches(v[id], root, s.Obs(), s.tables.overlay)
      ensures id in v' ==> !Touches(v'[id], root, s.Obs(), s.tables.overlay)
    {
      assert id in v && id !in v' && id in Elems(ids);
      if Touches(v[id], root, s.Obs(), s.tables.overlay) {
        TouchesIsTarget(v[id], root, s.Obs(), s.tables.overlay, s.tables.membership, s.tables.overlay);
      }
    }
  }

  lemma VisibleFits(s: StoreState, model: A.Model)
    requires StoreInv(s, model)
    ensures Keyed(s.Obs()) && KindsFit(s.Obs()) && Keyed(Visible(s)) && KindsFit(Visible(s))
  {
    ObsOf(s.admit, model);
    hide A.Represents, Indexed, A.StrandedOk, KindFitsType;
  }

  /** A delta that does not move a root's epoch changes nothing its resolution reads, except whether the root is there. */
  lemma UnbumpedDelta(s: StoreState, model: A.Model, delta: A.AdmissionDelta, next: StoreState, root: Id, badPayload: PayloadCheck)
    requires StoreStep(s, model, delta, next, badPayload)
    requires !Bumped(s.tables.epoch, next.tables.epoch, root)
    ensures Keyed(Visible(s)) && Keyed(Visible(next)) && SameButRoot(Visible(s), Visible(next), root)
  {
    VisibleFits(s, model);
    VisibleFits(next, A.Step(model, delta));
    ObsOf(s.admit, model);
    ObsOf(next.admit, A.Step(model, delta));
    hide A.Represents, Folded, Retired, Indexed, Touches, Held, PatchesOf, Deleted, ReplyTarget, Bumped, NotBefore;
    if Visible(s) != Visible(next) {
      match delta {
        case Observe(events) => ObserveUntouched(s, events, next, root, badPayload);
        case Unobserve(ids) => UnobserveUntouched(s, ids, next, root, badPayload);
        case Trust(_) =>
        case Untrust(_) =>
      }
      hide Untouched;
      UntouchedIsSame(Visible(s), Visible(next), root, s.Obs(), s.tables.membership, s.tables.overlay);
    }
  }

  /**
   * Such a delta keeps chain, overlays and annotations if and only if it leaves the root's presence
   * as it was: only the arrival or departure of an id of another type than root is not noticed.
   */
  lemma UnbumpedViewIff(apply: Applier, s: StoreState, model: A.Model, delta: A.AdmissionDelta, next: StoreState, root: Id,
                        badPayload: PayloadCheck)
    requires StoreStep(s, model, delta, next, badPayload)
    requires !Bumped(s.tables.epoch, next.tables.epoch, root)
    ensures Keyed(Visible(s)) && Keyed(Visible(next))
    ensures SameView(ResolveOf(apply, Visible(s), root), ResolveOf(apply, Visible(next), root))
            <==> (root in Visible(s) <==> root in Visible(next))
    ensures !(root in Visible(s) <==> root in Visible(next)) ==> !Patchable(Visible(s), root) && !Patchable(Visible(next), root)
  {
    UnbumpedDelta(s, model, delta, next, root, badPayload);
    ViewAgreesIff(apply, Visible(s), Visible(next), root);
    hide StoreStep, SamePatches, ResolveOf, IsRoot;
  }

  /**
   * When a delta that does not move the root's epoch brings one visible event or takes one away,
   * the root's pending list goes stale if and only if, without the event, a lineage of the root
   * author's ends at its id, and the event does not itself leave that lineage waiting.
   */
  lemma UnbumpedPendingIff(apply: Applier, s: StoreState, model: A.Model, delta: A.AdmissionDelta, next: StoreState,
                           without: Observed, e: Event, root: Id, badPayload: PayloadCheck)
    requires StoreStep(s, model, delta, next, badPayload)
    requires !Bumped(s.tables.epoch, next.tables.epoch, root)
    requires e.id !in without && e.id != root && Patchable(without, root)
    requires || (Visible(s) == without && Visible(next) == without[e.id := e])
             || (Visible(next) == without && Visible(s) == without[e.id := e])
    ensures Keyed(Visible(s)) && Keyed(Visible(next))
    ensures ResolveOf(apply, Visible(s), root).pending != ResolveOf(apply, Visible(next), root).pending <==>
              && (exists p :: p in Line(without, root) && L.WaitsAt(without, root, without[root].pubkey, p, e.id))
              && !(e.pubkey == without[root].pubkey && L.ClassOf(without[e.id := e], root, e.pubkey, e) == L.Held)
  {
    UnbumpedDelta(s, model, delta, next, root, badPayload);
    hide StoreStep, IsRoot, ResolveOf, L.ClassOf, L.WaitsAt, Line, VisibleOf, Bumped;
    assert SameFor(without, without[e.id := e], root) by {
      hide Patchable;
      SameEitherWay(Visible(s), Visible(next), root);
    }
    PendingMovesIff(apply, without, e, root);
  }

  lemma SameEitherWay(a: Observed, b: Observed, root: Id)
    requires SameButRoot(a, b, root)
    ensures SameButRoot(b, a, root)
  {
    hide PatchesOf, Deleted, ReplyTarget, IsRoot;
  }

  // ---------------------------------------------------------------- runs

  lemma EpochsNeverGoBack(s: StoreState, model: A.Model, delta: A.AdmissionDelta, next: StoreState, badPayload: PayloadCheck)
    requires StoreStep(s, model, delta, next, badPayload)
    ensures NotBefore(s.tables.epoch, next.tables.epoch)
    ensures s.observedEpoch <= next.observedEpoch
    ensures s.observedEpoch == next.observedEpoch ==> next.Obs() == s.Obs() && next.tables == s.tables
  {
    BumpRefl(s.tables.epoch);
    ObsOf(s.admit, model);
    ObsOf(next.admit, A.Step(model, delta));
    hide A.Represents, Indexed, Touches, Held, NotBefore, Bumped, Waits;
  }

  lemma {:induction false} EpochsGrow(states: seq<StoreState>, deltas: seq<A.AdmissionDelta>, badPayload: PayloadCheck, i: nat, j: nat)
    requires StoreRun(states, deltas, badPayload) && i <= j < |states|
    ensures NotBefore(states[i].tables.epoch, states[j].tables.epoch)
    decreases j
  {
    if i == j {
      BumpRefl(states[i].tables.epoch);
    } else {
      EpochsGrow(states, deltas, badPayload, i, j - 1);
      assert StepAt(states, deltas, badPayload, j - 1);
      hide StoreStep, StoreRun;
      EpochsNeverGoBack(states[j - 1], AL.Run(A.EMPTY_MODEL, deltas[..j - 1]), deltas[j - 1], states[j], badPayload);
      BumpedLater(states[i].tables.epoch, states[j - 1].tables.epoch, states[j].tables.epoch);
    }
  }

  /**
   * Over any run of observe, unobserve, trust and untrust: two points with the same chain epoch for
   * a root read the same for it, except whether the root is there.
   */
  lemma {:induction false} EpochFixesReads(states: seq<StoreState>, deltas: seq<A.AdmissionDelta>, badPayload: PayloadCheck, i: nat, j: nat, root: Id)
    requires StoreRun(states, deltas, badPayload) && i <= j < |states|
    requires EpochOf(states[i].tables.epoch, root) == EpochOf(states[j].tables.epoch, root)
    ensures Keyed(Visible(states[i])) && Keyed(Visible(states[j]))
    ensures SameButRoot(Visible(states[i]), Visible(states[j]), root)
    decreases j
  {
    if i < j {
      EpochsGrow(states, deltas, badPayload, i, j - 1);
      assert EpochOf(states[i].tables.epoch, root) <= EpochOf(states[j - 1].tables.epoch, root);
      assert StepAt(states, deltas, badPayload, j - 1);
      var model := AL.Run(A.EMPTY_MODEL, deltas[..j - 1]);
      hide StoreStep, StoreRun;
      EpochsNeverGoBack(states[j - 1], model, deltas[j - 1], states[j], badPayload);
      assert EpochOf(states[j - 1].tables.epoch, root) <= EpochOf(states[j].tables.epoch, root);
      EpochFixesReads(states, deltas, badPayload, i, j - 1, root);
      UnbumpedDelta(states[j - 1], model, deltas[j - 1], states[j], root, badPayload);
      SameButRootTransitive(Visible(states[i]), Visible(states[j - 1]), Visible(states[j]), root);
    } else {
      RunPrefix(states, deltas, badPayload, i);
      assert SameButRoot(Visible(states[i]), Visible(states[i]), root);
    }
  }

  lemma RunPrefix(states: seq<StoreState>, deltas: seq<A.AdmissionDelta>, badPayload: PayloadCheck, i: nat)
    requires StoreRun(states, deltas, badPayload) && i < |states|
    ensures Keyed(Visible(states[i]))
  {
    if i > 0 {
      assert StepAt(states, deltas, badPayload, i - 1);
      VisibleFits(states[i], A.Step(AL.Run(A.EMPTY_MODEL, deltas[..i - 1]), deltas[i - 1]));
    }
  }

  /** An id observed only as a Product or Metadata at both points is there at both or at neither. */
  lemma RootTypedStays(a: Observed, b: Observed, root: Id)
    requires SameButRoot(a, b, root) && RootTyped(a, root) && RootTyped(b, root)
    ensures root in a <==> root in b
  {
    hide SamePatches, IsRoot;
  }

  /** The memo gate: equal epochs mean equal answers if and only if the root's presence is equal. */
  lemma EpochFixesResolution(apply: Applier, states: seq<StoreState>, deltas: seq<A.AdmissionDelta>, badPayload: PayloadCheck,
                             i: nat, j: nat, root: Id)
    requires StoreRun(states, deltas, badPayload) && i <= j < |states|
    requires EpochOf(states[i].tables.epoch, root) == EpochOf(states[j].tables.epoch, root)
    ensures Keyed(Visible(states[i])) && Keyed(Visible(states[j]))
    ensures var v, w := Visible(states[i]), Visible(states[j]);
            && (SameView(ResolveOf(apply, v, root), ResolveOf(apply, w, root)) <==> (root in v <==> root in w))
            && ((root in v <==> root in w) && LineageClosed(w, root) ==> ResolveOf(apply, v, root) == ResolveOf(apply, w, root))
            && (RootTyped(v, root) && RootTyped(w, root) ==> (root in v <==> root in w))
  {
    EpochFixesReads(states, deltas, badPayload, i, j, root);
    var v, w := Visible(states[i]), Visible(states[j]);
    hide StoreRun, SamePatches, ResolveOf, LineageClosed, IsRoot;
    ViewAgreesIff(apply, v, w, root);
    if RootTyped(v, root) && RootTyped(w, root) { RootTypedStays(v, w, root); }
    if SameFor(v, w, root) { PendingIsLocal(apply, v, w, root); }
  }
}
