/**
 * What the store keeps over whole runs: its verdicts are the validity layer's, and its view depends
 * only on what was observed and who is trusted.
 */
module StoreLaws {
  import opened Prelude
  import opened Ordering
  import opened Events
  import opened Validate
  import opened StoreTables
  import opened StoreReducer
  import A = AdmitModel
  import AL = AdmitLaws
  import Admission

  // ---------------------------------------------------------------- verdicts

  /** Invalid ids are exactly the rejected ones, and every pending event is registered wherever it waits. */
  ghost predicate VerdictsSettled(s: StoreState, badPayload: PayloadCheck) {
    && Held(s.Obs().Keys, s.Obs(), badPayload, s.tables, {})
    && forall q :: q in s.tables.invalid ==> Rejected(q, s.Obs(), badPayload)
  }

  lemma VerdictsSettledMeans(s: StoreState, badPayload: PayloadCheck)
    requires VerdictsSettled(s, badPayload) && Keyed(s.Obs())
    ensures forall id :: id in s.tables.invalid <==> Rejected(id, s.Obs(), badPayload)
    ensures forall id, a ::
              id in s.Obs() && ValidateEvent(s.Obs()[id], s.Obs(), badPayload).Pending?
              && a in ValidateEvent(s.Obs()[id], s.Obs(), badPayload).awaiting
              ==> Waits(s.tables.pending, a, id)
  {
    hide ValidateEvent, Waits;
    forall id | id in s.Obs() ensures VerdictHeld(s.Obs()[id], s.Obs(), badPayload, s.tables) {
      AllSettled(id, s.Obs(), badPayload, s.tables);
    }
  }

  /** Growing the observed set turns a held verdict into one still held, or one an arrival will wake. */
  lemma HeldAsItGrows(s: StoreState, wide: Observed, badPayload: PayloadCheck)
    requires VerdictsSettled(s, badPayload) && Extends(s.Obs(), wide)
    requires Keyed(s.Obs())
    ensures Held(s.Obs().Keys, wide, badPayload, s.tables, wide.Keys - s.Obs().Keys)
    ensures forall q :: q in s.tables.invalid ==> Rejected(q, wide, badPayload)
  {
    var obs := s.Obs();
    VerdictsSettledMeans(s, badPayload);
    forall id | id in obs
      ensures SettledOrWaiting(id, wide, badPayload, s.tables, wide.Keys - obs.Keys)
    {
      VerdictsAreStable(obs[id], obs, wide, badPayload);
      var v := ValidateEvent(obs[id], obs, badPayload);
      if v.Pending? {
        AwaitsUnobserved(obs[id], obs, badPayload);
        if a :| a in v.awaiting && a in wide { assert a in wide.Keys - obs.Keys && Waits(s.tables.pending, a, id); }
      }
      hide ValidateEvent, Waits;
    }
    forall q | q in s.tables.invalid ensures Rejected(q, wide, badPayload) {
      VerdictsAreStable(obs[q], obs, wide, badPayload);
    }
  }

  lemma StepSettlesVerdicts(s: StoreState, model: A.Model, delta: A.AdmissionDelta, next: StoreState, badPayload: PayloadCheck)
    requires StoreStep(s, model, delta, next, badPayload) && !delta.Unobserve? && VerdictsSettled(s, badPayload)
    ensures VerdictsSettled(next, badPayload)
  {
    hide A.Represents, Indexed, Waits, ValidateEvent, Touches, Held, NotBefore, Bumped;
    ObsOf(s.admit, model);
    ObsOf(next.admit, A.Step(model, delta));
    match delta
    case Observe(events) =>
      if events != [] {
        A.AfterObserveKeeps(model.obs, events);
        HeldAsItGrows(s, next.Obs(), badPayload);
      }
    case Trust(keys) =>
    case Untrust(keys) =>
  }

  // ---------------------------------------------------------------- runs

  /** A run of the store from the empty state. */
  ghost predicate StoreRun(states: seq<StoreState>, deltas: seq<A.AdmissionDelta>, badPayload: PayloadCheck) {
    && |states| == |deltas| + 1 && states[0] == EMPTY_STORE_STATE
    && forall i :: 0 <= i < |deltas| ==> StepAt(states, deltas, badPayload, i)
  }

  ghost predicate StepAt(states: seq<StoreState>, deltas: seq<A.AdmissionDelta>, badPayload: PayloadCheck, i: nat)
    requires i < |deltas| && |states| == |deltas| + 1
  {
    StoreStep(states[i], AL.Run(A.EMPTY_MODEL, deltas[..i]), deltas[i], states[i + 1], badPayload)
  }

  /** Over any run without unobserve, every verdict on record is the validity layer's, at every point. */
  lemma {:induction false} VerdictsExactOverRuns(states: seq<StoreState>, deltas: seq<A.AdmissionDelta>, badPayload: PayloadCheck, i: nat)
    requires StoreRun(states, deltas, badPayload) && i < |states|
    requires forall d :: d in deltas ==> !d.Unobserve?
    ensures VerdictsSettled(states[i], badPayload)
    decreases i
  {
    if i > 0 {
      VerdictsExactOverRuns(states, deltas, badPayload, i - 1);
      assert StepAt(states, deltas, badPayload, i - 1);
      hide StoreStep, VerdictsSettled;
      StepSettlesVerdicts(states[i - 1], AL.Run(A.EMPTY_MODEL, deltas[..i - 1]), deltas[i - 1], states[i], badPayload);
    }
  }

  datatype StoreView = StoreView(observedIds: seq<Id>, admission: Admission.Reasons, invalidIds: seq<Id>)

  ghost function ToStoreView(s: StoreState): StoreView {
    StoreView(SortedIds(s.Obs().Keys), s.admit.reasons, SortedIds(s.tables.invalid))
  }

  /** Two runs that end with the same observed set and trust set show the same view, whatever their order and batching. */
  lemma ViewIsConfluent(xs: seq<StoreState>, dxs: seq<A.AdmissionDelta>, ys: seq<StoreState>, dys: seq<A.AdmissionDelta>, badPayload: PayloadCheck)
    requires StoreRun(xs, dxs, badPayload) && StoreRun(ys, dys, badPayload)
    requires forall d :: d in dxs || d in dys ==> !d.Unobserve?
    requires xs[|dxs|].Obs() == ys[|dys|].Obs() && xs[|dxs|].admit.trusted == ys[|dys|].admit.trusted
    ensures ToStoreView(xs[|dxs|]) == ToStoreView(ys[|dys|])
  {
    var x, y := xs[|dxs|], ys[|dys|];
    VerdictsExactOverRuns(xs, dxs, badPayload, |dxs|);
    RunRepresents(xs, dxs, badPayload);
    RunRepresents(ys, dys, badPayload);
    VerdictsExactOverRuns(ys, dys, badPayload, |dys|);
    VerdictsSettledMeans(x, badPayload);
    VerdictsSettledMeans(y, badPayload);
    RunIsIndex(xs, dxs, badPayload);
    RunIsIndex(ys, dys, badPayload);
    Admission.IndexUnique(x.admit.reasons, y.admit.reasons, x.Obs(), x.admit.trusted);
    hide StoreRun, Rejected, VerdictsSettled, Admission.IsIndex;
    forall id ensures id in x.tables.invalid <==> id in y.tables.invalid {
      assert id in x.tables.invalid <==> Rejected(id, x.Obs(), badPayload);
    }
    SameElements(x.tables.invalid, y.tables.invalid);
  }

  lemma RunRepresents(states: seq<StoreState>, deltas: seq<A.AdmissionDelta>, badPayload: PayloadCheck)
    requires StoreRun(states, deltas, badPayload)
    ensures StoreInv(states[|deltas|], AL.Run(A.EMPTY_MODEL, deltas)) && AL.AllFit(deltas)
    ensures Keyed(states[|deltas|].Obs())
  {
    hide A.Represents, Folded, Held, Retired;
    var n := |deltas|;
    forall d | d in deltas ensures A.DeltaFits(d) {
      var i :| 0 <= i < n && deltas[i] == d;
      assert StepAt(states, deltas, badPayload, i);
    }
    if n == 0 {
      A.EmptyRepresents();
      assert deltas[..0] == deltas;
    } else {
      assert StepAt(states, deltas, badPayload, n - 1);
      AL.RunAppend(A.EMPTY_MODEL, deltas[..n - 1], deltas[n - 1]);
      assert deltas[..n - 1] + [deltas[n - 1]] == deltas;
    }
    ObsOf(states[n].admit, AL.Run(A.EMPTY_MODEL, deltas));
    KeyedOf(AL.Run(A.EMPTY_MODEL, deltas));
  }

  lemma RunIsIndex(states: seq<StoreState>, deltas: seq<A.AdmissionDelta>, badPayload: PayloadCheck)
    requires StoreRun(states, deltas, badPayload)
    requires forall d :: d in deltas ==> !d.Unobserve?
    ensures Admission.IsIndex(states[|deltas|].admit.reasons, states[|deltas|].Obs(), states[|deltas|].admit.trusted)
  {
    RunRepresents(states, deltas, badPayload);
    ObsOf(states[|deltas|].admit, AL.Run(A.EMPTY_MODEL, deltas));
    NoUnobserveNeverStrands(A.EMPTY_MODEL, deltas);
    AL.RunAgreesWithOracle(deltas, states[|deltas|].admit);
  }

  lemma {:induction false} NoUnobserveNeverStrands(model: A.Model, deltas: seq<A.AdmissionDelta>)
    requires forall d :: d in deltas ==> !d.Unobserve?
    ensures AL.NeverStrands(model, deltas)
    decreases |deltas|
  {
    if deltas != [] { NoUnobserveNeverStrands(A.Step(model, deltas[0]), deltas[1..]); }
  }

  // ---------------------------------------------------------------- validity and admission agree on bindings

  /** A tagged binding is valid exactly when admission finds its endpoints, both observed, and well typed. */
  lemma ValidBindingIff(e: Event, obs: Observed, badPayload: PayloadCheck)
    requires Tagged(e, Binding)
    ensures ValidateEvent(e, obs, badPayload) == Valid(Binding) <==>
            var ends := Admission.BindingEndpoints(e);
            ends.Some? && ends.value.rootId in obs && ends.value.linkId in obs && Admission.WellTyped(ends.value, obs)
  {
    BindingVerdict(e, obs, badPayload);
    EndpointsMean(e);
    hide ValidateEvent, Tagged, OnlyRef, WithMarker, TypeOf, Admission.BindingEndpoints;
    var ends := Admission.BindingEndpoints(e);
    if ends.Some? {
      assert BindingFits(e, obs, ends.value.rootId, ends.value.linkId) <==> Admission.WellTyped(ends.value, obs);
    }
  }

  /** The endpoints are the one root reference and the one link reference. */
  lemma EndpointsMean(e: Event)
    ensures forall r, l :: OnlyRef(e.refs, RootMark, r) && OnlyRef(e.refs, LinkMark, l) <==>
              Admission.BindingEndpoints(e) == Some(Admission.Endpoints(r, l))
  {
    forall r, l ensures OnlyRef(e.refs, RootMark, r) && OnlyRef(e.refs, LinkMark, l) <==>
                        Admission.BindingEndpoints(e) == Some(Admission.Endpoints(r, l))
    {
      OnlyRefMeans(e.refs, RootMark, r);
      OnlyRefMeans(e.refs, LinkMark, l);
      hide OnlyRef, WithMarker;
    }
  }

  /** A trusted author's valid binding that is not retracted admits exactly its product and its metadata. */
  lemma ValidBindingAdmits(obs: Observed, trusted: set<Pubkey>, b: Id, badPayload: PayloadCheck, product: Id, metadata: Id, id: Id)
    requires b in obs && Tagged(obs[b], Binding) && ValidateEvent(obs[b], obs, badPayload) == Valid(Binding)
    requires obs[b].pubkey in trusted && !Retracted(obs, b, obs[b].pubkey)
    requires OnlyRef(obs[b].refs, RootMark, product) && OnlyRef(obs[b].refs, LinkMark, metadata)
    ensures Admission.HasReason(obs, trusted, id, Admission.ViaBinding(b)) <==> id == product || id == metadata
  {
    ValidBindingIff(obs[b], obs, badPayload);
    EndpointsMean(obs[b]);
    TaggedMeans(obs[b], Binding);
    hide ValidateEvent, Tagged, OnlyRef, WithMarker, TypeOf, Admission.BindingEndpoints, Admission.WellTyped, TagsOk, Retracted;
  }

  /** Over any run without unobserve, the observed bindings on record as invalid are exactly those whose endpoints do not fit. */
  lemma InvalidBindingsOverRuns(states: seq<StoreState>, deltas: seq<A.AdmissionDelta>, badPayload: PayloadCheck, i: nat, id: Id)
    requires StoreRun(states, deltas, badPayload) && i < |states| && forall d :: d in deltas ==> !d.Unobserve?
    requires Keyed(states[i].Obs()) && id in states[i].Obs() && Tagged(states[i].Obs()[id], Binding)
    ensures var obs := states[i].Obs();
            id in states[i].tables.invalid <==> !exists product, metadata :: BindingFits(obs[id], obs, product, metadata)
  {
    VerdictsExactOverRuns(states, deltas, badPayload, i);
    VerdictsSettledMeans(states[i], badPayload);
    var obs := states[i].Obs();
    BindingVerdict(obs[id], obs, badPayload);
    TagsDecide(obs[id], obs, badPayload);
    hide ValidateEvent, Tagged, BindingFits, StoreRun, VerdictsSettled;
    assert FabricLabel in obs[id].labels by { TaggedMeans(obs[id], Binding); hide Tagged, TagsOk; }
    assert id in states[i].tables.invalid <==> Rejected(id, obs, badPayload);
  }
}
