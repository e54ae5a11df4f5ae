/**
 * The incremental admission state as a value: the observed set, the trust set, and the
 * `root-chain` credits left behind for roots no longer observed. The reasons of a reachable state
 * are the oracle's reasons plus exactly those stranded credits.
 */
module AdmitModel {
  import opened Prelude
  import opened Events
  import opened Admission

  datatype AdmissionDelta =
    | Observe(events: seq<Event>)
    | Unobserve(eventIds: seq<Id>)
    | Trust(pubkeys: seq<Pubkey>)
    | Untrust(pubkeys: seq<Pubkey>)

  datatype AdmitState = AdmitState(
    reasons: Reasons, liveBindings: map<Id, Endpoints>, trusted: set<Pubkey>, observedById: Observed)

  const EMPTY_ADMIT_STATE := AdmitState(map[], map[], {}, map[])

  /** A stranded credit: a member still credited by a root that is not observed. */
  datatype LeftCredit = Left(id: Id, root: Id)

  type Stranded = set<LeftCredit>

  datatype Model = Model(obs: Observed, trusted: set<Pubkey>, stranded: Stranded)

  const EMPTY_MODEL := Model(map[], {}, {})

  // ---------------------------------------------------------------- the invariant

  ghost predicate ObservedRoot(obs: Observed, id: Id) { id in obs && IsRoot(obs[id]) }

  ghost predicate DirectExact(m: Reasons, obs: Observed, trusted: set<Pubkey>) {
    forall id :: Has(m, id, DirectTrust) <==> id in obs && obs[id].pubkey in trusted
  }

  ghost predicate BindingExact(m: Reasons, live: map<Id, Endpoints>) {
    forall id, b :: Has(m, id, ViaBinding(b)) <==> b in live && EndsAt(live[b], id)
  }

  /** Every recorded binding is an observed binding with these endpoints. */
  ghost predicate LiveSound(live: map<Id, Endpoints>, obs: Observed) {
    forall b :: b in live ==> b in obs && TypeOf(obs[b]) == Some(Binding) && BindingEndpoints(obs[b]) == Some(live[b])
  }

  ghost predicate LiveExact(live: map<Id, Endpoints>, obs: Observed, trusted: set<Pubkey>) {
    LiveSound(live, obs) && forall b :: b in live <==> Live(obs, trusted, b)
  }

  ghost predicate InChain(obs: Observed, trusted: set<Pubkey>, root: Id, id: Id) {
    ObservedRoot(obs, root) && BaseAdmitted(obs, trusted, root) && IsMember(obs, obs[root], id)
  }

  ghost predicate ChainExact(m: Reasons, obs: Observed, trusted: set<Pubkey>, stranded: Stranded) {
    forall id, root :: Has(m, id, RootChain(root)) <==> InChain(obs, trusted, root, id) || Left(id, root) in stranded
  }

  /** Stranded credits sit on observed non-roots and name roots that are not observed. */
  ghost predicate StrandedOk(stranded: Stranded, obs: Observed) {
    forall p :: p in stranded ==> p.id in obs && !IsRoot(obs[p.id]) && !ObservedRoot(obs, p.root)
  }

  ghost predicate ModelOk(model: Model) {
    Keyed(model.obs) && KindsFit(model.obs) && StrandedOk(model.stranded, model.obs)
  }

  /** `state` is what the bookkeeping holds for `model`. */
  ghost predicate Represents(state: AdmitState, model: Model) {
    && ModelOk(model)
    && state.observedById == model.obs && state.trusted == model.trusted
    && DirectExact(state.reasons, model.obs, model.trusted)
    && BindingExact(state.reasons, state.liveBindings)
    && LiveExact(state.liveBindings, model.obs, model.trusted)
    && ChainExact(state.reasons, model.obs, model.trusted, model.stranded)
    && (forall id :: id in state.reasons ==> state.reasons[id] != {})
  }

  /** The model fixes the whole state, reasons and live bindings alike. */
  lemma RepresentsUnique(a: AdmitState, b: AdmitState, model: Model)
    requires Represents(a, model) && Represents(b, model)
    ensures a == b
  {
    hide Live, TypeOf, BindingEndpoints, InChain;
    forall x ensures x in a.liveBindings <==> x in b.liveBindings
             ensures x in a.liveBindings && x in b.liveBindings ==> a.liveBindings[x] == b.liveBindings[x]
    {
      assert x in a.liveBindings <==> Live(model.obs, model.trusted, x);
      if x in a.liveBindings { assert Some(a.liveBindings[x]) == Some(b.liveBindings[x]); }
    }
    assert a.liveBindings == b.liveBindings;
    forall id, r ensures Has(a.reasons, id, r) <==> Has(b.reasons, id, r) {
      match r
      case DirectTrust =>
      case ViaBinding(bd) => assert Has(a.reasons, id, ViaBinding(bd)) <==> Has(b.reasons, id, ViaBinding(bd));
      case RootChain(root) => assert Has(a.reasons, id, RootChain(root)) <==> Has(b.reasons, id, RootChain(root));
    }
    SameHas(a.reasons, b.reasons);
  }

  lemma EmptyRepresents()
    ensures Represents(EMPTY_ADMIT_STATE, EMPTY_MODEL)
  {
  }

  /** The bookkeeping agrees with the oracle exactly when no credit is stranded. */
  lemma ExactIffNothingStranded(state: AdmitState, model: Model)
    requires Represents(state, model)
    ensures IsIndex(state.reasons, model.obs, model.trusted) <==> model.stranded == {}
  {
    hide Live, TypeOf, BindingEndpoints, IsMember, BaseAdmitted, Has, IsRoot;
    forall id, b ensures Has(state.reasons, id, ViaBinding(b)) <==> HasReason(model.obs, model.trusted, id, ViaBinding(b)) {
      assert b in state.liveBindings <==> Live(model.obs, model.trusted, b);
    }
    forall id, root
      ensures Has(state.reasons, id, RootChain(root)) <==>
              HasReason(model.obs, model.trusted, id, RootChain(root)) || Left(id, root) in model.stranded
    {
    }
    if p :| p in model.stranded {
      assert Has(state.reasons, p.id, RootChain(p.root)) && !HasReason(model.obs, model.trusted, p.id, RootChain(p.root));
    } else {
      assert model.stranded == {};
      forall id, r ensures Has(state.reasons, id, r) <==> HasReason(model.obs, model.trusted, id, r) {
        match r
        case DirectTrust => assert Has(state.reasons, id, DirectTrust) <==> HasReason(model.obs, model.trusted, id, DirectTrust);
        case ViaBinding(b) => assert Has(state.reasons, id, ViaBinding(b)) <==> HasReason(model.obs, model.trusted, id, ViaBinding(b));
        case RootChain(root) => assert Has(state.reasons, id, RootChain(root)) <==> HasReason(model.obs, model.trusted, id, RootChain(root));
      }
    }
  }

  // ---------------------------------------------------------------- one delta

  /** First observation wins; an id already observed is skipped. */
  function AfterObserve(obs: Observed, events: seq<Event>): Observed
    decreases |events|
  {
    if events == [] then obs
    else
      var n := |events| - 1;
      var prior := AfterObserve(obs, events[..n]);
      if events[n].id in prior then prior else prior[events[n].id := events[n]]
  }

  function Without(obs: Observed, ids: set<Id>): Observed {
    map id | id in obs && id !in ids :: obs[id]
  }

  /** Where `x` is first listed, or the length of the list. */
  function FirstIndex(ids: seq<Id>, x: Id): (k: nat)
    ensures k <= |ids| && (k < |ids| <==> x in ids)
    ensures k < |ids| ==> ids[k] == x
    ensures forall i :: 0 <= i < k ==> ids[i] != x
  {
    if ids == [] || ids[0] == x then 0 else 1 + FirstIndex(ids[1..], x)
  }

  /**
   * When its turn in `ids` comes, the root is no longer admitted: its author is not trusted and
   * every binding that vouches for it was listed, and so taken down, before it.
   */
  ghost predicate LosesVouchersFirst(obs: Observed, trusted: set<Pubkey>, ids: seq<Id>, root: Id) {
    && root in ids && ObservedRoot(obs, root) && obs[root].pubkey !in trusted
    && forall b :: Vouches(obs, trusted, b, root) ==> FirstIndex(ids, b) < FirstIndex(ids, root)
  }

  /** `root` keeps a reason after `prior` has been taken away. */
  ghost predicate StillAdmitted(obs: Observed, trusted: set<Pubkey>, prior: seq<Id>, root: Id)
    requires root in obs
  {
    obs[root].pubkey in trusted || exists b :: Vouches(obs, trusted, b, root) && b !in prior
  }

  /** The turn of `root` found it still admitted and withdrew the credits it conferred. */
  ghost predicate Uncascaded(model: Model, ids: seq<Id>, root: Id) {
    ObservedRoot(model.obs, root) && root in ids
    && StillAdmitted(model.obs, model.trusted, ids[..FirstIndex(ids, root)], root)
  }

  ghost function StrandedBy(model: Model, ids: seq<Id>): Stranded {
    set id, root | root in model.obs && id in model.obs
      && LosesVouchersFirst(model.obs, model.trusted, ids, root) && InChain(model.obs, model.trusted, root, id)
      && id !in ids :: Left(id, root)
  }

  ghost function Step(model: Model, delta: AdmissionDelta): Model {
    match delta
    case Observe(events) =>
      var obs := AfterObserve(model.obs, events);
      Model(obs, model.trusted, set p | p in model.stranded && !ObservedRoot(obs, p.root))
    case Unobserve(ids) =>
      Model(Without(model.obs, Elems(ids)), model.trusted,
            (set p | p in model.stranded && p.id !in ids) + StrandedBy(model, ids))
    case Trust(keys) => model.(trusted := model.trusted + Elems(keys))
    case Untrust(keys) => model.(trusted := model.trusted - Elems(keys))
  }

  /** Observed events are the source's own: a typed event is not a deletion. */
  predicate DeltaFits(delta: AdmissionDelta) {
    delta.Observe? ==> forall e :: e in delta.events ==> KindFitsType(e)
  }

  lemma {:induction false} AfterObserveKeeps(obs: Observed, events: seq<Event>)
    requires Keyed(obs)
    ensures Keyed(AfterObserve(obs, events))
    ensures obs.Keys <= AfterObserve(obs, events).Keys && forall id :: id in obs ==> AfterObserve(obs, events)[id] == obs[id]
    ensures forall id :: id in AfterObserve(obs, events) ==> id in obs || AfterObserve(obs, events)[id] in events
    ensures forall e :: e in events ==> e.id in AfterObserve(obs, events)
    decreases |events|
  {
    if events != [] {
      var n := |events| - 1;
      AfterObserveKeeps(obs, events[..n]);
      assert events == events[..n] + [events[n]];
    }
  }

  lemma StepOk(model: Model, delta: AdmissionDelta)
    requires ModelOk(model) && DeltaFits(delta)
    ensures ModelOk(Step(model, delta))
  {
    hide TypeOf, BaseAdmitted, LosesVouchersFirst, IsDeletion;
    match delta
    case Observe(events) =>
      AfterObserveKeeps(model.obs, events);
      var next := Step(model, delta);
      assert next.obs == AfterObserve(model.obs, events);
      forall p | p in next.stranded ensures p.id in next.obs && !IsRoot(next.obs[p.id]) && !ObservedRoot(next.obs, p.root) {
        assert p in model.stranded && p.id in model.obs;
        assert AfterObserve(model.obs, events)[p.id] == model.obs[p.id];
      }
    case Unobserve(ids) =>
      forall p | p in StrandedBy(model, ids)
        ensures p.id in Without(model.obs, Elems(ids)) && !IsRoot(model.obs[p.id]) && p.root in ids
      {
        MembersAreNotRoots(model.obs, model.obs[p.root], p.id);
        LosesMeansListed(model.obs, model.trusted, ids, p.root);
      }
    case Trust(_) =>
    case Untrust(_) =>
  }

  lemma LosesMeansListed(obs: Observed, trusted: set<Pubkey>, ids: seq<Id>, root: Id)
    requires LosesVouchersFirst(obs, trusted, ids, root)
    ensures root in ids
  {
  }
}
