/** What the incremental bookkeeping promises over whole runs, and how admission meets resolution. */
module AdmitLaws {
  import opened Prelude
  import opened Events
  import opened PatchTypes
  import opened ChainWalk
  import opened Admission
  import opened AdmitModel
  import R = ResolveSpec

  // ---------------------------------------------------------------- when a list of ids strands a credit

  /**
   * Unobserving `ids` leaves a credit behind: a listed root that only bindings vouch for has all of
   * them listed before it, and some member of its chain is not listed.
   */
  ghost predicate Strands(obs: Observed, trusted: set<Pubkey>, ids: seq<Id>) {
    exists root, id :: LosesVouchersFirst(obs, trusted, ids, root) && InChain(obs, trusted, root, id) && id !in ids
  }

  /** An unobserve keeps the bookkeeping equal to the oracle exactly when it strands nothing. */
  lemma UnobserveExactIff(state: AdmitState, next: AdmitState, model: Model, ids: seq<Id>)
    requires Represents(state, model) && IsIndex(state.reasons, model.obs, model.trusted)
    requires Represents(next, Step(model, Unobserve(ids)))
    ensures IsIndex(next.reasons, Without(model.obs, Elems(ids)), model.trusted) <==> !Strands(model.obs, model.trusted, ids)
  {
    ExactIffNothingStranded(state, model);
    ExactIffNothingStranded(next, Step(model, Unobserve(ids)));
    hide Represents, IsIndex;
    StrandedIff(model, ids);
  }

  lemma StrandedIff(model: Model, ids: seq<Id>)
    requires model.stranded == {}
    ensures Step(model, Unobserve(ids)).stranded == {} <==> !Strands(model.obs, model.trusted, ids)
  {
    hide IsRoot, IsMember, BaseAdmitted, FirstIndex, Vouches;
    var stranded := Step(model, Unobserve(ids)).stranded;
    assert stranded == StrandedBy(model, ids);
    if root, id :| LosesVouchersFirst(model.obs, model.trusted, ids, root) && InChain(model.obs, model.trusted, root, id) && id !in ids {
      MemberObserved(model.obs, model.obs[root], id);
      assert Left(id, root) in stranded;
    }
  }

  lemma MemberObserved(obs: Observed, root: Event, id: Id)
    requires IsMember(obs, root, id)
    ensures id in obs
  {
  }

  /** One id at a time never strands anything. */
  lemma SingletonNeverStrands(obs: Observed, trusted: set<Pubkey>, id: Id)
    ensures !Strands(obs, trusted, [id])
  {
    hide Vouches, IsMember, IsRoot;
    forall root | LosesVouchersFirst(obs, trusted, [id], root) ensures !BaseAdmitted(obs, trusted, root) {
      assert FirstIndex([id], root) == 0;
    }
  }

  /** A product only a trusted binding vouches for, and the product author's patch of it. */
  const SHOP := Event(1, 10, 0, 1, [TypeLabel(Product)], [], [], "")
  const VOUCHER := Event(2, 20, 0, 1, [TypeLabel(Binding)], [ERef(1, RootMark), ERef(9, LinkMark)], [], "")
  const EDIT := Event(3, 10, 0, 1, [TypeLabel(Patch)], [ERef(1, RootMark), ERef(1, ReplyMark)], [], "")

  const SHOP_EVENTS: Observed := map[1 := SHOP, 2 := VOUCHER, 3 := EDIT]

  /**
   * Taking the binding down before the product leaves the patch with a reason that names a root no
   * longer observed and that the oracle does not give; the other order does not.
   */
  lemma BindingBeforeRootStrands(next: AdmitState)
    requires Represents(next, Step(Model(SHOP_EVENTS, {20}, {}), Unobserve([2, 1])))
    ensures next.observedById.Keys == {3} && Has(next.reasons, 3, RootChain(1))
    ensures !HasReason(next.observedById, {20}, 3, RootChain(1))
    ensures Strands(SHOP_EVENTS, {20}, [2, 1]) && !Strands(SHOP_EVENTS, {20}, [1, 2])
  {
    OrderDecides();
    hide LosesVouchersFirst, InChain, Strands, TypeOf, BindingExact, LiveExact, DirectExact, StrandedOk;
    assert Left(3, 1) in StrandedBy(Model(SHOP_EVENTS, {20}, {}), [2, 1]);
    assert next.observedById == Without(SHOP_EVENTS, Elems([2, 1]));
    forall id ensures id in next.observedById.Keys <==> id in {3} {}
    SameElements(next.observedById.Keys, {3});
  }

  lemma OrderDecides()
    ensures Strands(SHOP_EVENTS, {20}, [2, 1]) && !Strands(SHOP_EVENTS, {20}, [1, 2])
    ensures LosesVouchersFirst(SHOP_EVENTS, {20}, [2, 1], 1) && InChain(SHOP_EVENTS, {20}, 1, 3)
  {
    var obs := SHOP_EVENTS;
    ShopFacts();
    hide Vouches, IsMember, TypeOf, Retracted, ChainPatch, BaseAdmitted;
    assert FirstIndex([2, 1], 2) == 0 && FirstIndex([2, 1], 1) == 1;
    assert LosesVouchersFirst(obs, {20}, [2, 1], 1) && InChain(obs, {20}, 1, 3);
    forall root ensures !LosesVouchersFirst(obs, {20}, [1, 2], root) {
      assert FirstIndex([1, 2], 1) == 0 && FirstIndex([1, 2], 2) == 1;
    }
  }

  /** Only the binding vouches for the product, and the patch is its member. */
  lemma ShopFacts()
    ensures forall b :: Vouches(SHOP_EVENTS, {20}, b, 1) <==> b == 2
    ensures IsRoot(SHOP) && !IsRoot(VOUCHER) && BaseAdmitted(SHOP_EVENTS, {20}, 1) && IsMember(SHOP_EVENTS, SHOP, 3)
  {
    var obs := SHOP_EVENTS;
    assert TypeOf(SHOP) == Some(Product) && TypeOf(VOUCHER) == Some(Binding) && TypeOf(EDIT) == Some(Patch);
    assert WithMarker(VOUCHER.refs, RootMark) == [ERef(1, RootMark)] && WithMarker(VOUCHER.refs, LinkMark) == [ERef(9, LinkMark)];
    assert WithMarker(EDIT.refs, RootMark) == [ERef(1, RootMark)];
    assert !Retracted(obs, 2, 20);
    assert Vouches(obs, {20}, 2, 1);
    assert forall b :: Vouches(obs, {20}, b, 1) ==> b == 2;
    assert ChainPatch(EDIT, SHOP) && IsMember(obs, SHOP, 3);
  }

  // ---------------------------------------------------------------- runs

  ghost function Run(model: Model, deltas: seq<AdmissionDelta>): Model
    decreases |deltas|
  {
    if deltas == [] then model else Run(Step(model, deltas[0]), deltas[1..])
  }

  /** No unobserve of the run strands anything at the moment it is applied. */
  ghost predicate NeverStrands(model: Model, deltas: seq<AdmissionDelta>)
    decreases |deltas|
  {
    deltas == []
    || ((deltas[0].Unobserve? ==> !Strands(model.obs, model.trusted, deltas[0].eventIds))
        && NeverStrands(Step(model, deltas[0]), deltas[1..]))
  }

  ghost predicate AllFit(deltas: seq<AdmissionDelta>) {
    forall d :: d in deltas ==> DeltaFits(d)
  }

  /** Over any run from the empty state that strands nothing, the reasons and the live bindings are the oracle's. */
  lemma RunAgreesWithOracle(deltas: seq<AdmissionDelta>, state: AdmitState)
    requires AllFit(deltas) && NeverStrands(EMPTY_MODEL, deltas)
    requires Represents(state, Run(EMPTY_MODEL, deltas))
    ensures IsIndex(state.reasons, Run(EMPTY_MODEL, deltas).obs, Run(EMPTY_MODEL, deltas).trusted)
    ensures state.observedById == Run(EMPTY_MODEL, deltas).obs && state.trusted == Run(EMPTY_MODEL, deltas).trusted
    ensures forall b :: b in state.liveBindings <==> Live(state.observedById, state.trusted, b)
    ensures forall b :: b in state.liveBindings ==> BindingEndpoints(state.observedById[b]) == Some(state.liveBindings[b])
  {
    assert ModelOk(EMPTY_MODEL);
    RunStrandsNothing(EMPTY_MODEL, deltas);
    ExactIffNothingStranded(state, Run(EMPTY_MODEL, deltas));
  }

  lemma {:induction false} RunStrandsNothing(model: Model, deltas: seq<AdmissionDelta>)
    requires ModelOk(model) && AllFit(deltas) && NeverStrands(model, deltas) && model.stranded == {}
    ensures Run(model, deltas).stranded == {}
    decreases |deltas|
  {
    if deltas != [] {
      StepOk(model, deltas[0]);
      if deltas[0].Unobserve? { StrandedIff(model, deltas[0].eventIds); }
      RunStrandsNothing(Step(model, deltas[0]), deltas[1..]);
    }
  }

  // ---------------------------------------------------------------- undoing a run

  predicate Forward(d: AdmissionDelta) { d.Observe? || d.Trust? }

  function IdSeq(events: seq<Event>): seq<Id> {
    seq(|events|, i requires 0 <= i < |events| => events[i].id)
  }

  /** The syntactic swap: observe against unobserve, trust against untrust. */
  function InvertDelta(d: AdmissionDelta): AdmissionDelta
    requires Forward(d)
  {
    match d
    case Observe(events) => Unobserve(IdSeq(events))
    case Trust(keys) => Untrust(keys)
  }

  /** The inverses of a sequence of forward deltas, last one first. */
  function Undo(deltas: seq<AdmissionDelta>): seq<AdmissionDelta>
    requires forall d :: d in deltas ==> Forward(d)
  {
    if deltas == [] then [] else Undo(deltas[1..]) + [InvertDelta(deltas[0])]
  }

  lemma {:induction false} RunAppend(model: Model, xs: seq<AdmissionDelta>, d: AdmissionDelta)
    ensures Run(model, xs + [d]) == Step(Run(model, xs), d)
    decreases |xs|
  {
    if xs == [] {
      assert xs + [d] == [d];
      assert Run(Step(model, d), []) == Step(model, d);
    } else {
      assert (xs + [d])[0] == xs[0] && (xs + [d])[1..] == xs[1..] + [d];
      RunAppend(Step(model, xs[0]), xs[1..], d);
    }
  }

  lemma {:induction false} RunKeepsOk(model: Model, deltas: seq<AdmissionDelta>)
    requires ModelOk(model) && AllFit(deltas)
    ensures ModelOk(Run(model, deltas))
    decreases |deltas|
  {
    if deltas != [] {
      StepOk(model, deltas[0]);
      RunKeepsOk(Step(model, deltas[0]), deltas[1..]);
    }
  }

  /** Some observe of the run lists an event with this id. */
  ghost predicate Lists(deltas: seq<AdmissionDelta>, id: Id) {
    deltas != [] && ((deltas[0].Observe? && id in IdSeq(deltas[0].events)) || Lists(deltas[1..], id))
  }

  ghost predicate Trusts(deltas: seq<AdmissionDelta>, key: Pubkey) {
    deltas != [] && ((deltas[0].Trust? && key in deltas[0].pubkeys) || Trusts(deltas[1..], key))
  }

  lemma {:induction false} RunAddsOnly(model: Model, deltas: seq<AdmissionDelta>)
    requires Keyed(model.obs) && forall d :: d in deltas ==> Forward(d)
    ensures Keyed(Run(model, deltas).obs)
    ensures forall id :: id in Run(model, deltas).obs ==> id in model.obs || Lists(deltas, id)
    ensures forall k :: k in Run(model, deltas).trusted ==> k in model.trusted || Trusts(deltas, k)
    decreases |deltas|
  {
    if deltas != [] {
      var d := deltas[0];
      var next := Step(model, d);
      if d.Observe? {
        AfterObserveKeeps(model.obs, d.events);
        forall id | id in next.obs && id !in model.obs ensures id in IdSeq(d.events) {
          var i :| 0 <= i < |d.events| && d.events[i] == next.obs[id];
          assert IdSeq(d.events)[i] == id;
        }
      }
      RunAddsOnly(next, deltas[1..]);
      hide IdSeq;
    }
  }

  /** Undoing takes away everything the run touched and adds nothing. */
  lemma {:induction false} UndoRemoves(model: Model, deltas: seq<AdmissionDelta>)
    requires forall d :: d in deltas ==> Forward(d)
    ensures forall id :: id in Run(model, Undo(deltas)).obs ==> id in model.obs && !Lists(deltas, id)
    ensures forall k :: k in Run(model, Undo(deltas)).trusted ==> k in model.trusted && !Trusts(deltas, k)
    decreases |deltas|
  {
    hide IdSeq;
    if deltas != [] {
      var rest := deltas[1..];
      UndoRemoves(model, rest);
      RunAppend(model, Undo(rest), InvertDelta(deltas[0]));
    }
  }

  lemma {:induction false} UndoFits(deltas: seq<AdmissionDelta>)
    requires forall d :: d in deltas ==> Forward(d)
    ensures AllFit(Undo(deltas))
  {
    if deltas != [] { UndoFits(deltas[1..]); }
  }

  lemma NothingStrandedOnNothing(m: Model)
    requires ModelOk(m) && m.obs == map[]
    ensures m.stranded == {}
  {
  }

  /**
   * Undoing any sequence of forward deltas, in reverse, from the empty state returns the empty
   * state: no restriction on the order of ids, because a stranded credit goes with its own event.
   */
  lemma UndoReturnsToEmpty(deltas: seq<AdmissionDelta>, state: AdmitState)
    requires AllFit(deltas) && forall d :: d in deltas ==> Forward(d)
    requires Represents(state, Run(Run(EMPTY_MODEL, deltas), Undo(deltas)))
    ensures state == EMPTY_ADMIT_STATE
  {
    assert ModelOk(EMPTY_MODEL);
    RunAddsOnly(EMPTY_MODEL, deltas);
    UndoRemoves(Run(EMPTY_MODEL, deltas), deltas);
    var m := Run(Run(EMPTY_MODEL, deltas), Undo(deltas));
    RunKeepsOk(EMPTY_MODEL, deltas);
    UndoFits(deltas);
    RunKeepsOk(Run(EMPTY_MODEL, deltas), Undo(deltas));
    assert forall id :: id !in m.obs.Keys;
    assert m.obs.Keys == {} && forall k :: k !in m.trusted;
    if m.trusted != {} { var _ := SomeElement(m.trusted); }
    assert m.obs == map[];
    NothingStrandedOnNothing(m);
    assert m == EMPTY_MODEL;
    EmptyRepresents();
    RepresentsUnique(state, EMPTY_ADMIT_STATE, EMPTY_MODEL);
  }

  // ---------------------------------------------------------------- admission and resolution

  ghost predicate Admitted(obs: Observed, trusted: set<Pubkey>, id: Id) {
    exists r :: HasReason(obs, trusted, id, r)
  }

  /** The branches a self-fork annotation lists; it is there even when the chain stopped before the fork. */
  ghost function AnnotatedBranches(annotations: seq<R.Annotation>): set<Id> {
    set a, b | a in annotations && a.SelfFork? && b in a.branches :: b.id
  }

  /** The ids of root-author patches a resolution reports. */
  ghost function Reported(res: R.Resolution): set<Id> {
    Elems(res.pending) + AnnotatedBranches(res.annotations)
    + match res.chain
      case Resolved(_, _, applied) => Elems(applied)
      case Halted(_, _, applied, at, _) => Elems(applied) + {at}
      case Aborted(_, _, applied, at, _) => Elems(applied) + {at}
      case Forked(_, _, branches) => Elems(branches)
      case Absent(_) => {}
  }

  lemma ReportedArePatches(apply: Applier, obs: Observed, rootId: Id, id: Id)
    requires Keyed(obs) && R.Patchable(obs, rootId)
    requires id in Reported(R.ResolveOf(apply, obs, rootId))
    ensures exists p :: p in R.Line(obs, rootId) && p.id == id
  {
    ReportedParts(apply, obs, rootId, id);
    hide R.Line, R.ResolveOf, R.RunOf, Canonical, IsRoot;
    var (path, fork) := R.WalkOf(obs, rootId);
    if id in IdsOf(R.HeldPatches(obs, rootId)) {
    } else if i :| 0 <= i < |path| && path[i].id == id {
      assert path[i] in R.Line(obs, rootId);
    } else {
      ForkOnLine(obs, rootId);
    }
  }

  /** A reported id is held, on the path, or a branch of the fork. */
  lemma ReportedParts(apply: Applier, obs: Observed, rootId: Id, id: Id)
    requires Keyed(obs) && R.Patchable(obs, rootId)
    requires id in Reported(R.ResolveOf(apply, obs, rootId))
    ensures var (path, fork) := R.WalkOf(obs, rootId);
            id in IdsOf(R.HeldPatches(obs, rootId)) || (exists i :: 0 <= i < |path| && path[i].id == id) || id in IdsOf(fork)
  {
    hide R.Line, R.HeldPatches, R.OverlaySet, R.AnnotationSet, R.Advance, Canonical, WalkedTo, IsRoot;
    var res := R.ResolveOf(apply, obs, rootId);
    var (path, fork) := R.WalkOf(obs, rootId);
    var run := R.RunOf(apply, obs, rootId);
    var n := |run.contents| - 1;
    if id in R.IdSeq(path[..n]) {
      var i :| 0 <= i < n && R.IdSeq(path[..n])[i] == id;
      assert path[i].id == id;
    } else if id in AnnotatedBranches(res.annotations) {
      AnnotatedAreBranches(apply, obs, rootId, id);
    }
  }

  lemma AnnotatedAreBranches(apply: Applier, obs: Observed, rootId: Id, id: Id)
    requires Keyed(obs) && R.Patchable(obs, rootId)
    requires id in AnnotatedBranches(R.ResolveOf(apply, obs, rootId).annotations)
    ensures id in IdsOf(R.WalkOf(obs, rootId).1)
  {
    var annotations := R.ResolveOf(apply, obs, rootId).annotations;
    hide R.HeldPatches, R.OverlaySet, R.ChainOf, R.AnnotationSet, R.WalkOf, IsRoot;
    var a, b :| a in annotations && a.SelfFork? && b in a.branches && b.id == id;
    assert a in Elems(annotations) && a in R.AnnotationSet(apply, obs, rootId);
    ForkAnnotated(apply, obs, rootId, a);
    assert b in Elems(a.branches);
  }

  lemma ForkAnnotated(apply: Applier, obs: Observed, rootId: Id, a: R.Annotation)
    requires Keyed(obs) && R.Patchable(obs, rootId) && a in R.AnnotationSet(apply, obs, rootId) && a.SelfFork?
    ensures Elems(a.branches) == R.BranchesOf(R.WalkOf(obs, rootId).1)
  {
    hide R.Line, R.OverlayEvents, R.RunOf, R.TrialOf, R.PatchesOf, R.BranchesOf, Canonical, WalkedTo, IsRoot;
    var (path, fork) := R.WalkOf(obs, rootId);
    R.PatchesKeyed(obs, rootId);
  }

  lemma ForkOnLine(obs: Observed, rootId: Id)
    requires Keyed(obs) && R.Patchable(obs, rootId)
    ensures R.WalkOf(obs, rootId).1 <= R.Line(obs, rootId)
  {
    hide R.Line, ReplyTarget;
  }

  /** If a root is admitted, so is every root-author patch its resolution reports, whatever its state. */
  lemma AdmittedRootCarriesItsChain(apply: Applier, obs: Observed, trusted: set<Pubkey>, rootId: Id, id: Id)
    requires Keyed(obs) && KindsFit(obs) && R.Patchable(obs, rootId) && Admitted(obs, trusted, rootId)
    requires id in Reported(R.ResolveOf(apply, obs, rootId))
    ensures HasReason(obs, trusted, id, RootChain(rootId))
  {
    ReportedArePatches(apply, obs, rootId, id);
    var p :| p in R.Line(obs, rootId) && p.id == id;
    R.PatchesKeyed(obs, rootId);
    hide TypeOf, RootTarget, R.ResolveOf;
    assert ChainPatch(p, obs[rootId]);
    RootReasons(obs, trusted, rootId);
  }

  /** A foreign patch of an observed root is admitted exactly when its own author is trusted. */
  lemma ForeignAdmittedIffTrusted(obs: Observed, trusted: set<Pubkey>, rootId: Id, o: Event)
    requires Keyed(obs) && KindsFit(obs) && rootId in obs
    requires o in R.PatchesOf(obs, rootId) && o.pubkey != obs[rootId].pubkey
    ensures Admitted(obs, trusted, o.id) <==> o.pubkey in trusted
  {
    R.PatchMember(obs, rootId, o);
    assert HasReason(obs, trusted, o.id, DirectTrust) <==> o.pubkey in trusted;
    forall r: Reason | !r.DirectTrust? ensures !HasReason(obs, trusted, o.id, r) {
      match r
      case ViaBinding(b) => assert Vouches(obs, trusted, b, o.id) ==> IsRoot(o);
      case RootChain(root) => assert root in obs ==> obs[root].id == root;
    }
  }

  /** Which ids a reader admits: by an index, or all of them. */
  type AdmissionView = Id -> bool

  function TrustedView(m: Reasons): AdmissionView { id => IsAdmitted(m, id) }

  const OPEN_VIEW: AdmissionView := _ => true

  /** Under the trusted view, `VisibleOverlays` keeps precisely the overlays of trusted authors, in the same order. */
  lemma VisibleOverlaysAreTrusted(apply: Applier, obs: Observed, trusted: set<Pubkey>, rootId: Id, m: Reasons)
    requires Keyed(obs) && KindsFit(obs) && R.Patchable(obs, rootId) && IsIndex(m, obs, trusted)
    ensures VisibleOverlays(R.ResolveOf(apply, obs, rootId).overlays, TrustedView(m))
            == TrustedOnly(R.ResolveOf(apply, obs, rootId).overlays, trusted)
  {
    var overlays := R.ResolveOf(apply, obs, rootId).overlays;
    forall o | o in overlays ensures IsAdmitted(m, o.id) <==> o.author in trusted {
      assert o in Elems(overlays);
      var e :| e in R.OverlayEvents(obs, rootId) && e.id == o.id && e.pubkey == o.author;
      ForeignAdmittedIffTrusted(obs, trusted, rootId, e);
      AdmittedMeans(m, o.id);
    }
    FiltersAgree(overlays, m, trusted);
  }

  function VisibleOverlays(overlays: seq<R.Overlay>, view: AdmissionView): seq<R.Overlay> {
    if overlays == [] then []
    else (if view(overlays[0].id) then [overlays[0]] else []) + VisibleOverlays(overlays[1..], view)
  }

  /** The open view hides nothing, and so shows whatever any other view shows. */
  lemma {:induction false} OpenViewShowsAll(overlays: seq<R.Overlay>)
    ensures VisibleOverlays(overlays, OPEN_VIEW) == overlays
  {
    if overlays != [] { OpenViewShowsAll(overlays[1..]); }
  }

  function TrustedOnly(overlays: seq<R.Overlay>, trusted: set<Pubkey>): seq<R.Overlay> {
    if overlays == [] then []
    else (if overlays[0].author in trusted then [overlays[0]] else []) + TrustedOnly(overlays[1..], trusted)
  }

  lemma {:induction false} FiltersAgree(overlays: seq<R.Overlay>, m: Reasons, trusted: set<Pubkey>)
    requires forall o :: o in overlays ==> (IsAdmitted(m, o.id) <==> o.author in trusted)
    ensures VisibleOverlays(overlays, TrustedView(m)) == TrustedOnly(overlays, trusted)
  {
    if overlays != [] { FiltersAgree(overlays[1..], m, trusted); }
  }
}
