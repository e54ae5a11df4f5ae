/**
 * The incremental bookkeeping: a working record of mutable maps and sets that each delta adjusts
 * in place and `Resync` brings back into line. Every loop visits its elements in arbitrary order.
 */
module AdmitDelta {
  import opened Prelude
  import opened Events
  import opened Admission
  import opened AdmitModel

  /** No root carries a `root-chain` credit; every such credit sits on an observed event. */
  ghost predicate ChainCreditsOk(m: Reasons, obs: Observed) {
    forall id, root :: Has(m, id, RootChain(root)) ==> id in obs && !IsRoot(obs[id])
  }

  /** With direct and binding reasons in place, "has any reason" is base admission for a root. */
  lemma RootAdmitted(m: Reasons, live: map<Id, Endpoints>, obs: Observed, trusted: set<Pubkey>, root: Id)
    requires DirectExact(m, obs, trusted) && BindingExact(m, live) && ChainCreditsOk(m, obs)
    requires ObservedRoot(obs, root)
    ensures IsAdmitted(m, root) <==> obs[root].pubkey in trusted || exists b :: b in live && EndsAt(live[b], root)
  {
    AdmittedMeans(m, root);
    hide Has, IsRoot, EndsAt, IsAdmitted;
    if r :| Has(m, root, r) {
      match r
      case DirectTrust =>
      case ViaBinding(b) => assert b in live && EndsAt(live[b], root);
      case RootChain(q) =>
    }
    if b :| b in live && EndsAt(live[b], root) { assert Has(m, root, ViaBinding(b)); }
    if obs[root].pubkey in trusted { assert Has(m, root, DirectTrust); }
  }

  lemma RootAdmittedExactly(m: Reasons, live: map<Id, Endpoints>, obs: Observed, trusted: set<Pubkey>, root: Id)
    requires DirectExact(m, obs, trusted) && BindingExact(m, live) && ChainCreditsOk(m, obs)
    requires ObservedRoot(obs, root) && LiveExact(live, obs, trusted)
    ensures IsAdmitted(m, root) <==> BaseAdmitted(obs, trusted, root)
  {
    RootAdmitted(m, live, obs, trusted, root);
    hide Has, IsRoot, EndsAt, IsAdmitted, BindingEndpoints, TypeOf, WellTyped, Retracted, DirectExact, BindingExact;
    if b :| b in live && EndsAt(live[b], root) { assert Vouches(obs, trusted, b, root); }
    if b :| Vouches(obs, trusted, b, root) { assert b in live && EndsAt(live[b], root); }
  }

  // ---------------------------------------------------------------- taking a list of ids down

  /** The bookkeeping once the ids of `prior` have had their turn, seen from the state `m0` before. */
  ghost predicate TakenDown(m: Reasons, live: map<Id, Endpoints>, obs: Observed, model: Model, m0: Reasons, prior: seq<Id>) {
    && obs == Without(model.obs, Elems(prior))
    && DirectExact(m, obs, model.trusted) && BindingExact(m, live)
    && LiveSound(live, model.obs)
    && (forall b :: b in live <==> Live(model.obs, model.trusted, b) && b !in prior)
    && (forall x, root {:trigger Has(m, x, RootChain(root))} {:trigger Has(m0, x, RootChain(root))} ::
          Has(m, x, RootChain(root)) <==>
          Has(m0, x, RootChain(root)) && x !in prior && !Uncascaded(model, prior, root))
  }

  /** A chain credit sits on an observed non-root, and on a member when its root is observed. */
  lemma ChainCreditPlace(model: Model, m0: Reasons, x: Id, root: Id)
    requires ModelOk(model) && ChainExact(m0, model.obs, model.trusted, model.stranded)
    requires Has(m0, x, RootChain(root))
    ensures x in model.obs && !IsRoot(model.obs[x])
    ensures ObservedRoot(model.obs, root) ==> IsMember(model.obs, model.obs[root], x)
  {
    if InChain(model.obs, model.trusted, root, x) {
      MembersAreNotRoots(model.obs, model.obs[root], x);
    }
  }

  lemma UncascadedStep(model: Model, prior: seq<Id>, id: Id)
    ensures forall root :: Uncascaded(model, prior + [id], root) <==>
              Uncascaded(model, prior, root)
              || (root == id && ObservedRoot(model.obs, id) && id !in prior && StillAdmitted(model.obs, model.trusted, prior, id))
  {
    hide IsRoot, StillAdmitted, FirstIndex;
    var longer := prior + [id];
    forall root
      ensures Uncascaded(model, longer, root) <==>
                Uncascaded(model, prior, root)
                || (root == id && ObservedRoot(model.obs, id) && id !in prior && StillAdmitted(model.obs, model.trusted, prior, id))
    {
      var k := FirstIndex(longer, root);
      if root in prior {
        assert longer[FirstIndex(prior, root)] == root;
        assert k < |prior| ==> prior[k] == root;
        assert longer[..k] == prior[..k];
      } else if root == id {
        assert longer[|prior|] == root;
        assert forall i :: 0 <= i < |prior| ==> longer[i] == prior[i];
        assert longer[..k] == prior;
      }
    }
  }

  lemma WithoutMore(obs: Observed, prior: seq<Id>, id: Id)
    ensures Without(obs, Elems(prior + [id])) == Without(obs, Elems(prior)) - {id}
  {
    ElemsAppend(prior, id);
  }

  /** An id that is not observed has no turn. */
  lemma AbsentStep(m: Reasons, live: map<Id, Endpoints>, obs: Observed, model: Model, m0: Reasons, prior: seq<Id>, id: Id)
    requires ModelOk(model) && ChainExact(m0, model.obs, model.trusted, model.stranded)
    requires TakenDown(m, live, obs, model, m0, prior) && id !in obs
    ensures TakenDown(m, live, obs, model, m0, prior + [id])
  {
    UncascadedStep(model, prior, id);
    WithoutMore(model.obs, prior, id);
    forall x, root | Has(m0, x, RootChain(root)) ensures x in model.obs { ChainCreditPlace(model, m0, x, root); }
    hide Has, Uncascaded, IsRoot, TypeOf, BindingEndpoints, WellTyped, Retracted, EndsAt, StillAdmitted;
    assert id in model.obs ==> id in prior;
  }

  /** When a root's turn comes, "has any reason" means trusted author or a voucher not yet taken down. */
  lemma TurnAdmitted(m: Reasons, live: map<Id, Endpoints>, obs: Observed, model: Model, m0: Reasons, prior: seq<Id>, id: Id)
    requires ModelOk(model) && ChainExact(m0, model.obs, model.trusted, model.stranded)
    requires TakenDown(m, live, obs, model, m0, prior) && ObservedRoot(obs, id)
    ensures id !in live
    ensures IsAdmitted(m, id) <==> StillAdmitted(model.obs, model.trusted, prior, id)
  {
    forall x, root | Has(m, x, RootChain(root)) ensures x in obs && !IsRoot(obs[x]) {
      assert Has(m0, x, RootChain(root)) && x !in prior;
      ChainCreditPlace(model, m0, x, root);
    }
    RootAdmitted(m, live, obs, model.trusted, id);
    hide Has, IsAdmitted, BindingEndpoints, WellTyped, Retracted, Uncascaded, EndsAt, DirectExact, BindingExact;
    if b :| b in live && EndsAt(live[b], id) { assert Vouches(model.obs, model.trusted, b, id) && b !in prior; }
    if b :| Vouches(model.obs, model.trusted, b, id) && b !in prior { assert b in live && EndsAt(live[b], id); }
  }

  /** The turn of an observed id, from the three effects it has on the reasons. */
  lemma TurnDone(m: Reasons, live: map<Id, Endpoints>, obs: Observed, m': Reasons, live': map<Id, Endpoints>,
                 model: Model, m0: Reasons, prior: seq<Id>, id: Id)
    requires ModelOk(model) && ChainExact(m0, model.obs, model.trusted, model.stranded)
    requires TakenDown(m, live, obs, model, m0, prior) && id in obs
    requires live' == live - {id} && BindingExact(m', live')
    requires forall x :: Has(m', x, DirectTrust) <==> Has(m, x, DirectTrust) && x != id
    requires forall x, root {:trigger Has(m', x, RootChain(root))} :: Has(m', x, RootChain(root)) <==>
               Has(m, x, RootChain(root)) && x != id
               && !(root == id && IsRoot(obs[id]) && StillAdmitted(model.obs, model.trusted, prior, id)
                    && IsMember(model.obs, obs[id], x))
    ensures TakenDown(m', live', obs - {id}, model, m0, prior + [id])
  {
    UncascadedStep(model, prior, id);
    WithoutMore(model.obs, prior, id);
    forall x, root | Has(m0, x, RootChain(root)) && ObservedRoot(model.obs, root)
      ensures IsMember(model.obs, model.obs[root], x)
    {
      ChainCreditPlace(model, m0, x, root);
    }
    hide Has, Uncascaded, IsRoot, TypeOf, BindingEndpoints, WellTyped, Retracted, EndsAt, StillAdmitted, IsMember, BindingExact, Live;
    assert id in model.obs && id !in prior;
  }

  class Working {
    var reasons: Reasons
    var liveBindings: map<Id, Endpoints>
    var trusted: set<Pubkey>
    var observedById: Observed

    constructor (state: AdmitState)
      ensures reasons == state.reasons && liveBindings == state.liveBindings
      ensures trusted == state.trusted && observedById == state.observedById
    {
      reasons, liveBindings := state.reasons, state.liveBindings;
      trusted, observedById := state.trusted, state.observedById;
    }

    method CreditReason(id: Id, r: Reason)
      modifies this`reasons
      ensures forall x, q :: Has(reasons, x, q) <==> Has(old(reasons), x, q) || (x == id && q == r)
    {
      CreditHas(reasons, id, r);
      reasons := Credit(reasons, id, r);
    }

    method UncreditReason(id: Id, r: Reason)
      modifies this`reasons
      ensures forall x, q :: Has(reasons, x, q) <==> Has(old(reasons), x, q) && !(x == id && q == r)
    {
      UncreditHas(reasons, id, r);
      reasons := Uncredit(reasons, id, r);
    }

    method BindingIsLive(binding: Event, kind5s: set<Event>) returns (live: bool)
      requires binding.id in observedById && observedById[binding.id] == binding && TypeOf(binding) == Some(Binding)
      requires DirectExact(reasons, observedById, trusted) && kind5s == Kind5s(observedById)
      ensures live <==> Live(observedById, trusted, binding.id)
    {
      HonouredMeans(observedById, binding.id, binding.pubkey);
      HasMeans(reasons, binding.id, DirectTrust);
      hide TypeOf, Has, BindingEndpoints, WellTyped, Retracted, IsHonouredDeletion, Kind5s;
      assert Has(reasons, binding.id, DirectTrust) <==> binding.pubkey in trusted;
      if !(binding.id in reasons && DirectTrust in reasons[binding.id]) { return false; }
      var endpoints := BindingEndpoints(binding);
      if endpoints.None? || !WellTyped(endpoints.value, observedById) { return false; }
      return !IsHonouredDeletion(binding.id, binding.pubkey, kind5s);
    }

    method ActivateBinding(binding: Event)
      requires BindingExact(reasons, liveBindings) && binding.id !in liveBindings
      requires BindingEndpoints(binding).Some?
      modifies this`reasons, this`liveBindings
      ensures liveBindings == old(liveBindings)[binding.id := BindingEndpoints(binding).value]
      ensures BindingExact(reasons, liveBindings)
      ensures forall x, q: Reason :: !q.ViaBinding? ==> (Has(reasons, x, q) <==> Has(old(reasons), x, q))
    {
      hide Has, BindingEndpoints;
      var endpoints := BindingEndpoints(binding);
      liveBindings := liveBindings[binding.id := endpoints.value];
      CreditReason(endpoints.value.rootId, ViaBinding(binding.id));
      CreditReason(endpoints.value.linkId, ViaBinding(binding.id));
    }

    method DeactivateBinding(bindingId: Id)
      requires BindingExact(reasons, liveBindings) && bindingId in liveBindings
      modifies this`reasons, this`liveBindings
      ensures liveBindings == old(liveBindings) - {bindingId}
      ensures BindingExact(reasons, liveBindings)
      ensures forall x, q: Reason :: !q.ViaBinding? ==> (Has(reasons, x, q) <==> Has(old(reasons), x, q))
    {
      hide Has;
      var endpoints := liveBindings[bindingId];
      liveBindings := liveBindings - {bindingId};
      UncreditReason(endpoints.rootId, ViaBinding(bindingId));
      UncreditReason(endpoints.linkId, ViaBinding(bindingId));
    }

    /** A binding that changes between live and dead is credited or withdrawn once. */
    method ResyncBinding(binding: Event, kind5s: set<Event>)
      requires binding.id in observedById && observedById[binding.id] == binding && TypeOf(binding) == Some(Binding)
      requires DirectExact(reasons, observedById, trusted) && kind5s == Kind5s(observedById)
      requires BindingExact(reasons, liveBindings)
      modifies this`reasons, this`liveBindings
      ensures BindingExact(reasons, liveBindings) && DirectExact(reasons, observedById, trusted)
      ensures forall b :: b != binding.id ==> (b in liveBindings <==> b in old(liveBindings))
      ensures forall b :: b in old(liveBindings) && b in liveBindings ==> liveBindings[b] == old(liveBindings)[b]
      ensures binding.id in liveBindings <==> Live(observedById, trusted, binding.id)
      ensures binding.id in liveBindings && binding.id !in old(liveBindings) ==>
                BindingEndpoints(binding) == Some(liveBindings[binding.id])
      ensures forall x, q: Reason :: !q.ViaBinding? ==> (Has(reasons, x, q) <==> Has(old(reasons), x, q))
    {
      hide Has, BindingExact, Kind5s;
      var shouldBeLive := BindingIsLive(binding, kind5s);
      var isLive := binding.id in liveBindings;
      if shouldBeLive && !isLive {
        ActivateBinding(binding);
      } else if !shouldBeLive && isLive {
        DeactivateBinding(binding.id);
      }
    }

    method ResyncBindings(kind5s: set<Event>)
      requires Keyed(observedById) && kind5s == Kind5s(observedById)
      requires DirectExact(reasons, observedById, trusted) && BindingExact(reasons, liveBindings)
      requires LiveSound(liveBindings, observedById)
      modifies this`reasons, this`liveBindings
      ensures DirectExact(reasons, observedById, trusted) && BindingExact(reasons, liveBindings)
      ensures LiveExact(liveBindings, observedById, trusted)
      ensures forall x, q: Reason :: !q.ViaBinding? ==> (Has(reasons, x, q) <==> Has(old(reasons), x, q))
    {
      hide Has, BindingExact, DirectExact, TypeOf, BindingEndpoints, Kind5s, WellTyped, Retracted;
      var todo: set<Id> := observedById.Keys;
      ghost var done: set<Id> := {};
      while todo != {}
        invariant done <= observedById.Keys && todo == observedById.Keys - done
        invariant DirectExact(reasons, observedById, trusted) && BindingExact(reasons, liveBindings)
        invariant LiveSound(liveBindings, observedById)
        invariant forall b :: b in done ==> (b in liveBindings <==> Live(observedById, trusted, b))
        invariant forall x, q: Reason :: !q.ViaBinding? ==> (Has(reasons, x, q) <==> Has(old(reasons), x, q))
        decreases |todo|
      {
        var id := Pick(todo);
        todo, done := todo - {id}, done + {id};
        if TypeOf(observedById[id]) == Some(Binding) {
          ResyncBinding(observedById[id], kind5s);
        }
      }
    }

    /** Credits or withdraws `root-chain` over the current members, then off every non-member. */
    method ResyncRootChain(root: Event, patches: set<Event>, kind5s: set<Event>)
      requires Keyed(observedById) && patches == Patches(observedById) && kind5s == Kind5s(observedById)
      modifies this`reasons
      ensures forall x, q :: q != RootChain(root.id) ==> (Has(reasons, x, q) <==> Has(old(reasons), x, q))
      ensures forall x :: Has(reasons, x, RootChain(root.id)) <==>
                IsAdmitted(old(reasons), root.id) && IsMember(observedById, root, x)
    {
      var admitted := IsAdmitted(reasons, root.id);
      var reason := RootChain(root.id);
      var members := RootChainMembers(root, patches, kind5s);
      forall x ensures x in members <==> IsMember(observedById, root, x) {
        MembersMean(observedById, root, x);
      }
      hide Has, IsMember, RootChainMembers, IsAdmitted, Patches, Kind5s;
      ReachMembers(members, reason, admitted);
      DropOthers(members, reason);
    }

    method ReachMembers(members: set<Id>, reason: Reason, admitted: bool)
      modifies this`reasons
      ensures forall x, q :: q != reason || x !in members ==> (Has(reasons, x, q) <==> Has(old(reasons), x, q))
      ensures forall x :: x in members ==> (Has(reasons, x, reason) <==> admitted)
    {
      hide Has;
      var todo := members;
      ghost var done: set<Id> := {};
      while todo != {}
        invariant done <= members && todo == members - done
        invariant forall x, q :: q != reason || x !in done ==> (Has(reasons, x, q) <==> Has(old(reasons), x, q))
        invariant forall x :: x in done ==> (Has(reasons, x, reason) <==> admitted)
        decreases |todo|
      {
        var id := Pick(todo);
        if admitted { CreditReason(id, reason); } else { UncreditReason(id, reason); }
        todo, done := todo - {id}, done + {id};
      }
    }

    method DropOthers(members: set<Id>, reason: Reason)
      modifies this`reasons
      ensures forall x, q :: q != reason || x in members ==> (Has(reasons, x, q) <==> Has(old(reasons), x, q))
      ensures forall x :: x !in members ==> !Has(reasons, x, reason)
    {
      forall x | x !in reasons ensures !Has(reasons, x, reason) { HasMeans(reasons, x, reason); }
      hide Has;
      var todo: set<Id> := reasons.Keys;
      while todo != {}
        invariant forall x, q :: q != reason || x in members ==> (Has(reasons, x, q) <==> Has(old(reasons), x, q))
        invariant forall x :: x !in members && x !in todo ==> !Has(reasons, x, reason)
        decreases |todo|
      {
        var id := Pick(todo);
        if id !in members { UncreditReason(id, reason); }
        todo := todo - {id};
      }
    }

    method ResyncRootChains(patches: set<Event>, kind5s: set<Event>)
      requires Keyed(observedById) && KindsFit(observedById)
      requires patches == Patches(observedById) && kind5s == Kind5s(observedById)
      requires DirectExact(reasons, observedById, trusted) && BindingExact(reasons, liveBindings)
      requires LiveExact(liveBindings, observedById, trusted) && ChainCreditsOk(reasons, observedById)
      modifies this`reasons
      ensures DirectExact(reasons, observedById, trusted) && BindingExact(reasons, liveBindings)
      ensures forall x, root :: Has(reasons, x, RootChain(root)) <==>
                if ObservedRoot(observedById, root) then InChain(observedById, trusted, root, x)
                else Has(old(reasons), x, RootChain(root))
    {
      hide TypeOf, BindingEndpoints, LiveExact, IsMember, BaseAdmitted, IsRoot, Patches, Kind5s, EndsAt, KindFitsType, Has;
      var todo: set<Id> := observedById.Keys;
      ghost var done: set<Id> := {};
      while todo != {}
        invariant done <= observedById.Keys && todo == observedById.Keys - done
        invariant DirectExact(reasons, observedById, trusted) && BindingExact(reasons, liveBindings)
        invariant ChainCreditsOk(reasons, observedById)
        invariant forall x, root :: Has(reasons, x, RootChain(root)) <==>
                    if root in done && ObservedRoot(observedById, root) then InChain(observedById, trusted, root, x)
                    else Has(old(reasons), x, RootChain(root))
        decreases |todo|
      {
        var id := Pick(todo);
        todo, done := todo - {id}, done + {id};
        if IsRoot(observedById[id]) {
          RootAdmittedExactly(reasons, liveBindings, observedById, trusted, id);
          forall x | IsMember(observedById, observedById[id], x) ensures x in observedById && !IsRoot(observedById[x]) {
            MembersAreNotRoots(observedById, observedById[id], x);
            MemberIsObserved(observedById, observedById[id], x);
          }
          ResyncRootChain(observedById[id], patches, kind5s);
        }
      }
    }

    /** Bindings first, then root chains: a root's admission is read after every binding is settled. */
    method Resync()
      requires Keyed(observedById) && KindsFit(observedById)
      requires DirectExact(reasons, observedById, trusted) && BindingExact(reasons, liveBindings)
      requires LiveSound(liveBindings, observedById) && ChainCreditsOk(reasons, observedById)
      modifies this`reasons, this`liveBindings
      ensures DirectExact(reasons, observedById, trusted) && BindingExact(reasons, liveBindings)
      ensures LiveExact(liveBindings, observedById, trusted)
      ensures forall x, root :: Has(reasons, x, RootChain(root)) <==>
                if ObservedRoot(observedById, root) then InChain(observedById, trusted, root, x)
                else Has(old(reasons), x, RootChain(root))
    {
      var patches := Patches(observedById);
      var kind5s := Kind5s(observedById);
      hide TypeOf, LiveExact, LiveSound, Live, DirectExact, BindingExact, InChain, IsRoot, Patches, Kind5s, KindFitsType, Has;
      ResyncBindings(kind5s);
      ResyncRootChains(patches, kind5s);
    }
  
    // -------------------------------------------------------------- observe, trust, untrust

    method ObserveAll(events: seq<Event>)
      requires DirectExact(reasons, observedById, trusted)
      modifies this`reasons, this`observedById
      ensures observedById == AfterObserve(old(observedById), events)
      ensures DirectExact(reasons, observedById, trusted)
      ensures forall x, q :: q != DirectTrust ==> (Has(reasons, x, q) <==> Has(old(reasons), x, q))
    {
      hide Has;
      for i := 0 to |events|
        invariant observedById == AfterObserve(old(observedById), events[..i])
        invariant DirectExact(reasons, observedById, trusted)
        invariant forall x, q :: q != DirectTrust ==> (Has(reasons, x, q) <==> Has(old(reasons), x, q))
      {
        assert events[..i + 1][..i] == events[..i];
        var e := events[i];
        if e.id in observedById { continue; }
        observedById := observedById[e.id := e];
        if e.pubkey in trusted { CreditReason(e.id, DirectTrust); }
      }
      assert events[..|events|] == events;
    }

    /** Gives every observed event of `keys` its direct trust, or takes it away. */
    method SetDirectTrust(keys: set<Pubkey>, given: bool)
      modifies this`reasons
      ensures forall x, q :: q != DirectTrust ==> (Has(reasons, x, q) <==> Has(old(reasons), x, q))
      ensures forall x :: Has(reasons, x, DirectTrust) <==>
                if x in observedById && observedById[x].pubkey in keys then given else Has(old(reasons), x, DirectTrust)
    {
      hide Has;
      var todo: set<Id> := observedById.Keys;
      ghost var done: set<Id> := {};
      while todo != {}
        invariant done <= observedById.Keys && todo == observedById.Keys - done
        invariant forall x, q :: q != DirectTrust ==> (Has(reasons, x, q) <==> Has(old(reasons), x, q))
        invariant forall x :: Has(reasons, x, DirectTrust) <==>
                    if x in done && observedById[x].pubkey in keys then given else Has(old(reasons), x, DirectTrust)
        decreases |todo|
      {
        var id := Pick(todo);
        if observedById[id].pubkey in keys {
          if given { CreditReason(id, DirectTrust); } else { UncreditReason(id, DirectTrust); }
        }
        todo, done := todo - {id}, done + {id};
      }
    }

    method TrustAll(pubkeys: seq<Pubkey>)
      requires DirectExact(reasons, observedById, trusted)
      modifies this`reasons, this`trusted
      ensures trusted == old(trusted) + Elems(pubkeys) && DirectExact(reasons, observedById, trusted)
      ensures forall x, q :: q != DirectTrust ==> (Has(reasons, x, q) <==> Has(old(reasons), x, q))
    {
      hide Has;
      var newly := set k | k in pubkeys && k !in trusted;
      trusted := trusted + newly;
      SetDirectTrust(newly, true);
    }

    method UntrustAll(pubkeys: seq<Pubkey>)
      requires DirectExact(reasons, observedById, trusted)
      modifies this`reasons, this`trusted
      ensures trusted == old(trusted) - Elems(pubkeys) && DirectExact(reasons, observedById, trusted)
      ensures forall x, q :: q != DirectTrust ==> (Has(reasons, x, q) <==> Has(old(reasons), x, q))
    {
      hide Has;
      var newly := set k | k in pubkeys && k in trusted;
      trusted := trusted - newly;
      SetDirectTrust(newly, false);
    }

    // -------------------------------------------------------------- unobserve

    /** Everything `id` was credited for its own presence: direct trust and root chains, not bindings. */
    method StripOwnReasons(id: Id)
      modifies this`reasons
      ensures forall x, q :: Has(reasons, x, q) <==> Has(old(reasons), x, q) && !(x == id && !q.ViaBinding?)
    {
      var todo := if id in reasons then reasons[id] else {};
      forall q | q !in todo ensures !Has(reasons, id, q) { HasMeans(reasons, id, q); }
      hide Has;
      while todo != {}
        invariant forall x, q: Reason :: x != id || q.ViaBinding? ==> (Has(reasons, x, q) <==> Has(old(reasons), x, q))
        invariant forall q: Reason :: q !in todo && !q.ViaBinding? ==> !Has(reasons, id, q)
        decreases |todo|
      {
        var r := Pick(todo);
        if !r.ViaBinding? { UncreditReason(id, r); }
        todo := todo - {r};
      }
    }

    method UnobserveOne(id: Id, patches: set<Event>, kind5s: set<Event>, ghost model: Model, ghost m0: Reasons, ghost prior: seq<Id>)
      requires ModelOk(model) && ChainExact(m0, model.obs, model.trusted, model.stranded)
      requires patches == Patches(model.obs) && kind5s == Kind5s(model.obs) && trusted == model.trusted
      requires TakenDown(reasons, liveBindings, observedById, model, m0, prior)
      modifies this`reasons, this`liveBindings, this`observedById
      ensures TakenDown(reasons, liveBindings, observedById, model, m0, prior + [id])
    {
      UncascadedStep(model, prior, id);
      if id !in observedById {
        AbsentStep(reasons, liveBindings, observedById, model, m0, prior, id);
        return;
      }
      var e := observedById[id];
      if IsRoot(e) { TurnAdmitted(reasons, liveBindings, observedById, model, m0, prior, id); }
      forall x ensures x in RootChainMembers(e, patches, kind5s) <==> IsMember(model.obs, e, x) {
        MembersMean(model.obs, e, x);
      }
      hide Has, IsRoot, IsAdmitted, RootChainMembers, IsMember, Patches, Kind5s, Uncascaded, ModelOk, EndsAt, ChainExact,
        StillAdmitted, TakenDown;
      TakenBindings(reasons, liveBindings, observedById, model, m0, prior);
      ghost var m, live, obs := reasons, liveBindings, observedById;
      if id in liveBindings { DeactivateBinding(id); }
      if IsRoot(e) && IsAdmitted(reasons, id) {
        ReachMembers(RootChainMembers(e, patches, kind5s), RootChain(id), false);
      }
      StripOwnReasons(id);
      observedById := observedById - {id};
      TurnDone(m, live, obs, reasons, liveBindings, model, m0, prior, id);
    }

    method UnobserveAll(ids: seq<Id>, ghost model: Model)
      requires Represents(AdmitState(reasons, liveBindings, trusted, observedById), model)
      modifies this`reasons, this`liveBindings, this`observedById
      ensures TakenDown(reasons, liveBindings, observedById, model, old(reasons), ids)
    {
      var patches := Patches(observedById);
      var kind5s := Kind5s(observedById);
      ghost var m0 := reasons;
      NothingTakenDown(reasons, liveBindings, model);
      hide TakenDown, ModelOk, ChainExact, Patches, Kind5s, LiveExact, DirectExact, BindingExact;
      for i := 0 to |ids|
        invariant TakenDown(reasons, liveBindings, observedById, model, m0, ids[..i])
      {
        assert ids[..i + 1] == ids[..i] + [ids[i]];
        UnobserveOne(ids[i], patches, kind5s, model, m0, ids[..i]);
      }
      assert ids[..|ids|] == ids;
    }
  }

  lemma TakenBindings(m: Reasons, live: map<Id, Endpoints>, obs: Observed, model: Model, m0: Reasons, prior: seq<Id>)
    requires TakenDown(m, live, obs, model, m0, prior)
    ensures BindingExact(m, live)
    ensures forall id :: id in obs ==> id in model.obs && obs[id] == model.obs[id]
  {
  }

  lemma NothingTakenDown(m: Reasons, live: map<Id, Endpoints>, model: Model)
    requires Represents(AdmitState(m, live, model.trusted, model.obs), model)
    ensures TakenDown(m, live, model.obs, model, m, [])
  {
    assert Without(model.obs, Elems([])) == model.obs;
  }

  lemma MemberIsObserved(obs: Observed, root: Event, id: Id)
    requires IsMember(obs, root, id)
    ensures id in obs
  {
  }

  // ---------------------------------------------------------------- the entry point

  /** After a list was taken down, the credits that stay without an observed root are the stranded ones. */
  lemma LeftBehind(m: Reasons, live: map<Id, Endpoints>, obs: Observed, model: Model, m0: Reasons, ids: seq<Id>, x: Id, root: Id)
    requires ModelOk(model) && ChainExact(m0, model.obs, model.trusted, model.stranded)
    requires TakenDown(m, live, obs, model, m0, ids) && !ObservedRoot(obs, root)
    ensures Has(m, x, RootChain(root)) <==> Left(x, root) in Step(model, Unobserve(ids)).stranded
  {
    hide Has, IsRoot, IsMember, Live, StillAdmitted, FirstIndex, DirectExact, BindingExact, LiveSound, Uncascaded, LosesVouchersFirst, BaseAdmitted;
    assert Has(m, x, RootChain(root)) <==> Has(m0, x, RootChain(root)) && x !in ids && !Uncascaded(model, ids, root);
    assert Has(m0, x, RootChain(root)) <==> InChain(model.obs, model.trusted, root, x) || Left(x, root) in model.stranded;
    if ObservedRoot(model.obs, root) {
      assert Left(x, root) !in model.stranded && root in ids;
      if InChain(model.obs, model.trusted, root, x) {
        MemberIsObserved(model.obs, model.obs[root], x);
        TurnsMissed(model, ids, root);
      }
    } else {
      NeverUncascaded(model, ids, root);
      assert Left(x, root) !in StrandedBy(model, ids);
    }
  }

  lemma NeverUncascaded(model: Model, ids: seq<Id>, root: Id)
    requires !ObservedRoot(model.obs, root)
    ensures !Uncascaded(model, ids, root) && !LosesVouchersFirst(model.obs, model.trusted, ids, root)
  {
  }

  /** A base-admitted root misses its un-cascade exactly when every reason it has goes first. */
  lemma TurnsMissed(model: Model, ids: seq<Id>, root: Id)
    requires ObservedRoot(model.obs, root) && root in ids && BaseAdmitted(model.obs, model.trusted, root)
    ensures !Uncascaded(model, ids, root) <==> LosesVouchersFirst(model.obs, model.trusted, ids, root)
  {
    hide Vouches, IsRoot, FirstIndex;
    var k := FirstIndex(ids, root);
    forall b ensures b in ids[..k] <==> FirstIndex(ids, b) < k {
      var j := FirstIndex(ids, b);
      if b in ids[..k] {
        var i :| 0 <= i < k && ids[..k][i] == b;
        assert ids[i] == b;
      }
      if j < k { assert ids[..k][j] == b; }
    }
  }

  /** The state a working record holds once its emptied reason sets are dropped. */
  lemma Settled(m: Reasons, live: map<Id, Endpoints>, model: Model)
    requires ModelOk(model)
    requires DirectExact(m, model.obs, model.trusted) && BindingExact(m, live) && LiveExact(live, model.obs, model.trusted)
    requires ChainExact(m, model.obs, model.trusted, model.stranded)
    ensures Represents(AdmitState(Trim(m), live, model.trusted, model.obs), model)
  {
    TrimHas(m);
    hide Has, Trim, Live, InChain, LiveSound;
  }

  /** The bookkeeping after a delta's own adjustments, waiting for the resync. */
  ghost predicate Disturbed(m: Reasons, live: map<Id, Endpoints>, obs: Observed, trusted: set<Pubkey>, next: Model) {
    && obs == next.obs && trusted == next.trusted
    && DirectExact(m, obs, trusted) && BindingExact(m, live) && LiveSound(live, obs) && ChainCreditsOk(m, obs)
    && (forall x, root {:trigger Has(m, x, RootChain(root))} :: !ObservedRoot(obs, root) ==>
          (Has(m, x, RootChain(root)) <==> Left(x, root) in next.stranded))
  }

  lemma DisturbedByAdding(m: Reasons, live: map<Id, Endpoints>, obs: Observed, trusted: set<Pubkey>, m0: Reasons, model: Model, delta: AdmissionDelta)
    requires ModelOk(model) && ChainExact(m0, model.obs, model.trusted, model.stranded)
    requires BindingExact(m0, live) && LiveSound(live, model.obs)
    requires !delta.Unobserve? && obs == Step(model, delta).obs && trusted == Step(model, delta).trusted
    requires DirectExact(m, obs, trusted)
    requires forall x, q {:trigger Has(m, x, q)} :: q != DirectTrust ==> (Has(m, x, q) <==> Has(m0, x, q))
    ensures Disturbed(m, live, obs, trusted, Step(model, delta))
  {
    if delta.Observe? { AfterObserveKeeps(model.obs, delta.events); }
    forall x, root | Has(m, x, RootChain(root)) ensures x in obs && !IsRoot(obs[x]) {
      ChainCreditPlace(model, m0, x, root);
    }
    hide Has, IsRoot, BaseAdmitted, IsMember, DirectExact, TypeOf, BindingEndpoints, EndsAt;
    assert BindingExact(m, live) by {
      assert forall x, b :: Has(m, x, ViaBinding(b)) <==> Has(m0, x, ViaBinding(b));
    }
    forall x, root | !ObservedRoot(obs, root)
      ensures Has(m, x, RootChain(root)) <==> Left(x, root) in Step(model, delta).stranded
    {
      assert Has(m, x, RootChain(root)) <==> Has(m0, x, RootChain(root));
      assert !ObservedRoot(model.obs, root);
      assert Left(x, root) in model.stranded <==> Left(x, root) in Step(model, delta).stranded;
    }
  }

  lemma DisturbedByTakingDown(m: Reasons, live: map<Id, Endpoints>, obs: Observed, m0: Reasons, model: Model, ids: seq<Id>)
    requires ModelOk(model) && ChainExact(m0, model.obs, model.trusted, model.stranded)
    requires TakenDown(m, live, obs, model, m0, ids)
    ensures Disturbed(m, live, obs, model.trusted, Step(model, Unobserve(ids)))
  {
    forall x, root | Has(m, x, RootChain(root)) ensures x in obs && !IsRoot(obs[x]) {
      assert Has(m0, x, RootChain(root)) && x !in ids;
      ChainCreditPlace(model, m0, x, root);
    }
    forall x, root | !ObservedRoot(obs, root)
      ensures Has(m, x, RootChain(root)) <==> Left(x, root) in Step(model, Unobserve(ids)).stranded
    {
      LeftBehind(m, live, obs, model, m0, ids, x, root);
    }
    hide Has, IsRoot, TypeOf, BindingEndpoints, WellTyped, Retracted, Uncascaded, EndsAt, StrandedBy, ChainExact;
    assert LiveSound(live, obs);
  }

  /** Chain credits after a resync: exact for observed roots, what was left behind for the others. */
  lemma ChainsSettled(m: Reasons, before: Reasons, next: Model)
    requires forall x, root {:trigger Has(m, x, RootChain(root))} :: Has(m, x, RootChain(root)) <==>
               if ObservedRoot(next.obs, root) then InChain(next.obs, next.trusted, root, x) else Has(before, x, RootChain(root))
    requires forall x, root {:trigger Has(before, x, RootChain(root))} :: !ObservedRoot(next.obs, root) ==>
               (Has(before, x, RootChain(root)) <==> Left(x, root) in next.stranded)
    requires StrandedOk(next.stranded, next.obs)
    ensures ChainExact(m, next.obs, next.trusted, next.stranded)
  {
    hide Has, IsRoot, BaseAdmitted, IsMember;
  }

  /** Applies one delta; the new state is the one the model steps to. */
  method ApplyDelta(state: AdmitState, delta: AdmissionDelta, ghost model: Model) returns (next: AdmitState)
    requires Represents(state, model) && DeltaFits(delta)
    ensures Represents(next, Step(model, delta))
  {
    var w := new Working(state);
    StepOk(model, delta);
    ghost var after := Step(model, delta);
    hide Has, TypeOf, BindingEndpoints, IsRoot, Live, InChain, IsDeletion, Trim, StrandedOk, StrandedBy, ChainExact, BindingExact,
      TakenDown, DirectExact;
    match delta {
      case Observe(events) =>
        w.ObserveAll(events);
        DisturbedByAdding(w.reasons, w.liveBindings, w.observedById, w.trusted, state.reasons, model, delta);
      case Unobserve(ids) =>
        w.UnobserveAll(ids, model);
        DisturbedByTakingDown(w.reasons, w.liveBindings, w.observedById, state.reasons, model, ids);
      case Trust(pubkeys) =>
        w.TrustAll(pubkeys);
        DisturbedByAdding(w.reasons, w.liveBindings, w.observedById, w.trusted, state.reasons, model, delta);
      case Untrust(pubkeys) =>
        w.UntrustAll(pubkeys);
        DisturbedByAdding(w.reasons, w.liveBindings, w.observedById, w.trusted, state.reasons, model, delta);
    }
    hide LiveSound, LiveExact, ChainCreditsOk;
    ghost var before := w.reasons;
    w.Resync();
    ChainsSettled(w.reasons, before, after);
    Settled(w.reasons, w.liveBindings, after);
    return AdmitState(Trim(w.reasons), w.liveBindings, w.trusted, w.observedById);
  }
}
