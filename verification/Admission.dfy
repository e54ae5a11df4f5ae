/**
 * Admission as reachability through trust, and `ComputeAdmission`, the full recompute that serves
 * as the oracle for the incremental bookkeeping.
 */
module Admission {
  import opened Prelude
  import opened Events

  datatype Reason = DirectTrust | ViaBinding(bindingId: Id) | RootChain(rootId: Id)

  /** Why each id is admitted. An absent id and an empty set both mean "not admitted". */
  type Reasons = map<Id, set<Reason>>

  datatype Endpoints = Endpoints(rootId: Id, linkId: Id)

  predicate Has(m: Reasons, id: Id, r: Reason) { id in m && r in m[id] }

  predicate IsAdmitted(m: Reasons, id: Id) { id in m && m[id] != {} }

  function Credit(m: Reasons, id: Id, r: Reason): Reasons {
    m[id := (if id in m then m[id] else {}) + {r}]
  }

  function Uncredit(m: Reasons, id: Id, r: Reason): Reasons {
    if id in m then m[id := m[id] - {r}] else m
  }

  /** Ids whose last reason was withdrawn are dropped. */
  function Trim(m: Reasons): Reasons {
    map id | id in m && m[id] != {} :: m[id]
  }

  lemma CreditHas(m: Reasons, id: Id, r: Reason)
    ensures forall x, q :: Has(Credit(m, id, r), x, q) <==> Has(m, x, q) || (x == id && q == r)
  {
  }

  lemma UncreditHas(m: Reasons, id: Id, r: Reason)
    ensures forall x, q :: Has(Uncredit(m, id, r), x, q) <==> Has(m, x, q) && !(x == id && q == r)
  {
  }

  lemma TrimHas(m: Reasons)
    ensures forall x, q :: Has(Trim(m), x, q) <==> Has(m, x, q)
    ensures forall x :: x in Trim(m) ==> Trim(m)[x] != {}
  {
  }

  lemma AdmittedMeans(m: Reasons, id: Id)
    ensures IsAdmitted(m, id) <==> exists r :: Has(m, id, r)
  {
    if IsAdmitted(m, id) {
      var r :| r in m[id];
      assert Has(m, id, r);
    }
  }

  // ---------------------------------------------------------------- what is admitted

  /** Exactly one root endpoint and one link endpoint, or nothing. */
  function BindingEndpoints(b: Event): Option<Endpoints> {
    var roots, links := WithMarker(b.refs, RootMark), WithMarker(b.refs, LinkMark);
    if |roots| != 1 || |links| != 1 then None else Some(Endpoints(roots[0].id, links[0].id))
  }

  /** An observed root endpoint is a Product and an observed link endpoint a Metadata. */
  predicate WellTyped(ends: Endpoints, obs: Observed) {
    && (ends.rootId in obs ==> TypeOf(obs[ends.rootId]) == Some(Product))
    && (ends.linkId in obs ==> TypeOf(obs[ends.linkId]) == Some(Metadata))
  }

  predicate EndsAt(ends: Endpoints, id: Id) { id == ends.rootId || id == ends.linkId }

  /** A binding that vouches for its endpoints: trusted author, well formed, not retracted. */
  ghost predicate Live(obs: Observed, trusted: set<Pubkey>, b: Id) {
    && b in obs && TypeOf(obs[b]) == Some(Binding) && obs[b].pubkey in trusted
    && BindingEndpoints(obs[b]).Some? && WellTyped(BindingEndpoints(obs[b]).value, obs)
    && !Retracted(obs, b, obs[b].pubkey)
  }

  ghost predicate Vouches(obs: Observed, trusted: set<Pubkey>, b: Id, id: Id) {
    Live(obs, trusted, b) && EndsAt(BindingEndpoints(obs[b]).value, id)
  }

  /** Admitted by direct trust or by a live binding: the reasons a root can have. */
  ghost predicate BaseAdmitted(obs: Observed, trusted: set<Pubkey>, id: Id) {
    (id in obs && obs[id].pubkey in trusted) || exists b :: Vouches(obs, trusted, b, id)
  }

  predicate ChainPatch(p: Event, root: Event) {
    TypeOf(p) == Some(Patch) && p.pubkey == root.pubkey && RootTarget(p) == Some(root.id)
  }

  /** A root-author patch of `root`, or the root author's deletion of the root or of such a patch. */
  ghost predicate IsMember(obs: Observed, root: Event, id: Id) {
    && id in obs && obs[id].pubkey == root.pubkey
    && (ChainPatch(obs[id], root)
        || (IsDeletion(obs[id])
            && exists t :: t in RefIds(obs[id]) && (t == root.id || (t in obs && ChainPatch(obs[t], root)))))
  }

  /** The meaning of each reason, with no bookkeeping at all. */
  ghost predicate HasReason(obs: Observed, trusted: set<Pubkey>, id: Id, r: Reason) {
    match r
    case DirectTrust => id in obs && obs[id].pubkey in trusted
    case ViaBinding(b) => Vouches(obs, trusted, b, id)
    case RootChain(root) => root in obs && IsRoot(obs[root]) && BaseAdmitted(obs, trusted, root) && IsMember(obs, obs[root], id)
  }

  /** `m` is the admission index of an observed set and a trust set. */
  ghost predicate IsIndex(m: Reasons, obs: Observed, trusted: set<Pubkey>) {
    && (forall id, r :: Has(m, id, r) <==> HasReason(obs, trusted, id, r))
    && (forall id :: id in m ==> m[id] != {})
  }

  /** An observed set and a trust set have one admission index. */
  lemma IndexUnique(m: Reasons, n: Reasons, obs: Observed, trusted: set<Pubkey>)
    requires IsIndex(m, obs, trusted) && IsIndex(n, obs, trusted)
    ensures m == n
  {
    SameHas(m, n);
  }

  lemma SameHas(m: Reasons, n: Reasons)
    requires forall id, r :: Has(m, id, r) <==> Has(n, id, r)
    requires forall id :: id in m ==> m[id] != {}
    requires forall id :: id in n ==> n[id] != {}
    ensures m == n
  {
    forall id ensures id in m <==> id in n
              ensures id in m && id in n ==> m[id] == n[id]
    {
      if id in m { var r :| r in m[id]; assert Has(m, id, r); assert Has(n, id, r); }
      if id in n { var r :| r in n[id]; assert Has(n, id, r); assert Has(m, id, r); }
      if id in m && id in n {
        forall r ensures r in m[id] <==> r in n[id] { assert Has(m, id, r) <==> Has(n, id, r); }
      }
    }
  }

  /** No root is a member of a root chain: patches are not roots, and a typed event is not a deletion. */
  lemma MembersAreNotRoots(obs: Observed, root: Event, id: Id)
    requires KindsFit(obs) && IsMember(obs, root, id)
    ensures !IsRoot(obs[id])
  {
  }

  // ---------------------------------------------------------------- shared filters

  function Kind5s(obs: Observed): set<Event> { set id | id in obs && IsDeletion(obs[id]) :: obs[id] }

  function Patches(obs: Observed): set<Event> { set id | id in obs && TypeOf(obs[id]) == Some(Patch) :: obs[id] }

  predicate IsHonouredDeletion(targetId: Id, targetPubkey: Pubkey, kind5s: set<Event>) {
    exists d :: d in kind5s && d.pubkey == targetPubkey && targetId in RefIds(d)
  }

  function RootChainMembers(root: Event, patches: set<Event>, kind5s: set<Event>): set<Id> {
    var candidates := set p | p in patches && p.pubkey == root.pubkey && RootTarget(p) == Some(root.id) :: p.id;
    candidates + set d | d in kind5s && d.pubkey == root.pubkey
                         && exists t :: t in RefIds(d) && (t == root.id || t in candidates) :: d.id
  }

  lemma HonouredMeans(obs: Observed, id: Id, author: Pubkey)
    ensures IsHonouredDeletion(id, author, Kind5s(obs)) <==> Retracted(obs, id, author)
  {
    hide RefIds, IsDeletion;
    if Retracted(obs, id, author) {
      var d :| d in obs && IsDeletion(obs[d]) && obs[d].pubkey == author && id in RefIds(obs[d]);
      assert obs[d] in Kind5s(obs);
    }
  }

  lemma MembersMean(obs: Observed, root: Event, id: Id)
    requires Keyed(obs)
    ensures id in RootChainMembers(root, Patches(obs), Kind5s(obs)) <==> IsMember(obs, root, id)
  {
    hide RefIds, IsDeletion, TypeOf, RootTarget;
    var candidates := set p | p in Patches(obs) && p.pubkey == root.pubkey && RootTarget(p) == Some(root.id) :: p.id;
    forall t ensures t in candidates <==> t in obs && ChainPatch(obs[t], root) {
      if t in obs && ChainPatch(obs[t], root) { assert obs[t] in Patches(obs); }
    }
    if IsMember(obs, root, id) && IsDeletion(obs[id]) { assert obs[id] in Kind5s(obs); }
  }

  // ---------------------------------------------------------------- the oracle

  method CreditAll(m0: Reasons, ids: set<Id>, r: Reason) returns (m: Reasons)
    ensures forall x, q :: Has(m, x, q) <==> Has(m0, x, q) || (x in ids && q == r)
  {
    m := m0;
    var todo := ids;
    ghost var done: set<Id> := {};
    while todo != {}
      invariant done <= ids && todo == ids - done
      invariant forall x, q :: Has(m, x, q) <==> Has(m0, x, q) || (x in done && q == r)
      decreases |todo|
    {
      var id := Pick(todo);
      CreditHas(m, id, r);
      m := Credit(m, id, r);
      todo, done := todo - {id}, done + {id};
    }
  }

  /** Full recompute over everything observed, in any order. */
  method ComputeAdmission(events: seq<Event>, trusted: set<Pubkey>) returns (m: Reasons)
    requires KindsFit(ById(events))
    ensures IsIndex(m, ById(events), trusted)
  {
    var obs := DedupeById(events);
    ByIdKeepsFirst(events, 0);
    m := CreditTrusted(obs, trusted);
    m := CreditBindings(obs, trusted, m);
    m := CreditChains(obs, trusted, m);
    TrimHas(m);
    m := Trim(m);
  }

  method CreditTrusted(obs: Observed, trusted: set<Pubkey>) returns (m: Reasons)
    ensures forall x, q :: Has(m, x, q) <==> q == DirectTrust && HasReason(obs, trusted, x, q)
  {
    m := map[];
    var todo: set<Id> := obs.Keys;
    ghost var done: set<Id> := {};
    while todo != {}
      invariant done <= obs.Keys && todo == obs.Keys - done
      invariant forall x, q :: Has(m, x, q) <==> q == DirectTrust && x in done && obs[x].pubkey in trusted
      decreases |todo|
    {
      var id := Pick(todo);
      if obs[id].pubkey in trusted {
        CreditHas(m, id, DirectTrust);
        m := Credit(m, id, DirectTrust);
      }
      todo, done := todo - {id}, done + {id};
    }
  }

  method CreditBindings(obs: Observed, trusted: set<Pubkey>, m0: Reasons) returns (m: Reasons)
    requires forall x, q :: Has(m0, x, q) <==> q == DirectTrust && HasReason(obs, trusted, x, q)
    ensures forall x, q :: Has(m, x, q) <==> !q.RootChain? && HasReason(obs, trusted, x, q)
  {
    hide TypeOf, BindingEndpoints, WellTyped, Has, Credit, IsHonouredDeletion, Retracted, EndsAt;
    m := m0;
    var kind5s := Kind5s(obs);
    var todo: set<Id> := obs.Keys;
    ghost var done: set<Id> := {};
    while todo != {}
      invariant done <= obs.Keys && todo == obs.Keys - done
      invariant forall x, q :: Has(m, x, q) <==>
                  Has(m0, x, q) || (q.ViaBinding? && q.bindingId in done && Vouches(obs, trusted, q.bindingId, x))
      decreases |todo|
    {
      var id := Pick(todo);
      todo, done := todo - {id}, done + {id};
      if TypeOf(obs[id]) != Some(Binding) { continue; }
      var ends := BindingEndpoints(obs[id]);
      if ends.None? { continue; }
      if !WellTyped(ends.value, obs) { continue; }
      assert HasReason(obs, trusted, id, DirectTrust) <==> obs[id].pubkey in trusted;
      HasMeans(m, id, DirectTrust);
      if !(id in m && DirectTrust in m[id]) { continue; }
      HonouredMeans(obs, id, obs[id].pubkey);
      if IsHonouredDeletion(id, obs[id].pubkey, kind5s) { continue; }
      EndsAtMeans(ends.value);
      CreditHas(m, ends.value.rootId, ViaBinding(id));
      m := Credit(m, ends.value.rootId, ViaBinding(id));
      CreditHas(m, ends.value.linkId, ViaBinding(id));
      m := Credit(m, ends.value.linkId, ViaBinding(id));
    }
  }

  lemma HasMeans(m: Reasons, id: Id, r: Reason)
    ensures Has(m, id, r) <==> id in m && r in m[id]
  {
  }

  lemma EndsAtMeans(ends: Endpoints)
    ensures forall id :: EndsAt(ends, id) <==> id == ends.rootId || id == ends.linkId
  {
  }

  method CreditChains(obs: Observed, trusted: set<Pubkey>, m0: Reasons) returns (m: Reasons)
    requires Keyed(obs) && KindsFit(obs)
    requires forall x, q :: Has(m0, x, q) <==> !q.RootChain? && HasReason(obs, trusted, x, q)
    ensures forall x, q :: Has(m, x, q) <==> HasReason(obs, trusted, x, q)
  {
    m := m0;
    var patches, kind5s := Patches(obs), Kind5s(obs);
    hide TypeOf, Has, IsRoot, IsMember, BaseAdmitted, Patches, Kind5s, IsAdmitted, KindFitsType, Vouches, RootChainMembers;
    var todo: set<Id> := obs.Keys;
    ghost var done: set<Id> := {};
    while todo != {}
      invariant done <= obs.Keys && todo == obs.Keys - done
      invariant forall x, q :: Has(m, x, q) <==>
                  Has(m0, x, q) || (q.RootChain? && q.rootId in done && HasReason(obs, trusted, x, q))
      decreases |todo|
    {
      var id := Pick(todo);
      todo, done := todo - {id}, done + {id};
      if !IsRoot(obs[id]) { continue; }
      AdmittedMeans(m, id);
      RootReasons(obs, trusted, id);
      if !IsAdmitted(m, id) { continue; }
      forall x ensures x in RootChainMembers(obs[id], patches, kind5s) <==> IsMember(obs, obs[id], x) {
        MembersMean(obs, obs[id], x);
      }
      m := CreditAll(m, RootChainMembers(obs[id], patches, kind5s), RootChain(id));
    }
  }

  /** A root's own reasons are direct trust and bindings, so the order roots are visited in cannot matter. */
  lemma RootReasons(obs: Observed, trusted: set<Pubkey>, id: Id)
    requires KindsFit(obs) && id in obs && IsRoot(obs[id])
    ensures BaseAdmitted(obs, trusted, id) <==> exists r: Reason :: !r.RootChain? && HasReason(obs, trusted, id, r)
    ensures forall r: Reason :: r.RootChain? ==> !HasReason(obs, trusted, id, r)
  {
    if BaseAdmitted(obs, trusted, id) {
      if b :| Vouches(obs, trusted, b, id) {
        assert HasReason(obs, trusted, id, ViaBinding(b));
      } else {
        assert HasReason(obs, trusted, id, DirectTrust);
      }
    }
    if r: Reason :| !r.RootChain? && HasReason(obs, trusted, id, r) {
      if r.ViaBinding? { assert Vouches(obs, trusted, r.bindingId, id); }
    }
  }
}
