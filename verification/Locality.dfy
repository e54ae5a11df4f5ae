/**
 * What a root's resolution reads of an observed set, and why two observed sets that agree there
 * resolve the root alike.
 */
module Locality {
  import opened Prelude
  import opened Ordering
  import opened Events
  import opened PatchTypes
  import opened ChainWalk
  import opened ResolveSpec
  import L = Lineage

  /** The same presence and the same event under `id`. */
  ghost predicate SameAt(a: Observed, b: Observed, id: Id) {
    (id in a <==> id in b) && (id in a ==> a[id] == b[id])
  }

  /** The two sets agree on the root's patches, their retractions and what they reply to. */
  ghost predicate SamePatches(a: Observed, b: Observed, rootId: Id) {
    && PatchesOf(a, rootId) == PatchesOf(b, rootId)
    && (forall p :: p in PatchesOf(a, rootId) ==> (Deleted(a, p.id) <==> Deleted(b, p.id)))
    && (forall p :: p in PatchesOf(a, rootId) && ReplyTarget(p).Some? ==> SameAt(a, b, ReplyTarget(p).value))
  }

  /** The two sets agree on everything the resolution of `rootId` reads. */
  ghost predicate SameFor(a: Observed, b: Observed, rootId: Id) {
    SameAt(a, b, rootId) && SamePatches(a, b, rootId)
  }

  /** They agree on everything but, where neither can patch it, what is observed under `rootId` itself. */
  ghost predicate SameButRoot(a: Observed, b: Observed, rootId: Id) {
    SamePatches(a, b, rootId) && (Patchable(a, rootId) || Patchable(b, rootId) ==> SameAt(a, b, rootId))
  }

  lemma SameButRootTransitive(a: Observed, b: Observed, c: Observed, rootId: Id)
    requires SameButRoot(a, b, rootId) && SameButRoot(b, c, rootId)
    ensures SameButRoot(a, c, rootId)
  {
    hide PatchesOf, Deleted, ReplyTarget, IsRoot;
  }

  /** Every field but `pending`. */
  ghost predicate SameView(x: Resolution, y: Resolution) {
    x.chain == y.chain && x.overlays == y.overlays && x.annotations == y.annotations
  }

  /**
   * Same-author reply lineages stay inside the root's own patches: a root-author patch never
   * replies to an observed event of the same author that is neither the root nor its patch.
   */
  ghost predicate LineageClosed(obs: Observed, rootId: Id) {
    rootId in obs ==>
      forall p :: p in PatchesOf(obs, rootId) && p.pubkey == obs[rootId].pubkey && ReplyTarget(p).Some? ==>
        var t := ReplyTarget(p).value;
        t != rootId && t in obs && obs[t].pubkey == obs[rootId].pubkey ==> obs[t] in PatchesOf(obs, rootId)
  }

  lemma LocalLine(a: Observed, b: Observed, rootId: Id)
    requires Keyed(a) && Keyed(b) && SameFor(a, b, rootId) && rootId in a
    ensures Line(a, rootId) == Line(b, rootId) && OverlayEvents(a, rootId) == OverlayEvents(b, rootId)
  {
    hide IsPatchFor, ReplyTarget, Deleted, PatchesOf;
  }

  /** Agreement there makes the chain, the overlays and the annotations agree. */
  lemma ViewIsLocal(apply: Applier, a: Observed, b: Observed, rootId: Id)
    requires Keyed(a) && Keyed(b) && SameFor(a, b, rootId)
    ensures SameView(ResolveOf(apply, a, rootId), ResolveOf(apply, b, rootId))
    ensures rootId !in a ==> ResolveOf(apply, a, rootId) == ResolveOf(apply, b, rootId)
  {
    if rootId in a && IsRoot(a[rootId]) {
      LocalLine(a, b, rootId);
      var wa, wb := WalkOf(a, rootId), WalkOf(b, rootId);
      CanonicalUnique(Line(a, rootId), rootId, wa.0, wa.1, wb.0, wb.1);
      hide ReplyTarget, Deleted, IsPatchFor, Line, PatchesOf, TrialOf, Advance, StateOf, LimitAnnotations;
      assert ChainOf(apply, a, rootId) == ChainOf(apply, b, rootId);
      SameOverlays(apply, a, b, rootId);
      assert AnnotationSet(apply, a, rootId) == AnnotationSet(apply, b, rootId);
    }
  }

  lemma SameOverlays(apply: Applier, a: Observed, b: Observed, rootId: Id)
    requires Keyed(a) && Keyed(b) && SameFor(a, b, rootId) && Patchable(a, rootId) && Patchable(b, rootId)
    requires WalkOf(a, rootId) == WalkOf(b, rootId) && OverlayEvents(a, rootId) == OverlayEvents(b, rootId)
    ensures OverlaySet(apply, a, rootId) == OverlaySet(apply, b, rootId)
  {
    hide ReplyTarget, Deleted, IsPatchFor, PatchesOf, TrialOf, Advance, StateOf, ChainStateOf, Canonical, WalkedTo, IsRoot;
    var path, run, chain := WalkOf(a, rootId).0, RunOf(apply, a, rootId), ChainOf(apply, a, rootId);
    forall o | o in OverlayEvents(a, rootId)
      ensures OverlayOf(apply, a, rootId, path, run, chain, o) == OverlayOf(apply, b, rootId, path, run, chain, o)
    {
      assert SameAt(a, b, ReplyTarget(o).value);
    }
    hide OverlayOf, OverlayEvents;
  }

  /** Where the agreement leaves the root itself open, its presence alone decides whether the answers agree. */
  lemma ViewAgreesIff(apply: Applier, a: Observed, b: Observed, rootId: Id)
    requires Keyed(a) && Keyed(b) && SameButRoot(a, b, rootId)
    ensures SameView(ResolveOf(apply, a, rootId), ResolveOf(apply, b, rootId)) <==> (rootId in a <==> rootId in b)
    ensures (rootId in a <==> rootId in b) && !Patchable(a, rootId) ==> ResolveOf(apply, a, rootId) == ResolveOf(apply, b, rootId)
    ensures (rootId in a <==> rootId in b) && Patchable(a, rootId) ==> SameFor(a, b, rootId)
    ensures ResolveOf(apply, a, rootId).chain == Absent(RootUnobserved) <==> rootId !in a
  {
    if Patchable(a, rootId) || Patchable(b, rootId) { ViewIsLocal(apply, a, b, rootId); }
    hide SamePatches, HeldPatches, OverlaySet, AnnotationSet, PatchesOf, IsRoot;
  }

  lemma {:induction false} SameAncestors(a: Observed, b: Observed, rootId: Id, p: Event, n: nat)
    requires Keyed(a) && Keyed(b) && SameFor(a, b, rootId) && rootId in a && LineageClosed(a, rootId)
    requires p in PatchesOf(a, rootId) && p.pubkey == a[rootId].pubkey
    ensures L.Ancestor(a, rootId, a[rootId].pubkey, p, n) == L.Ancestor(b, rootId, a[rootId].pubkey, p, n)
    decreases n
  {
    hide ReplyTarget, Deleted, PatchesOf;
    var author := a[rootId].pubkey;
    assert L.HopFrom(a, rootId, author, p) == L.HopFrom(b, rootId, author, p);
    if n > 0 && L.HopFrom(a, rootId, author, p).Via? {
      SameAncestors(a, b, rootId, L.HopFrom(a, rootId, author, p).parent, n - 1);
    }
  }

  lemma HeldAgree(a: Observed, b: Observed, rootId: Id)
    requires Keyed(a) && Keyed(b) && SameFor(a, b, rootId) && LineageClosed(a, rootId)
    requires Patchable(a, rootId) && Patchable(b, rootId) && a[rootId] == b[rootId]
    ensures HeldPatches(a, rootId) == HeldPatches(b, rootId)
  {
    LocalLine(a, b, rootId);
    LineArePatches(a, rootId);
    hide ReplyTarget, Line, SameFor, LineageClosed, IsRoot;
    forall p | p in Line(a, rootId)
      ensures L.ClassOf(a, rootId, a[rootId].pubkey, p) == L.ClassOf(b, rootId, a[rootId].pubkey, p)
    {
      forall n: nat { SameAncestors(a, b, rootId, p, n); }
      L.SameClass(a, b, rootId, a[rootId].pubkey, p);
    }
    hide L.ClassOf;
  }

  lemma LineArePatches(a: Observed, rootId: Id)
    requires rootId in a
    ensures forall p :: p in Line(a, rootId) ==> p in PatchesOf(a, rootId) && p.pubkey == a[rootId].pubkey
  {
    hide PatchesOf, Deleted;
  }

  lemma ClosedAlike(a: Observed, b: Observed, rootId: Id)
    requires Keyed(a) && Keyed(b) && SameFor(a, b, rootId)
    ensures LineageClosed(a, rootId) <==> LineageClosed(b, rootId)
  {
    hide ReplyTarget, Deleted, PatchesOf;
  }

  /** When lineages stay inside the root's patches, `pending` agrees too. */
  lemma PendingIsLocal(apply: Applier, a: Observed, b: Observed, rootId: Id)
    requires Keyed(a) && Keyed(b) && SameFor(a, b, rootId)
    ensures LineageClosed(a, rootId) <==> LineageClosed(b, rootId)
    ensures LineageClosed(a, rootId) ==> ResolveOf(apply, a, rootId) == ResolveOf(apply, b, rootId)
  {
    ViewIsLocal(apply, a, b, rootId);
    ClosedAlike(a, b, rootId);
    SameRoot(a, b, rootId);
    hide LineageClosed, SameFor, HeldPatches, ChainOf, OverlaySet, AnnotationSet, IsRoot, Keyed;
    if LineageClosed(a, rootId) && rootId in a && IsRoot(a[rootId]) {
      HeldAgree(a, b, rootId);
    }
  }

  // ---------------------------------------------------------------- exactly when `pending` moves

  /**
   * An arrival that changes nothing else the root's resolution reads changes its pending list if
   * and only if some patch of the root author's has a lineage that waited for it, and the arrival
   * does not itself leave that lineage waiting.
   */
  lemma PendingMovesIff(apply: Applier, obs: Observed, e: Event, rootId: Id)
    requires Keyed(obs) && e.id !in obs && e.id != rootId && Patchable(obs, rootId)
    requires SameFor(obs, obs[e.id := e], rootId)
    ensures Keyed(obs[e.id := e])
    ensures var author := obs[rootId].pubkey;
            ResolveOf(apply, obs, rootId).pending != ResolveOf(apply, obs[e.id := e], rootId).pending <==>
              && (exists p :: p in Line(obs, rootId) && L.WaitsAt(obs, rootId, author, p, e.id))
              && !(e.pubkey == author && L.ClassOf(obs[e.id := e], rootId, author, e) == L.Held)
  {
    var after, author := obs[e.id := e], obs[rootId].pubkey;
    LocalLine(obs, after, rootId);
    HeldListsDiffer(apply, obs, after, rootId);
    hide Line, SameFor, L.ClassOf, L.WaitsAt, IsRoot, ResolveOf;
    forall p | p in Line(obs, rootId)
      ensures p in HeldPatches(after, rootId) <==>
                if L.WaitsAt(obs, rootId, author, p, e.id) then e.pubkey == author && L.ClassOf(after, rootId, author, e) == L.Held
                else p in HeldPatches(obs, rootId)
      ensures L.WaitsAt(obs, rootId, author, p, e.id) ==> p in HeldPatches(obs, rootId)
    {
      L.ClassAfterArrival(obs, rootId, author, p, e);
    }
    var stays := e.pubkey == author && L.ClassOf(after, rootId, author, e) == L.Held;
    if p :| p in Line(obs, rootId) && L.WaitsAt(obs, rootId, author, p, e.id) && !stays {
      assert p in HeldPatches(obs, rootId) && p !in HeldPatches(after, rootId);
    } else {
      forall p ensures p in HeldPatches(obs, rootId) <==> p in HeldPatches(after, rootId) {}
      SameElements(HeldPatches(obs, rootId), HeldPatches(after, rootId));
    }
  }

  /** The pending lists differ exactly as the held patches do. */
  lemma HeldListsDiffer(apply: Applier, a: Observed, b: Observed, rootId: Id)
    requires Keyed(a) && Keyed(b) && Patchable(a, rootId) && Patchable(b, rootId) && Line(a, rootId) == Line(b, rootId)
    ensures ResolveOf(apply, a, rootId).pending == ResolveOf(apply, b, rootId).pending
            <==> HeldPatches(a, rootId) == HeldPatches(b, rootId)
  {
    PatchesKeyed(a, rootId);
    var x, y := HeldPatches(a, rootId), HeldPatches(b, rootId);
    assert x <= Line(a, rootId) && y <= Line(a, rootId) && IdDetermines(Line(a, rootId));
    hide Line, HeldPatches, OverlaySet, AnnotationSet, ChainOf, IsRoot;
    if SortedIds(IdsOf(x)) == SortedIds(IdsOf(y)) {
      assert IdsOf(x) == IdsOf(y);
      IdsDecide(x, y, Line(a, rootId));
    }
  }

  lemma IdsDecide(x: set<Event>, y: set<Event>, all: set<Event>)
    requires x <= all && y <= all && IdDetermines(all) && IdsOf(x) == IdsOf(y)
    ensures x == y
  {
    forall p ensures p in x <==> p in y {
      if p in x { assert p.id in IdsOf(y); var q :| q in y && q.id == p.id; }
      if p in y { assert p.id in IdsOf(x); var q :| q in x && q.id == p.id; }
    }
    SameElements(x, y);
  }

  lemma SameRoot(a: Observed, b: Observed, rootId: Id)
    requires SameFor(a, b, rootId)
    ensures rootId in a <==> rootId in b
    ensures rootId in a && rootId in b ==> a[rootId] == b[rootId]
  {
    hide PatchesOf, Deleted, ReplyTarget;
  }
}
