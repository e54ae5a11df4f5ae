/**
 * The store reducer's own tables: chain membership, the pending-reference buffer, the overlay
 * reverse index, the per-root chain epochs and the invalid ids, and how one observed event moves them.
 */
module StoreTables {
  import opened Prelude
  import opened Events
  import opened Validate

  datatype Tables = Tables(
    membership: map<Id, Id>, pending: map<Id, set<Id>>, overlay: map<Id, set<Id>>, epoch: map<Id, nat>, invalid: set<Id>)

  // ---------------------------------------------------------------- multimaps and epochs

  predicate Waits(m: map<Id, set<Id>>, awaited: Id, id: Id) { awaited in m && id in m[awaited] }

  function AddAwaiting(m: map<Id, set<Id>>, awaited: Id, id: Id): map<Id, set<Id>> {
    m[awaited := (if awaited in m then m[awaited] else {}) + {id}]
  }

  /** Withdraws one registration; an emptied entry is dropped. */
  function RemoveAwaiting(m: map<Id, set<Id>>, awaited: Id, id: Id): map<Id, set<Id>> {
    if awaited !in m then m
    else if m[awaited] - {id} == {} then m - {awaited}
    else m[awaited := m[awaited] - {id}]
  }

  lemma AddWaits(m: map<Id, set<Id>>, awaited: Id, id: Id)
    ensures forall a, x :: Waits(AddAwaiting(m, awaited, id), a, x) <==> Waits(m, a, x) || (a == awaited && x == id)
  {
  }

  lemma RemoveWaits(m: map<Id, set<Id>>, awaited: Id, id: Id)
    ensures forall a, x :: Waits(RemoveAwaiting(m, awaited, id), a, x) <==> Waits(m, a, x) && !(a == awaited && x == id)
  {
    forall a, x ensures Waits(RemoveAwaiting(m, awaited, id), a, x) <==> Waits(m, a, x) && !(a == awaited && x == id) {
      if awaited in m {
        assert x in m[awaited] && x != id <==> x in m[awaited] - {id};
      }
    }
  }

  function EpochOf(epoch: map<Id, nat>, id: Id): nat { if id in epoch then epoch[id] else 0 }

  function Bump(epoch: map<Id, nat>, id: Id): map<Id, nat> { epoch[id := EpochOf(epoch, id) + 1] }

  /** No epoch goes back. */
  ghost predicate NotBefore(epoch: map<Id, nat>, later: map<Id, nat>) {
    forall id :: EpochOf(epoch, id) <= EpochOf(later, id)
  }

  predicate Bumped(epoch: map<Id, nat>, later: map<Id, nat>, id: Id) { EpochOf(epoch, id) < EpochOf(later, id) }

  lemma BumpEpochs(epoch: map<Id, nat>, id: Id)
    ensures NotBefore(epoch, Bump(epoch, id))
    ensures forall x :: Bumped(epoch, Bump(epoch, id), x) <==> x == id
  {
  }

  lemma BumpedLater(a: map<Id, nat>, b: map<Id, nat>, c: map<Id, nat>)
    requires NotBefore(a, b) && NotBefore(b, c)
    ensures NotBefore(a, c)
    ensures forall id :: Bumped(a, c, id) <==> Bumped(a, b, id) || Bumped(b, c, id)
  {
    forall id ensures EpochOf(a, id) <= EpochOf(b, id) <= EpochOf(c, id) {}
  }

  // ---------------------------------------------------------------- which roots an event affects

  predicate PatchOfRoot(e: Event, root: Id) { TypeOf(e) == Some(Patch) && RootTarget(e) == Some(root) }

  /** The roots named by the event's own type: itself, its root, or what it deletes. */
  function RefTargets(refs: seq<ERef>, membership: map<Id, Id>): seq<Id> {
    if refs == [] then []
    else
      (if refs[0].id in membership then [membership[refs[0].id]] else []) + [refs[0].id] + RefTargets(refs[1..], membership)
  }

  function DirectTargets(e: Event, membership: map<Id, Id>): seq<Id> {
    if IsRoot(e) then [e.id]
    else if TypeOf(e) == Some(Patch) then (if RootTarget(e).Some? then [RootTarget(e).value] else [])
    else if IsDeletion(e) then RefTargets(e.refs, membership)
    else []
  }

  function EntryOf(m: map<Id, set<Id>>, awaited: Id): set<Id> { if awaited in m then m[awaited] else {} }

  /** The roots whose epoch the arrival or removal of `e` moves. */
  ghost predicate IsTarget(e: Event, membership: map<Id, Id>, overlay: map<Id, set<Id>>, root: Id) {
    root in DirectTargets(e, membership) || Waits(overlay, e.id, root)
  }

  lemma {:induction false} RefTargetsMean(refs: seq<ERef>, membership: map<Id, Id>, root: Id)
    ensures root in RefTargets(refs, membership) <==>
            exists r :: r in refs && (r.id == root || (r.id in membership && membership[r.id] == root))
  {
    if refs != [] {
      RefTargetsMean(refs[1..], membership, root);
      assert refs == [refs[0]] + refs[1..];
    }
  }

  /** Moves the epochs of exactly the targets of `e`. */
  method BumpTargets(e: Event, membership: map<Id, Id>, overlay: map<Id, set<Id>>, epoch0: map<Id, nat>) returns (epoch: map<Id, nat>)
    ensures NotBefore(epoch0, epoch)
    ensures forall root :: Bumped(epoch0, epoch, root) <==> IsTarget(e, membership, overlay, root)
  {
    epoch := epoch0;
    var direct := DirectTargets(e, membership);
    var viaOverlay := EntryOf(overlay, e.id);
    forall root ensures root in viaOverlay <==> Waits(overlay, e.id, root) {}
    BumpRefl(epoch0);
    hide EpochOf, Bump, NotBefore, DirectTargets, Waits, Bumped, EntryOf;
    for i := 0 to |direct|
      invariant NotBefore(epoch0, epoch)
      invariant forall root :: Bumped(epoch0, epoch, root) <==> root in direct[..i]
    {
      BumpEpochs(epoch, direct[i]);
      BumpedLater(epoch0, epoch, Bump(epoch, direct[i]));
      assert direct[..i + 1] == direct[..i] + [direct[i]];
      epoch := Bump(epoch, direct[i]);
    }
    assert direct[..|direct|] == direct;
    var todo: set<Id> := viaOverlay;
    while todo != {}
      invariant todo <= viaOverlay && NotBefore(epoch0, epoch)
      invariant forall root :: Bumped(epoch0, epoch, root) <==> root in direct || root in viaOverlay - todo
      decreases |todo|
    {
      var root := Pick(todo);
      BumpEpochs(epoch, root);
      BumpedLater(epoch0, epoch, Bump(epoch, root));
      epoch := Bump(epoch, root);
      todo := todo - {root};
    }
  }

  lemma BumpRefl(epoch: map<Id, nat>)
    ensures NotBefore(epoch, epoch) && forall id :: !Bumped(epoch, epoch, id)
  {
  }

  // ---------------------------------------------------------------- verdicts

  /** The tables carry what the validity layer says of `e` against `obs`. */
  ghost predicate VerdictHeld(e: Event, obs: Observed, badPayload: PayloadCheck, t: Tables) {
    var v := ValidateEvent(e, obs, badPayload);
    && (v.Invalid? ==> e.id in t.invalid)
    && (v.Pending? ==> forall a :: a in v.awaiting ==> Waits(t.pending, a, e.id))
  }

  /** The validity layer holds `x` pending until `a` arrives. */
  ghost predicate Awaits(x: Id, obs: Observed, badPayload: PayloadCheck, a: Id) {
    x in obs && ValidateEvent(obs[x], obs, badPayload).Pending? && a in ValidateEvent(obs[x], obs, badPayload).awaiting
  }

  /** Runs the validator once and folds the verdict in. */
  method ApplyVerdict(e: Event, obs: Observed, badPayload: PayloadCheck, t0: Tables) returns (t: Tables)
    ensures t == t0.(pending := t.pending, invalid := t.invalid)
    ensures t.invalid == t0.invalid + if ValidateEvent(e, obs, badPayload).Invalid? then {e.id} else {}
    ensures forall a, x ::
              Waits(t.pending, a, x) <==>
              Waits(t0.pending, a, x)
              || (x == e.id && ValidateEvent(e, obs, badPayload).Pending? && a in ValidateEvent(e, obs, badPayload).awaiting)
    ensures VerdictHeld(e, obs, badPayload, t)
  {
    hide Waits, ValidateEvent, AddAwaiting;
    var verdict := ValidateEvent(e, obs, badPayload);
    if verdict.Invalid? {
      return t0.(invalid := t0.invalid + {e.id});
    }
    if !verdict.Pending? { return t0; }
    var pending := t0.pending;
    for i := 0 to |verdict.awaiting|
      invariant forall a, x :: Waits(pending, a, x) <==>
                  Waits(t0.pending, a, x) || (x == e.id && a in verdict.awaiting[..i])
    {
      AddWaits(pending, verdict.awaiting[i], e.id);
      assert verdict.awaiting[..i + 1] == verdict.awaiting[..i] + [verdict.awaiting[i]];
      pending := AddAwaiting(pending, verdict.awaiting[i], e.id);
    }
    assert verdict.awaiting[..|verdict.awaiting|] == verdict.awaiting;
    return t0.(pending := pending);
  }

  // ---------------------------------------------------------------- one observed event

  /** `e`'s arrival or removal affects `root`, said of the events themselves and not of the tables. */
  ghost predicate Touches(e: Event, root: Id, obs: Observed, overlay: map<Id, set<Id>>) {
    || (IsRoot(e) && e.id == root)
    || PatchOfRoot(e, root)
    || (IsDeletion(e) && exists t :: t in RefIds(e) && (t == root || (t in obs && PatchOfRoot(obs[t], root))))
    || Waits(overlay, e.id, root)
  }

  /** Every patch of the given ids has its root recorded, and its root under its reply target. */
  ghost predicate Indexed(ids: set<Id>, obs: Observed, membership: map<Id, Id>, overlay: map<Id, set<Id>>) {
    forall id, root :: id in ids && id in obs && PatchOfRoot(obs[id], root) ==>
      && id in membership && membership[id] == root
      && (ReplyTarget(obs[id]).Some? ==> Waits(overlay, ReplyTarget(obs[id]).value, root))
  }

  ghost predicate WaitsGrow(m: map<Id, set<Id>>, later: map<Id, set<Id>>) {
    forall a, x :: Waits(m, a, x) ==> Waits(later, a, x)
  }

  /** The table lookups find every root an event affects. */
  lemma TouchesIsTarget(e: Event, root: Id, obs: Observed, overlay0: map<Id, set<Id>>, membership: map<Id, Id>, overlay: map<Id, set<Id>>)
    requires KindFitsType(e) && Indexed(obs.Keys, obs, membership, overlay) && WaitsGrow(overlay0, overlay)
    requires Touches(e, root, obs, overlay0)
    ensures IsTarget(e, membership, overlay, root)
  {
    RefTargetsMean(e.refs, membership, root);
    hide Waits, TypeOf, RootTarget, ReplyTarget, RefTargets;
    if IsDeletion(e) && !Waits(overlay0, e.id, root) && !PatchOfRoot(e, root) && !IsRoot(e) {
      var t :| t in RefIds(e) && (t == root || (t in obs && PatchOfRoot(obs[t], root)));
      var r :| r in e.refs && r.id == t;
    }
  }

  ghost predicate Rejected(id: Id, obs: Observed, badPayload: PayloadCheck) {
    id in obs && ValidateEvent(obs[id], obs, badPayload).Invalid?
  }

  /** Some event of `ids` has `root` among its epoch targets. */
  ghost predicate SomeTarget(ids: set<Id>, obs: Observed, membership: map<Id, Id>, overlay: map<Id, set<Id>>, root: Id) {
    exists q :: q in ids && q in obs && IsTarget(obs[q], membership, overlay, root)
  }

  lemma SomeTargetMore(ids: set<Id>, q: Id, obs: Observed, membership: map<Id, Id>, overlay: map<Id, set<Id>>)
    ensures forall root :: SomeTarget(ids + {q}, obs, membership, overlay, root) <==>
              SomeTarget(ids, obs, membership, overlay, root) || (q in obs && IsTarget(obs[q], membership, overlay, root))
  {
    hide IsTarget;
    forall root | SomeTarget(ids, obs, membership, overlay, root) || (q in obs && IsTarget(obs[q], membership, overlay, root))
      ensures SomeTarget(ids + {q}, obs, membership, overlay, root)
    {
      var x :| (x in ids || x == q) && x in obs && IsTarget(obs[x], membership, overlay, root);
      assert x in ids + {q};
    }
  }

  /** Re-checks one waiting event now that the id it waited for is here. */
  method WakeOne(pendingId: Id, awaited: Id, obs: Observed, badPayload: PayloadCheck, t0: Tables) returns (t: Tables)
    requires Keyed(obs)
    ensures t == t0.(pending := t.pending, invalid := t.invalid, epoch := t.epoch) && NotBefore(t0.epoch, t.epoch)
    ensures t.invalid == t0.invalid + if Rejected(pendingId, obs, badPayload) then {pendingId} else {}
    ensures forall a, x :: Waits(t0.pending, a, x) && !(a == awaited && x == pendingId) ==> Waits(t.pending, a, x)
    ensures forall a, x :: Waits(t.pending, a, x) ==> Waits(t0.pending, a, x) || Awaits(x, obs, badPayload, a)
    ensures pendingId in obs ==> VerdictHeld(obs[pendingId], obs, badPayload, t)
    ensures forall root :: Bumped(t0.epoch, t.epoch, root) <==>
              pendingId in obs && IsTarget(obs[pendingId], t0.membership, t0.overlay, root)
  {
    BumpRefl(t0.epoch);
    hide Waits, ValidateEvent, IsTarget, Bumped, NotBefore, RemoveAwaiting;
    RemoveWaits(t0.pending, awaited, pendingId);
    t := t0.(pending := RemoveAwaiting(t0.pending, awaited, pendingId));
    if pendingId !in obs { return; }
    t := ApplyVerdict(obs[pendingId], obs, badPayload, t);
    var epoch := BumpTargets(obs[pendingId], t.membership, t.overlay, t.epoch);
    t := t.(epoch := epoch);
  }

  /** A verdict registered under unobserved ids survives the withdrawal of slots under an observed one. */
  lemma VerdictSurvives(e: Event, obs: Observed, badPayload: PayloadCheck, awaited: Id, t: Tables, t': Tables)
    requires VerdictHeld(e, obs, badPayload, t) && awaited in obs && t.invalid <= t'.invalid
    requires forall a, x :: Waits(t.pending, a, x) && a != awaited ==> Waits(t'.pending, a, x)
    ensures VerdictHeld(e, obs, badPayload, t')
  {
    if ValidateEvent(e, obs, badPayload).Pending? { AwaitsUnobserved(e, obs, badPayload); }
    hide Waits, ValidateEvent;
  }

  /** Wakes exactly the events registered under `awaited`, and moves exactly their targets' epochs. */
  method Wake(awaited: Id, obs: Observed, badPayload: PayloadCheck, t0: Tables) returns (t: Tables)
    requires Keyed(obs) && awaited in obs
    ensures t == t0.(pending := t.pending, invalid := t.invalid, epoch := t.epoch) && NotBefore(t0.epoch, t.epoch)
    ensures forall q :: q in t.invalid <==> q in t0.invalid || (Waits(t0.pending, awaited, q) && Rejected(q, obs, badPayload))
    ensures forall root :: Bumped(t0.epoch, t.epoch, root) <==>
              SomeTarget(EntryOf(t0.pending, awaited), obs, t0.membership, t0.overlay, root)
    ensures forall a, x :: Waits(t0.pending, a, x) && a != awaited ==> Waits(t.pending, a, x)
    ensures forall a, x :: Waits(t.pending, a, x) ==> Waits(t0.pending, a, x) || Awaits(x, obs, badPayload, a)
    ensures forall q :: Waits(t0.pending, awaited, q) && q in obs ==> VerdictHeld(obs[q], obs, badPayload, t)
  {
    t := t0;
    var waiting := EntryOf(t0.pending, awaited);
    forall q ensures q in waiting <==> Waits(t0.pending, awaited, q) {}
    BumpRefl(t0.epoch);
    hide Waits, ValidateEvent, IsTarget, Bumped, NotBefore, VerdictHeld, Awaits, SomeTarget, Rejected, EntryOf;
    var todo: set<Id> := waiting;
    ghost var done: set<Id> := {};
    forall root ensures !SomeTarget({}, obs, t0.membership, t0.overlay, root) { NoTargets(obs, t0.membership, t0.overlay, root); }
    while todo != {}
      invariant forall q :: q in waiting <==> q in todo || q in done
      invariant t == t0.(pending := t.pending, invalid := t.invalid, epoch := t.epoch) && NotBefore(t0.epoch, t.epoch)
      invariant forall q :: q in t.invalid <==> q in t0.invalid || (q in done && Rejected(q, obs, badPayload))
      invariant forall root :: Bumped(t0.epoch, t.epoch, root) <==> SomeTarget(done, obs, t0.membership, t0.overlay, root)
      invariant forall a, x :: Waits(t0.pending, a, x) && a != awaited ==> Waits(t.pending, a, x)
      invariant forall a, x :: Waits(t.pending, a, x) ==> Waits(t0.pending, a, x) || Awaits(x, obs, badPayload, a)
      invariant forall q :: q in done && q in obs ==> VerdictHeld(obs[q], obs, badPayload, t)
      decreases |todo|
    {
      var q := Pick(todo);
      todo := todo - {q};
      var next := WakeOne(q, awaited, obs, badPayload, t);
      BumpedLater(t0.epoch, t.epoch, next.epoch);
      SomeTargetMore(done, q, obs, t0.membership, t0.overlay);
      forall x | x in done && x != q && x in obs ensures VerdictHeld(obs[x], obs, badPayload, next) {
        VerdictSurvives(obs[x], obs, badPayload, awaited, t, next);
      }
      done := done + {q};
      t := next;
    }
    forall q ensures q in done <==> q in waiting {}
    SameElements(done, waiting);
  }

  lemma NoTargets(obs: Observed, membership: map<Id, Id>, overlay: map<Id, set<Id>>, root: Id)
    ensures !SomeTarget({}, obs, membership, overlay, root)
  {
  }

  /** What processing one newly observed event does to the tables, exactly. */
  ghost predicate Processed(e: Event, obs: Observed, badPayload: PayloadCheck, t0: Tables, t: Tables) {
    && NotBefore(t0.epoch, t.epoch)
    && t.membership == (if TypeOf(e) == Some(Patch) && RootTarget(e).Some? then t0.membership[e.id := RootTarget(e).value] else t0.membership)
    && (forall a, r :: Waits(t.overlay, a, r) <==>
          Waits(t0.overlay, a, r) || (PatchOfRoot(e, r) && ReplyTarget(e) == Some(a)))
    && (forall root :: Bumped(t0.epoch, t.epoch, root) <==>
          || IsTarget(e, t.membership, t.overlay, root)
          || SomeTarget(EntryOf(t0.pending, e.id), obs, t.membership, t.overlay, root))
    && (forall q :: q in t.invalid <==>
          q in t0.invalid || (Rejected(q, obs, badPayload) && (q == e.id || Waits(t0.pending, e.id, q))))
    && (forall a, x :: Waits(t0.pending, a, x) && a != e.id ==> Waits(t.pending, a, x))
    && (forall a, x :: Waits(t.pending, a, x) ==> Waits(t0.pending, a, x) || Awaits(x, obs, badPayload, a))
    && VerdictHeld(e, obs, badPayload, t)
    && (forall q :: Waits(t0.pending, e.id, q) && q in obs ==> VerdictHeld(obs[q], obs, badPayload, t))
  }

  method ProcessObserved(e: Event, obs: Observed, badPayload: PayloadCheck, t0: Tables) returns (t: Tables)
    requires Keyed(obs) && e.id in obs && obs[e.id] == e
    ensures Processed(e, obs, badPayload, t0, t)
  {
    t := IndexPatch(e, t0);
    hide Waits, ValidateEvent, IsTarget, Bumped, NotBefore, VerdictHeld, TypeOf, RootTarget, ReplyTarget, PatchOfRoot, SomeTarget, EntryOf;
    var epoch := BumpTargets(e, t.membership, t.overlay, t.epoch);
    t := t.(epoch := epoch);
    ghost var t1 := t;
    t := ApplyVerdict(e, obs, badPayload, t);
    ghost var t2 := t;
    NobodyAwaits(e.id, obs, badPayload);
    assert !Awaits(e.id, obs, badPayload, e.id);
    SameEntry(t1.pending, t2.pending, e.id);
    t := Wake(e.id, obs, badPayload, t);
    BumpedLater(t0.epoch, t2.epoch, t.epoch);
    forall q | q in t2.invalid ensures q in t.invalid {}
    VerdictSurvives(e, obs, badPayload, e.id, t2, t);
  }

  /** Awaited ids are unobserved ones. */
  lemma NobodyAwaits(a: Id, obs: Observed, badPayload: PayloadCheck)
    requires a in obs
    ensures forall x :: !Awaits(x, obs, badPayload, a)
  {
    forall x | x in obs && ValidateEvent(obs[x], obs, badPayload).Pending?
      ensures a !in ValidateEvent(obs[x], obs, badPayload).awaiting
    {
      AwaitsUnobserved(obs[x], obs, badPayload);
    }
    hide ValidateEvent;
  }

  lemma SameEntry(m: map<Id, set<Id>>, m': map<Id, set<Id>>, awaited: Id)
    requires forall x :: Waits(m, awaited, x) <==> Waits(m', awaited, x)
    ensures EntryOf(m, awaited) == EntryOf(m', awaited)
  {
    forall x ensures x in EntryOf(m, awaited) <==> x in EntryOf(m', awaited) {
      assert Waits(m, awaited, x) <==> Waits(m', awaited, x);
    }
    SameElements(EntryOf(m, awaited), EntryOf(m', awaited));
  }

  method IndexPatch(e: Event, t0: Tables) returns (t: Tables)
    ensures t == t0.(membership := t.membership, overlay := t.overlay)
    ensures t.membership == (if TypeOf(e) == Some(Patch) && RootTarget(e).Some? then t0.membership[e.id := RootTarget(e).value] else t0.membership)
    ensures forall a, r :: Waits(t.overlay, a, r) <==>
              Waits(t0.overlay, a, r) || (PatchOfRoot(e, r) && ReplyTarget(e) == Some(a))
  {
    hide Waits, TypeOf, RootTarget, ReplyTarget, AddAwaiting;
    t := t0;
    if TypeOf(e) == Some(Patch) {
      var root := RootTarget(e);
      if root.Some? { t := t.(membership := t.membership[e.id := root.value]); }
      var target := ReplyTarget(e);
      if target.Some? && root.Some? {
        AddWaits(t.overlay, target.value, root.value);
        t := t.(overlay := AddAwaiting(t.overlay, target.value, root.value));
      }
    }
  }
}
