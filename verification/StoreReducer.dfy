/**
 * The store reducer. `StoreStep` says what one delta does: the admission state follows its model,
 * and every root whose resolution the delta could affect has its chain epoch moved.
 */
module StoreReducer {
  import opened Prelude
  import opened Events
  import opened Validate
  import opened StoreTables
  import A = AdmitModel
  import D = AdmitDelta

  datatype StoreState = StoreState(admit: A.AdmitState, tables: Tables, trustEpoch: nat, observedEpoch: nat)
  {
    function Obs(): Observed { admit.observedById }
  }

  const EMPTY_STORE_STATE := StoreState(A.EMPTY_ADMIT_STATE, Tables(map[], map[], map[], map[], {}), 0, 0)

  /** The events resolution may see: observed and not rejected by the validity layer. */
  function VisibleOf(obs: Observed, invalid: set<Id>): Observed {
    map id | id in obs && id !in invalid :: obs[id]
  }

  function Visible(s: StoreState): Observed { VisibleOf(s.Obs(), s.tables.invalid) }

  // ---------------------------------------------------------------- observing a batch

  /** The event is one of the batch so far, or was waiting for one of them. */
  ghost predicate Stirred(t0: Tables, seen: set<Id>, id: Id) {
    id in seen || exists a :: a in seen && Waits(t0.pending, a, id)
  }

  /** `root` is among the targets of `e` by the membership of before or of after the batch. */
  ghost predicate MayMove(e: Event, t0: Tables, t: Tables, root: Id) {
    IsTarget(e, t0.membership, t.overlay, root) || IsTarget(e, t.membership, t.overlay, root)
  }

  /** Something stirred by the batch has `root` among its targets. */
  ghost predicate Moves(obs: Observed, t0: Tables, t: Tables, seen: set<Id>, root: Id) {
    exists id :: id in obs && Stirred(t0, seen, id) && MayMove(obs[id], t0, t, root)
  }

  /** Membership and the overlay index hold what they held and what the patches of the batch say, and no more. */
  ghost predicate IndexesExact(obs: Observed, t0: Tables, t: Tables, seen: set<Id>) {
    && (forall id :: id !in seen ==> (id in t.membership <==> id in t0.membership))
    && (forall id :: id !in seen && id in t0.membership ==> t.membership[id] == t0.membership[id])
    && (forall a, r :: Waits(t.overlay, a, r) <==>
          Waits(t0.overlay, a, r) || exists x :: x in seen && x in obs && PatchOfRoot(obs[x], r) && ReplyTarget(obs[x]) == Some(a))
  }

  /**
   * What a batch of observed events does, whatever its order and overlaps: every root a stirred
   * event touches moves its epoch, and no epoch moves that is not a target of a stirred event.
   */
  ghost predicate Folded(prior: Observed, obs: Observed, badPayload: PayloadCheck, t0: Tables, t: Tables, seen: set<Id>) {
    && seen <= obs.Keys
    && NotBefore(t0.epoch, t.epoch)
    && WaitsGrow(t0.overlay, t.overlay)
    && Indexed(prior.Keys + seen, obs, t.membership, t.overlay)
    && IndexesExact(obs, t0, t, seen)
    && (forall id, root :: id in obs && Stirred(t0, seen, id) && Touches(obs[id], root, prior, t0.overlay) ==>
          Bumped(t0.epoch, t.epoch, root))
    && (forall root :: Bumped(t0.epoch, t.epoch, root) ==> Moves(obs, t0, t, seen, root))
    && t0.invalid <= t.invalid
    && (forall q :: q in t.invalid && q !in t0.invalid ==> Rejected(q, obs, badPayload) && Stirred(t0, seen, q))
    && (forall a, x :: Waits(t0.pending, a, x) && a !in seen ==> Waits(t.pending, a, x))
    && (forall a, x :: Waits(t.pending, a, x) ==> Waits(t0.pending, a, x) || Awaits(x, obs, badPayload, a))
  }

  /**
   * The verdict of `id` is settled against the whole batch, or some event of the batch still to
   * come will wake it.
   */
  ghost predicate SettledOrWaiting(id: Id, obs: Observed, badPayload: PayloadCheck, t: Tables, coming: set<Id>)
    requires id in obs
  {
    VerdictHeld(obs[id], obs, badPayload, t) || exists a :: a in coming && Waits(t.pending, a, id)
  }

  /** Events come from the observed set they are folded into. */
  ghost predicate Batch(prior: Observed, obs: Observed) {
    Keyed(obs) && KindsFit(obs) && Extends(prior, obs)
  }

  lemma FoldOne(prior: Observed, obs: Observed, badPayload: PayloadCheck, t0: Tables, t1: Tables, t: Tables, seen: set<Id>, e: Event)
    requires Batch(prior, obs) && Folded(prior, obs, badPayload, t0, t1, seen)
    requires e.id in obs && obs[e.id] == e && e.id !in prior && e.id !in seen && seen <= obs.Keys
    requires Processed(e, obs, badPayload, t1, t)
    ensures Folded(prior, obs, badPayload, t0, t, seen + {e.id})
  {
    BumpedLater(t0.epoch, t1.epoch, t.epoch);
    IndexedMore(prior, obs, badPayload, t1, t, seen, e);
    ExactMore(prior, obs, badPayload, t0, t1, t, seen, e);
    TablesReach(prior, obs, badPayload, t0, t1, t, seen, e);
    StirredMore(prior, obs, badPayload, t0, t1, seen, e);
    MovesMore(prior, obs, badPayload, t0, t1, t, seen, e);
    BumpsMore(prior, obs, badPayload, t0, t1, t, seen, e);
    hide Waits, ValidateEvent, IsTarget, Bumped, NotBefore, VerdictHeld, TypeOf, RootTarget, ReplyTarget, PatchOfRoot, Touches, Indexed, WaitsGrow,
         IndexesExact, Moves, SomeTarget, EntryOf, Awaits, Stirred, Rejected;
    forall q | q in t0.invalid ensures q in t.invalid {}
  }

  lemma ExactMore(prior: Observed, obs: Observed, badPayload: PayloadCheck, t0: Tables, t1: Tables, t: Tables, seen: set<Id>, e: Event)
    requires Folded(prior, obs, badPayload, t0, t1, seen) && Processed(e, obs, badPayload, t1, t)
    requires e.id in obs && obs[e.id] == e
    ensures IndexesExact(obs, t0, t, seen + {e.id})
  {
    assert IndexesExact(obs, t0, t1, seen);
    hide Waits, IsTarget, Bumped, NotBefore, VerdictHeld, TypeOf, RootTarget, ReplyTarget, PatchOfRoot, Touches, Indexed, WaitsGrow,
         Moves, SomeTarget, EntryOf, Awaits, Stirred, Rejected, Folded;
    forall a, r
      ensures Waits(t.overlay, a, r) <==>
              Waits(t0.overlay, a, r)
              || exists x :: x in seen + {e.id} && x in obs && PatchOfRoot(obs[x], r) && ReplyTarget(obs[x]) == Some(a)
    {
      assert Waits(t.overlay, a, r) <==> Waits(t1.overlay, a, r) || (PatchOfRoot(e, r) && ReplyTarget(e) == Some(a));
      if PatchOfRoot(e, r) && ReplyTarget(e) == Some(a) { assert e.id in seen + {e.id}; }
      if x :| x in seen && x in obs && PatchOfRoot(obs[x], r) && ReplyTarget(obs[x]) == Some(a) { assert x in seen + {e.id}; }
    }
  }

  /** What the arrival wakes was waiting before the batch: nothing of the batch waits for an id of the batch. */
  lemma StirredMore(prior: Observed, obs: Observed, badPayload: PayloadCheck, t0: Tables, t1: Tables, seen: set<Id>, e: Event)
    requires Folded(prior, obs, badPayload, t0, t1, seen) && e.id in obs
    ensures forall id :: Stirred(t0, seen, id) ==> Stirred(t0, seen + {e.id}, id)
    ensures forall id :: id == e.id || Waits(t1.pending, e.id, id) ==> Stirred(t0, seen + {e.id}, id)
    ensures forall id :: Stirred(t0, seen + {e.id}, id) ==> Stirred(t0, seen, id) || id == e.id || Waits(t0.pending, e.id, id)
  {
    NobodyAwaits(e.id, obs, badPayload);
    hide Waits, Awaits, IsTarget, Bumped, NotBefore, Touches, Indexed, WaitsGrow, Moves, IndexesExact, Rejected;
    assert e.id in seen + {e.id};
    forall id | Waits(t1.pending, e.id, id) ensures Stirred(t0, seen + {e.id}, id) {
      assert !Awaits(id, obs, badPayload, e.id) && Waits(t0.pending, e.id, id);
    }
    forall id | Stirred(t0, seen, id) ensures Stirred(t0, seen + {e.id}, id) {
      if a :| a in seen && Waits(t0.pending, a, id) { assert a in seen + {e.id}; }
    }
  }

  /** A target found by tables of the middle of a batch is one by those of its start or its end. */
  lemma TargetsPersist(x: Event, m0: map<Id, Id>, m1: map<Id, Id>, m: map<Id, Id>, o1: map<Id, set<Id>>, o: map<Id, set<Id>>, root: Id)
    requires WaitsGrow(o1, o) && IsTarget(x, m1, o1, root)
    requires forall id :: id in m1 ==> (id in m0 && m0[id] == m1[id]) || (id in m && m[id] == m1[id])
    ensures IsTarget(x, m0, o, root) || IsTarget(x, m, o, root)
  {
    RefTargetsMean(x.refs, m1, root);
    RefTargetsMean(x.refs, m0, root);
    RefTargetsMean(x.refs, m, root);
    hide Waits, TypeOf, RootTarget, RefTargets;
  }

  lemma MayMoveLater(x: Event, obs: Observed, badPayload: PayloadCheck, t0: Tables, t1: Tables, t: Tables, seen: set<Id>, e: Event, root: Id)
    requires IndexesExact(obs, t0, t1, seen) && e.id !in seen
    requires Processed(e, obs, badPayload, t1, t)
    requires MayMove(x, t0, t1, root)
    ensures MayMove(x, t0, t, root)
  {
    assert WaitsGrow(t1.overlay, t.overlay) by { hide Waits, IsTarget, TypeOf, RootTarget, ReplyTarget, PatchOfRoot; }
    hide Waits, IsTarget, TypeOf, RootTarget, ReplyTarget, PatchOfRoot, WaitsGrow, Bumped, NotBefore, SomeTarget, EntryOf, Awaits, VerdictHeld;
    if IsTarget(x, t0.membership, t1.overlay, root) {
      TargetsPersist(x, t0.membership, t0.membership, t.membership, t1.overlay, t.overlay, root);
    } else {
      TargetsPersist(x, t0.membership, t1.membership, t.membership, t1.overlay, t.overlay, root);
    }
  }

  /** Every epoch moved so far, or moved by this arrival, is that of a target of something stirred. */
  lemma MovesMore(prior: Observed, obs: Observed, badPayload: PayloadCheck, t0: Tables, t1: Tables, t: Tables, seen: set<Id>, e: Event)
    requires Folded(prior, obs, badPayload, t0, t1, seen) && Processed(e, obs, badPayload, t1, t)
    requires e.id in obs && obs[e.id] == e && e.id !in seen
    ensures forall root :: Bumped(t0.epoch, t.epoch, root) ==> Moves(obs, t0, t, seen + {e.id}, root)
  {
    BumpedLater(t0.epoch, t1.epoch, t.epoch);
    StirredMore(prior, obs, badPayload, t0, t1, seen, e);
    hide Waits, IsTarget, Bumped, NotBefore, Touches, Indexed, WaitsGrow, IndexesExact, Rejected, VerdictHeld, Awaits, Stirred, MayMove,
         TypeOf, RootTarget, ReplyTarget, PatchOfRoot;
    forall root | Bumped(t0.epoch, t.epoch, root) ensures Moves(obs, t0, t, seen + {e.id}, root) {
      if Bumped(t0.epoch, t1.epoch, root) {
        var id :| id in obs && Stirred(t0, seen, id) && MayMove(obs[id], t0, t1, root);
        MayMoveLater(obs[id], obs, badPayload, t0, t1, t, seen, e, root);
      } else {
        assert Bumped(t1.epoch, t.epoch, root);
        AimedNow(e, obs, badPayload, t0, t1, t, root);
        var id :| id in obs && (id == e.id || Waits(t1.pending, e.id, id)) && MayMove(obs[id], t0, t, root);
        assert Stirred(t0, seen + {e.id}, id);
      }
    }
  }

  lemma AimedNow(e: Event, obs: Observed, badPayload: PayloadCheck, t0: Tables, t1: Tables, t: Tables, root: Id)
    requires Processed(e, obs, badPayload, t1, t) && Bumped(t1.epoch, t.epoch, root)
    requires e.id in obs && obs[e.id] == e
    ensures exists id :: id in obs && (id == e.id || Waits(t1.pending, e.id, id)) && MayMove(obs[id], t0, t, root)
  {
    hide IsTarget, Bumped, NotBefore, VerdictHeld, Awaits, TypeOf, RootTarget, ReplyTarget, PatchOfRoot, Rejected;
    if IsTarget(e, t.membership, t.overlay, root) {
      assert MayMove(obs[e.id], t0, t, root);
    } else {
      var q :| q in EntryOf(t1.pending, e.id) && q in obs && IsTarget(obs[q], t.membership, t.overlay, root);
      assert Waits(t1.pending, e.id, q) && MayMove(obs[q], t0, t, root);
    }
  }

  /** What the arrival or anything it wakes touches has its epoch moved. */
  lemma BumpsMore(prior: Observed, obs: Observed, badPayload: PayloadCheck, t0: Tables, t1: Tables, t: Tables, seen: set<Id>, e: Event)
    requires Folded(prior, obs, badPayload, t0, t1, seen) && Processed(e, obs, badPayload, t1, t)
    requires e.id in obs && obs[e.id] == e
    requires forall id, root :: id in obs && Touches(obs[id], root, prior, t0.overlay) ==>
               IsTarget(obs[id], t.membership, t.overlay, root)
    requires e.id !in seen
    ensures forall id, root :: id in obs && Stirred(t0, seen + {e.id}, id) && Touches(obs[id], root, prior, t0.overlay) ==>
              Bumped(t0.epoch, t.epoch, root)
  {
    BumpedLater(t0.epoch, t1.epoch, t.epoch);
    StirredMore(prior, obs, badPayload, t0, t1, seen, e);
    hide IsTarget, Bumped, NotBefore, Touches, Indexed, WaitsGrow, IndexesExact, Rejected, VerdictHeld, Awaits, Stirred, Moves,
         TypeOf, RootTarget, ReplyTarget, PatchOfRoot, EntryOf;
    forall id, root | id in obs && Stirred(t0, seen + {e.id}, id) && Touches(obs[id], root, prior, t0.overlay)
      ensures Bumped(t0.epoch, t.epoch, root)
    {
      if !Stirred(t0, seen, id) && id != e.id {
        assert Waits(t1.pending, e.id, id);
        WaiterTarget(t1.pending, e.id, id, obs, t.membership, t.overlay, root);
      }
    }
  }

  lemma WaiterTarget(pending: map<Id, set<Id>>, awaited: Id, id: Id, obs: Observed, membership: map<Id, Id>, overlay: map<Id, set<Id>>, root: Id)
    requires Waits(pending, awaited, id) && id in obs && IsTarget(obs[id], membership, overlay, root)
    ensures SomeTarget(EntryOf(pending, awaited), obs, membership, overlay, root)
  {
    hide IsTarget;
    assert id in EntryOf(pending, awaited);
  }

  /** The tables only grow, so what the event touches is among the targets they list. */
  lemma TablesReach(prior: Observed, obs: Observed, badPayload: PayloadCheck, t0: Tables, t1: Tables, t: Tables, seen: set<Id>, e: Event)
    requires Batch(prior, obs) && Folded(prior, obs, badPayload, t0, t1, seen)
    requires e.id in obs && obs[e.id] == e && e.id !in prior && Processed(e, obs, badPayload, t1, t)
    requires Indexed(prior.Keys + seen + {e.id}, obs, t.membership, t.overlay)
    ensures WaitsGrow(t0.overlay, t.overlay)
    ensures forall id, root :: id in obs && Touches(obs[id], root, prior, t0.overlay) ==>
              IsTarget(obs[id], t.membership, t.overlay, root)
  {
    assert Indexed(prior.Keys, prior, t.membership, t.overlay) by {
      hide Waits, TypeOf, RootTarget, ReplyTarget, Folded, Processed;
    }
    assert WaitsGrow(t0.overlay, t.overlay) by { hide Waits, TypeOf, RootTarget, ReplyTarget, Indexed; }
    hide Waits, Folded, Processed, Indexed, WaitsGrow, Touches, IsTarget, Batch;
    forall id, root | id in obs && Touches(obs[id], root, prior, t0.overlay)
      ensures IsTarget(obs[id], t.membership, t.overlay, root)
    {
      BatchKeyed(prior, obs, id);
      TouchesIsTarget(obs[id], root, prior, t0.overlay, t.membership, t.overlay);
    }
  }

  lemma BatchKeyed(prior: Observed, obs: Observed, id: Id)
    requires Batch(prior, obs) && id in obs
    ensures Keyed(obs) && KindsFit(obs) && obs[id].id == id && KindFitsType(obs[id])
  {
    hide KindFitsType;
  }

  lemma IndexedMore(prior: Observed, obs: Observed, badPayload: PayloadCheck, t1: Tables, t: Tables, seen: set<Id>, e: Event)
    requires Batch(prior, obs) && Indexed(prior.Keys + seen, obs, t1.membership, t1.overlay)
    requires e.id in obs && obs[e.id] == e
    requires Processed(e, obs, badPayload, t1, t)
    ensures Indexed(prior.Keys + seen + {e.id}, obs, t.membership, t.overlay)
  {
    hide Waits, ValidateEvent, IsTarget, Bumped, NotBefore, VerdictHeld, TypeOf, RootTarget, ReplyTarget;
  }

  /** Waking is never lost: an event still waiting keeps its slots under the ids to come. */
  lemma SettleOne(prior: Observed, obs: Observed, badPayload: PayloadCheck, t1: Tables, t: Tables, e: Event, coming: set<Id>, id: Id)
    requires Keyed(obs) && e.id in obs && obs[e.id] == e && id in obs
    requires Processed(e, obs, badPayload, t1, t)
    requires id == e.id || SettledOrWaiting(id, obs, badPayload, t1, coming + {e.id})
    ensures SettledOrWaiting(id, obs, badPayload, t, coming)
  {
    if id != e.id && VerdictHeld(obs[id], obs, badPayload, t1) {
      forall q | q in t1.invalid ensures q in t.invalid {}
      VerdictSurvives(obs[id], obs, badPayload, e.id, t1, t);
    }
    hide Waits, ValidateEvent, IsTarget, Bumped, NotBefore, VerdictHeld, TypeOf, RootTarget, ReplyTarget;
  }

  /** Every event already in, old or new, is settled or will be woken by an id in `coming`. */
  ghost predicate Held(ins: set<Id>, obs: Observed, badPayload: PayloadCheck, t: Tables, coming: set<Id>) {
    forall id :: id in ins ==> id in obs && SettledOrWaiting(id, obs, badPayload, t, coming)
  }

  lemma HeldStep(ins: set<Id>, prior: Observed, obs: Observed, badPayload: PayloadCheck, t1: Tables, t: Tables, e: Event, coming: set<Id>)
    requires Keyed(obs) && e.id in obs && obs[e.id] == e && Held(ins, obs, badPayload, t1, coming)
    requires Processed(e, obs, badPayload, t1, t)
    ensures Held(ins + {e.id}, obs, badPayload, t, coming - {e.id})
  {
    forall id | id in ins + {e.id} ensures id in obs && SettledOrWaiting(id, obs, badPayload, t, coming - {e.id}) {
      if id != e.id { WiderWait(id, obs, badPayload, t1, coming, e.id); }
      SettleOne(prior, obs, badPayload, t1, t, e, coming - {e.id}, id);
    }
  }

  lemma WiderWait(id: Id, obs: Observed, badPayload: PayloadCheck, t: Tables, coming: set<Id>, x: Id)
    requires id in obs && SettledOrWaiting(id, obs, badPayload, t, coming)
    ensures SettledOrWaiting(id, obs, badPayload, t, coming - {x} + {x})
  {
    hide VerdictHeld, Waits;
  }

  method FoldBatch(events: seq<Event>, prior: Observed, obs: Observed, badPayload: PayloadCheck, t0: Tables) returns (t: Tables)
    requires Keyed(prior) && Batch(prior, obs) && obs == A.AfterObserve(prior, events)
    requires Indexed(prior.Keys, prior, t0.membership, t0.overlay)
    ensures Folded(prior, obs, badPayload, t0, t, obs.Keys - prior.Keys)
    ensures Held(prior.Keys, obs, badPayload, t0, obs.Keys - prior.Keys) ==> Held(obs.Keys, obs, badPayload, t, {})
  {
    t := t0;
    var newlySeen: set<Id> := {};
    ghost var held := Held(prior.Keys, obs, badPayload, t0, obs.Keys - prior.Keys);
    ghost var ins, coming := prior.Keys, obs.Keys - prior.Keys;
    BumpRefl(t0.epoch);
    assert Folded(prior, obs, badPayload, t0, t, {}) by { hide Waits, TypeOf, RootTarget, ReplyTarget; }
    hide Folded, SettledOrWaiting, Processed, Indexed, Keyed, KindsFit, Extends, Held;
    for i := 0 to |events|
      invariant forall id :: id in newlySeen <==> id in A.AfterObserve(prior, events[..i]) && id !in prior
      invariant forall id :: id in coming <==> id in obs && id !in prior && id !in newlySeen
      invariant forall id :: id in ins <==> id in prior || id in newlySeen
      invariant Folded(prior, obs, badPayload, t0, t, newlySeen)
      invariant held ==> Held(ins, obs, badPayload, t, coming)
    {
      var e := events[i];
      FirstOfBatch(prior, events, i);
      if e.id in prior || e.id in newlySeen { continue; }
      ghost var t1 := t;
      t := ProcessObserved(e, obs, badPayload, t);
      FoldOne(prior, obs, badPayload, t0, t1, t, newlySeen, e);
      if held { HeldStep(ins, prior, obs, badPayload, t1, t, e, coming); }
      newlySeen, ins, coming := newlySeen + {e.id}, ins + {e.id}, coming - {e.id};
    }
    assert events[..|events|] == events;
    A.AfterObserveKeeps(prior, events);
    forall id
      ensures id in newlySeen <==> id in obs.Keys - prior.Keys
      ensures id !in coming && (id in ins <==> id in obs.Keys)
    {
      assert id in newlySeen <==> id in obs && id !in prior;
    }
    SameElements(newlySeen, obs.Keys - prior.Keys);
    SameElements(coming, {});
    SameElements(ins, obs.Keys);
  }

  lemma AllSettled(id: Id, obs: Observed, badPayload: PayloadCheck, t: Tables)
    requires id in obs
    ensures SettledOrWaiting(id, obs, badPayload, t, {}) ==> VerdictHeld(obs[id], obs, badPayload, t)
  {
  }

  /** The i-th event is the one observed under its id, unless that id came earlier. */
  lemma FirstOfBatch(prior: Observed, events: seq<Event>, i: nat)
    requires i < |events| && Keyed(prior)
    ensures var done, next, all := A.AfterObserve(prior, events[..i]), A.AfterObserve(prior, events[..i + 1]), A.AfterObserve(prior, events);
            && (forall id :: id in next <==> id in done || id == events[i].id)
            && (forall id :: id in prior ==> id in done)
            && (events[i].id !in done ==> events[i].id in all && all[events[i].id] == events[i])
  {
    assert events[..i + 1][..i] == events[..i] && events[..i + 1][i] == events[i];
    Longer(prior, events, i + 1);
    A.AfterObserveKeeps(prior, events[..i]);
  }

  lemma {:induction false} Longer(prior: Observed, events: seq<Event>, n: nat)
    requires n <= |events| && Keyed(prior)
    ensures var some, all := A.AfterObserve(prior, events[..n]), A.AfterObserve(prior, events);
            forall id :: id in some ==> id in all && all[id] == some[id]
    decreases |events|
  {
    if n == |events| {
      assert events[..n] == events;
    } else {
      var m := |events| - 1;
      assert events[..m][..n] == events[..n];
      Longer(prior, events[..m], n);
    }
  }

  // ---------------------------------------------------------------- unobserving a list

  /** What taking a list of ids out does to the tables; the rest of the state is left in place. */
  ghost predicate Retired(ids: seq<Id>, obs: Observed, badPayload: PayloadCheck, t0: Tables, t: Tables) {
    && t == t0.(pending := t.pending, epoch := t.epoch)
    && NotBefore(t0.epoch, t.epoch)
    && (forall root :: Bumped(t0.epoch, t.epoch, root) <==> SomeTarget(Elems(ids), obs, t0.membership, t0.overlay, root))
    && (forall a, x :: Waits(t.pending, a, x) ==> Waits(t0.pending, a, x))
    && (forall a, x :: Waits(t0.pending, a, x) && x !in ids ==> Waits(t.pending, a, x))
    && (forall a, x ::
          x in ids && x in obs && ValidateEvent(obs[x], obs, badPayload).Pending?
          && a in ValidateEvent(obs[x], obs, badPayload).awaiting
          ==> !Waits(t.pending, a, x))
  }

  method StopWaiting(id: Id, awaiting: seq<Id>, pending0: map<Id, set<Id>>) returns (pending: map<Id, set<Id>>)
    ensures forall a, x :: Waits(pending, a, x) <==> Waits(pending0, a, x) && !(x == id && a in awaiting)
  {
    hide Waits, RemoveAwaiting;
    pending := pending0;
    for i := 0 to |awaiting|
      invariant forall a, x :: Waits(pending, a, x) <==> Waits(pending0, a, x) && !(x == id && a in awaiting[..i])
    {
      assert awaiting[..i + 1] == awaiting[..i] + [awaiting[i]];
      RemoveWaits(pending, awaiting[i], id);
      pending := RemoveAwaiting(pending, awaiting[i], id);
    }
    assert awaiting[..|awaiting|] == awaiting;
  }

  method RetireOne(id: Id, ghost prior: seq<Id>, obs: Observed, badPayload: PayloadCheck, ghost t0: Tables, t1: Tables) returns (t: Tables)
    requires Retired(prior, obs, badPayload, t0, t1)
    ensures Retired(prior + [id], obs, badPayload, t0, t)
  {
    BumpRefl(t1.epoch);
    SomeTargetMore(Elems(prior), id, obs, t0.membership, t0.overlay);
    ElemsAppend(prior, id);
    hide Waits, ValidateEvent, IsTarget, Bumped, NotBefore, SomeTarget;
    t := t1;
    if id !in obs { return; }
    var verdict := ValidateEvent(obs[id], obs, badPayload);
    if verdict.Pending? {
      var pending := StopWaiting(id, verdict.awaiting, t.pending);
      t := t.(pending := pending);
    }
    var epoch := BumpTargets(obs[id], t.membership, t.overlay, t.epoch);
    BumpedLater(t0.epoch, t1.epoch, epoch);
    t := t.(epoch := epoch);
  }

  /** Frees the slots of every listed event and moves exactly their targets' epochs. */
  method RetireBatch(ids: seq<Id>, obs: Observed, badPayload: PayloadCheck, t0: Tables) returns (t: Tables)
    ensures Retired(ids, obs, badPayload, t0, t)
  {
    t := t0;
    BumpRefl(t0.epoch);
    assert Retired([], obs, badPayload, t0, t);
    hide Retired;
    for i := 0 to |ids|
      invariant Retired(ids[..i], obs, badPayload, t0, t)
    {
      assert ids[..i + 1] == ids[..i] + [ids[i]];
      t := RetireOne(ids[i], ids[..i], obs, badPayload, t0, t);
    }
    assert ids[..|ids|] == ids;
  }

  // ---------------------------------------------------------------- the reducer

  ghost predicate StoreInv(s: StoreState, model: A.Model) {
    && A.Represents(s.admit, model)
    && Indexed(s.Obs().Keys, s.Obs(), s.tables.membership, s.tables.overlay)
  }

  /** One delta, said of the states before and after. */
  ghost predicate StoreStep(s: StoreState, model: A.Model, delta: A.AdmissionDelta, next: StoreState, badPayload: PayloadCheck) {
    && StoreInv(s, model) && StoreInv(next, A.Step(model, delta)) && A.DeltaFits(delta)
    && match delta
       case Observe(events) =>
         if events == [] then next == s
         else
           && next.trustEpoch == s.trustEpoch && next.observedEpoch == s.observedEpoch + 1
           && Folded(s.Obs(), next.Obs(), badPayload, s.tables, next.tables, next.Obs().Keys - s.Obs().Keys)
           && (Held(s.Obs().Keys, next.Obs(), badPayload, s.tables, next.Obs().Keys - s.Obs().Keys) ==>
                 Held(next.Obs().Keys, next.Obs(), badPayload, next.tables, {}))
       case Unobserve(ids) =>
         if ids == [] then next == s
         else
           && next.trustEpoch == s.trustEpoch && next.observedEpoch == s.observedEpoch + 1
           && Retired(ids, s.Obs(), badPayload, s.tables, next.tables)
       case Trust(keys) =>
         if keys == [] then next == s
         else next == s.(admit := next.admit, trustEpoch := s.trustEpoch + 1)
       case Untrust(keys) =>
         if keys == [] then next == s
         else next == s.(admit := next.admit, trustEpoch := s.trustEpoch + 1)
  }

  /** An empty delta leaves the model where it is. */
  lemma EmptyDelta(model: A.Model, delta: A.AdmissionDelta)
    requires A.ModelOk(model)
    requires delta in {A.Observe([]), A.Unobserve([]), A.Trust([]), A.Untrust([])}
    ensures A.Step(model, delta) == model
  {
    hide TypeOf, A.LosesVouchersFirst, A.InChain;
    var next := A.Step(model, delta);
    if delta.Unobserve? {
      assert A.Without(model.obs, {}) == model.obs;
      assert A.StrandedBy(model, []) == {} by { NothingListed(model); }
    }
    assert next.stranded == model.stranded;
  }

  lemma NothingListed(model: A.Model)
    ensures A.StrandedBy(model, []) == {}
  {
    forall root ensures !A.LosesVouchersFirst(model.obs, model.trusted, [], root) {}
    hide A.LosesVouchersFirst, A.InChain;
  }

  lemma IndexedStays(obs: Observed, fewer: Observed, membership: map<Id, Id>, overlay: map<Id, set<Id>>)
    requires Indexed(obs.Keys, obs, membership, overlay)
    requires forall id :: id in fewer ==> id in obs && fewer[id] == obs[id]
    ensures Indexed(fewer.Keys, fewer, membership, overlay)
  {
    hide Waits, TypeOf, RootTarget, ReplyTarget;
  }

  lemma BatchFits(model: A.Model, events: seq<Event>)
    requires A.ModelOk(model) && A.DeltaFits(A.Observe(events))
    ensures Batch(model.obs, A.AfterObserve(model.obs, events))
  {
    A.AfterObserveKeeps(model.obs, events);
    hide KindFitsType;
  }

  /** Applies one delta to the store. */
  method ApplyStoreDelta(s: StoreState, delta: A.AdmissionDelta, badPayload: PayloadCheck, ghost model: A.Model) returns (next: StoreState)
    requires StoreInv(s, model) && A.DeltaFits(delta)
    ensures StoreStep(s, model, delta, next, badPayload)
  {
    ghost var after := A.Step(model, delta);
    if delta in {A.Observe([]), A.Unobserve([]), A.Trust([]), A.Untrust([])} {
      EmptyDelta(model, delta);
      return s;
    }
    assert A.ModelOk(model) && s.Obs() == model.obs;
    hide A.Represents, Indexed, Folded, Held, Retired, Batch, A.ModelOk;
    var admit := D.ApplyDelta(s.admit, delta, model);
    assert admit.observedById == after.obs by { ObsOf(admit, after); }
    match delta {
      case Observe(events) =>
        BatchFits(model, events);
        assert Keyed(s.Obs()) by { KeyedOf(model); }
        var t := FoldBatch(events, s.Obs(), admit.observedById, badPayload, s.tables);
        next := StoreState(admit, t, s.trustEpoch, s.observedEpoch + 1);
        FoldedIndexed(s.Obs(), next.Obs(), badPayload, s.tables, t);
      case Unobserve(ids) =>
        var t := RetireBatch(ids, s.Obs(), badPayload, s.tables);
        next := StoreState(admit, t, s.trustEpoch, s.observedEpoch + 1);
        RetiredTables(ids, s.Obs(), badPayload, s.tables, t);
        IndexedStays(s.Obs(), next.Obs(), t.membership, t.overlay);
      case Trust(keys) =>
        next := s.(admit := admit, trustEpoch := s.trustEpoch + 1);
      case Untrust(keys) =>
        next := s.(admit := admit, trustEpoch := s.trustEpoch + 1);
    }
  }

  lemma ObsOf(admit: A.AdmitState, model: A.Model)
    requires A.Represents(admit, model)
    ensures admit.observedById == model.obs && A.ModelOk(model)
  {
  }

  lemma KeyedOf(model: A.Model)
    requires A.ModelOk(model)
    ensures Keyed(model.obs)
  {
  }

  lemma FoldedIndexed(prior: Observed, obs: Observed, badPayload: PayloadCheck, t0: Tables, t: Tables)
    requires Folded(prior, obs, badPayload, t0, t, obs.Keys - prior.Keys)
    ensures Indexed(obs.Keys, obs, t.membership, t.overlay)
  {
    hide Waits, TypeOf, RootTarget, ReplyTarget, Touches, ValidateEvent;
  }

  lemma RetiredTables(ids: seq<Id>, obs: Observed, badPayload: PayloadCheck, t0: Tables, t: Tables)
    requires Retired(ids, obs, badPayload, t0, t)
    ensures t.membership == t0.membership && t.overlay == t0.overlay
  {
  }
}
