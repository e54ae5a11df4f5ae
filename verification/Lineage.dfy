/**
 * Which root-author patches can belong to a chain: the `e reply` lineage of a patch is followed
 * through events of the root's own author until it reaches the root, an unobserved id, or a
 * dead end (no reply marker, a foreign parent, or a loop).
 */
module Lineage {
  import opened Prelude
  import opened Events

  datatype Class = Chain | Held | Ignored

  /** Where one `e reply` step leads. */
  datatype Hop = AtRoot | Missing | Broken | Via(parent: Event)

  function HopFrom(obs: Observed, rootId: Id, author: Pubkey, p: Event): Hop {
    var target := ReplyTarget(p);
    if target.None? then Broken
    else if target.value == rootId then AtRoot
    else if target.value !in obs then Missing
    else if obs[target.value].pubkey != author then Broken
    else Via(obs[target.value])
  }

  /** The hop taken after following `n` parents; the walk up stays where it can go no further. */
  function Ancestor(obs: Observed, rootId: Id, author: Pubkey, p: Event, n: nat): Hop
    decreases n
  {
    var hop := HopFrom(obs, rootId, author, p);
    if n == 0 || !hop.Via? then hop else Ancestor(obs, rootId, author, hop.parent, n - 1)
  }

  ghost predicate Reaches(obs: Observed, rootId: Id, author: Pubkey, p: Event, end: Hop) {
    exists n: nat :: Ancestor(obs, rootId, author, p, n) == end
  }

  /** What a lineage means, with no memo and no cycle guard. */
  ghost function ClassOf(obs: Observed, rootId: Id, author: Pubkey, p: Event): Class {
    if Reaches(obs, rootId, author, p, AtRoot) then Chain
    else if Reaches(obs, rootId, author, p, Missing) then Held
    else Ignored
  }

  /** A hop that is not a parent is where the lineage ends, however much further one looks. */
  lemma {:induction false} EndIsFinal(obs: Observed, rootId: Id, author: Pubkey, p: Event, m: nat, n: nat)
    requires m <= n && !Ancestor(obs, rootId, author, p, m).Via?
    ensures Ancestor(obs, rootId, author, p, n) == Ancestor(obs, rootId, author, p, m)
    decreases m
  {
    var hop := HopFrom(obs, rootId, author, p);
    if m > 0 && hop.Via? { EndIsFinal(obs, rootId, author, hop.parent, m - 1, n - 1); }
  }

  lemma {:induction false} Compose(obs: Observed, rootId: Id, author: Pubkey, p: Event, n: nat, q: Event, k: nat)
    requires Ancestor(obs, rootId, author, p, n) == Via(q)
    ensures Ancestor(obs, rootId, author, p, n + 1 + k) == Ancestor(obs, rootId, author, q, k)
    decreases n
  {
    if n > 0 {
      var hop := HopFrom(obs, rootId, author, p);
      Compose(obs, rootId, author, hop.parent, n - 1, q, k);
    }
  }

  lemma ReachesThrough(obs: Observed, rootId: Id, author: Pubkey, p: Event, end: Hop)
    requires HopFrom(obs, rootId, author, p).Via? && !end.Via?
    ensures Reaches(obs, rootId, author, p, end)
            <==> Reaches(obs, rootId, author, HopFrom(obs, rootId, author, p).parent, end)
  {
    var q := HopFrom(obs, rootId, author, p).parent;
    if n: nat :| Ancestor(obs, rootId, author, p, n) == end {
      assert Ancestor(obs, rootId, author, q, n - 1) == end;
    }
    if n: nat :| Ancestor(obs, rootId, author, q, n) == end {
      assert Ancestor(obs, rootId, author, p, n + 1) == end;
    }
  }

  lemma ReachesAtOnce(obs: Observed, rootId: Id, author: Pubkey, p: Event, end: Hop)
    requires !HopFrom(obs, rootId, author, p).Via?
    ensures Reaches(obs, rootId, author, p, end) <==> HopFrom(obs, rootId, author, p) == end
  {
    assert Ancestor(obs, rootId, author, p, 0) == HopFrom(obs, rootId, author, p);
  }

  /** One step of the classification: a patch has the class of its parent. */
  lemma ClassStep(obs: Observed, rootId: Id, author: Pubkey, p: Event)
    ensures ClassOf(obs, rootId, author, p) ==
            match HopFrom(obs, rootId, author, p)
            case AtRoot => Chain
            case Missing => Held
            case Broken => Ignored
            case Via(q) => ClassOf(obs, rootId, author, q)
  {
    if HopFrom(obs, rootId, author, p).Via? {
      ReachesThrough(obs, rootId, author, p, AtRoot);
      ReachesThrough(obs, rootId, author, p, Missing);
    } else {
      ReachesAtOnce(obs, rootId, author, p, AtRoot);
      ReachesAtOnce(obs, rootId, author, p, Missing);
    }
  }

  /** The classification, read off the reply target alone. */
  lemma ClassMeans(obs: Observed, rootId: Id, author: Pubkey, p: Event)
    ensures ClassOf(obs, rootId, author, p) ==
            match ReplyTarget(p)
            case None => Ignored
            case Some(target) =>
              if target == rootId then Chain
              else if target !in obs then Held
              else if obs[target].pubkey != author then Ignored
              else ClassOf(obs, rootId, author, obs[target])
  {
    ClassStep(obs, rootId, author, p);
    hide ReplyTarget, ClassOf;
  }

  /** A lineage that returns to its own start never ends. */
  lemma {:induction false} LoopNeverEnds(obs: Observed, rootId: Id, author: Pubkey, p: Event, n: nat, k: nat)
    requires Ancestor(obs, rootId, author, p, n) == Via(p)
    ensures Ancestor(obs, rootId, author, p, k).Via?
    decreases k
  {
    if k <= n {
      if !Ancestor(obs, rootId, author, p, k).Via? { EndIsFinal(obs, rootId, author, p, k, n); }
    } else {
      Compose(obs, rootId, author, p, n, p, k - n - 1);
      LoopNeverEnds(obs, rootId, author, p, n, k - n - 1);
    }
  }

  lemma LoopIsIgnored(obs: Observed, rootId: Id, author: Pubkey, p: Event, n: nat)
    requires Ancestor(obs, rootId, author, p, n) == Via(p)
    ensures ClassOf(obs, rootId, author, p) == Ignored
  {
    forall k: nat ensures Ancestor(obs, rootId, author, p, k).Via? {
      LoopNeverEnds(obs, rootId, author, p, n, k);
    }
  }

  // ---------------------------------------------------------------- an arrival

  /** The event at which the walk up from `p` stands after `n` parents. */
  function Walked(obs: Observed, rootId: Id, author: Pubkey, p: Event, n: nat): Event
    decreases n
  {
    var hop := HopFrom(obs, rootId, author, p);
    if n == 0 || !hop.Via? then p else Walked(obs, rootId, author, hop.parent, n - 1)
  }

  /** The lineage of `p` ends at the unobserved id `end`. */
  ghost predicate WaitsAt(obs: Observed, rootId: Id, author: Pubkey, p: Event, end: Id) {
    exists n: nat ::
      var last := Walked(obs, rootId, author, p, n);
      HopFrom(obs, rootId, author, last) == Missing && ReplyTarget(last) == Some(end)
  }

  lemma WaitsAtStep(obs: Observed, rootId: Id, author: Pubkey, p: Event, end: Id)
    ensures WaitsAt(obs, rootId, author, p, end) <==>
            match HopFrom(obs, rootId, author, p)
            case Via(q) => WaitsAt(obs, rootId, author, q, end)
            case Missing => ReplyTarget(p) == Some(end)
            case _ => false
  {
    hide ReplyTarget, HopFrom;
    var hop := HopFrom(obs, rootId, author, p);
    assert Walked(obs, rootId, author, p, 0) == p;
    if hop.Via? {
      if n: nat :| HopFrom(obs, rootId, author, Walked(obs, rootId, author, p, n)) == Missing
                   && ReplyTarget(Walked(obs, rootId, author, p, n)) == Some(end)
      {
        assert Walked(obs, rootId, author, hop.parent, n - 1) == Walked(obs, rootId, author, p, n);
      }
      if n: nat :| HopFrom(obs, rootId, author, Walked(obs, rootId, author, hop.parent, n)) == Missing
                   && ReplyTarget(Walked(obs, rootId, author, hop.parent, n)) == Some(end)
      {
        assert Walked(obs, rootId, author, p, n + 1) == Walked(obs, rootId, author, hop.parent, n);
      }
    }
  }

  /** A lineage that does not wait for the arrival runs as before. */
  lemma {:induction false} SameWalk(obs: Observed, rootId: Id, author: Pubkey, p: Event, e: Event, n: nat)
    requires e.id !in obs && e.id != rootId && !WaitsAt(obs, rootId, author, p, e.id)
    ensures Ancestor(obs, rootId, author, p, n) == Ancestor(obs[e.id := e], rootId, author, p, n)
    decreases n
  {
    WaitsAtStep(obs, rootId, author, p, e.id);
    var hop := HopFrom(obs, rootId, author, p);
    hide ReplyTarget, WaitsAt;
    assert hop == HopFrom(obs[e.id := e], rootId, author, p);
    if n > 0 && hop.Via? { SameWalk(obs, rootId, author, hop.parent, e, n - 1); }
  }

  /** A lineage that waited for the arrival goes on through it, if its author is the root's. */
  lemma {:induction false} WalkGoesOn(obs: Observed, rootId: Id, author: Pubkey, p: Event, e: Event, n: nat)
    requires e.id !in obs && e.id != rootId
    requires HopFrom(obs, rootId, author, Walked(obs, rootId, author, p, n)) == Missing
    requires ReplyTarget(Walked(obs, rootId, author, p, n)) == Some(e.id)
    ensures ClassOf(obs, rootId, author, p) == Held
    ensures ClassOf(obs[e.id := e], rootId, author, p)
            == if e.pubkey == author then ClassOf(obs[e.id := e], rootId, author, e) else Ignored
    decreases n
  {
    var hop := HopFrom(obs, rootId, author, p);
    ClassStep(obs, rootId, author, p);
    ClassStep(obs[e.id := e], rootId, author, p);
    hide ReplyTarget, ClassOf;
    if n > 0 && hop.Via? { WalkGoesOn(obs, rootId, author, hop.parent, e, n - 1); }
  }

  lemma SameClass(a: Observed, b: Observed, rootId: Id, author: Pubkey, p: Event)
    requires forall n: nat :: Ancestor(a, rootId, author, p, n) == Ancestor(b, rootId, author, p, n)
    ensures ClassOf(a, rootId, author, p) == ClassOf(b, rootId, author, p)
  {
    hide Ancestor;
  }

  /** What an arrival does to the class of any patch: it decides exactly the lineages that waited for it. */
  lemma ClassAfterArrival(obs: Observed, rootId: Id, author: Pubkey, p: Event, e: Event)
    requires e.id !in obs && e.id != rootId
    ensures ClassOf(obs[e.id := e], rootId, author, p) ==
            if !WaitsAt(obs, rootId, author, p, e.id) then ClassOf(obs, rootId, author, p)
            else if e.pubkey == author then ClassOf(obs[e.id := e], rootId, author, e)
            else Ignored
    ensures WaitsAt(obs, rootId, author, p, e.id) ==> ClassOf(obs, rootId, author, p) == Held
  {
    if WaitsAt(obs, rootId, author, p, e.id) {
      var n: nat :| HopFrom(obs, rootId, author, Walked(obs, rootId, author, p, n)) == Missing
                    && ReplyTarget(Walked(obs, rootId, author, p, n)) == Some(e.id);
      WalkGoesOn(obs, rootId, author, p, e, n);
    } else {
      forall n: nat { SameWalk(obs, rootId, author, p, e, n); }
      SameClass(obs, obs[e.id := e], rootId, author, p);
    }
  }

  // ---------------------------------------------------------------- the classifier

  /** The patches being classified form one line of parents that leads to `next`. */
  ghost predicate Stack(obs: Observed, rootId: Id, author: Pubkey, stack: seq<Event>, next: Event) {
    && (forall i :: 0 <= i < |stack| ==> stack[i].id in obs && obs[stack[i].id] == stack[i])
    && (forall i :: 0 <= i < |stack| - 1 ==> HopFrom(obs, rootId, author, stack[i]) == Via(stack[i + 1]))
    && (stack != [] ==> HopFrom(obs, rootId, author, stack[|stack| - 1]) == Via(next))
  }

  lemma {:induction false} StackReaches(obs: Observed, rootId: Id, author: Pubkey, stack: seq<Event>, next: Event, i: nat)
    requires Stack(obs, rootId, author, stack, next) && i < |stack|
    ensures Ancestor(obs, rootId, author, stack[i], |stack| - 1 - i) == Via(next)
    decreases |stack| - i
  {
    if i < |stack| - 1 { StackReaches(obs, rootId, author, stack, next, i + 1); }
  }

  ghost predicate OnStack(stack: seq<Event>, id: Id) {
    exists i :: 0 <= i < |stack| && stack[i].id == id
  }

  /** Every verdict is final, except the provisional ones of the patches on the stack. */
  ghost predicate ConsistentMap(obs: Observed, rootId: Id, author: Pubkey, m: map<Id, Class>, stack: seq<Event>) {
    && m.Keys <= obs.Keys
    && (forall i :: 0 <= i < |stack| ==> stack[i].id in m && m[stack[i].id] == Ignored)
    && (forall id :: id in m && !OnStack(stack, id) ==> m[id] == ClassOf(obs, rootId, author, obs[id]))
  }

  /** A verdict found in the memo is right, even a provisional one: then the lineage loops. */
  lemma MemoIsRight(obs: Observed, rootId: Id, author: Pubkey, m: map<Id, Class>, stack: seq<Event>, p: Event)
    requires ConsistentMap(obs, rootId, author, m, stack) && Stack(obs, rootId, author, stack, p)
    requires p.id in m && obs[p.id] == p
    ensures m[p.id] == ClassOf(obs, rootId, author, p)
  {
    hide ReplyTarget, ClassOf;
    if i :| 0 <= i < |stack| && stack[i].id == p.id {
      StackReaches(obs, rootId, author, stack, p, i);
      LoopIsIgnored(obs, rootId, author, p, |stack| - 1 - i);
    }
  }

  lemma OnPushed(stack: seq<Event>, p: Event, id: Id)
    ensures OnStack(stack + [p], id) <==> OnStack(stack, id) || id == p.id
  {
    assert forall i :: 0 <= i < |stack| ==> (stack + [p])[i] == stack[i];
    assert (stack + [p])[|stack|] == p;
  }

  lemma Push(obs: Observed, rootId: Id, author: Pubkey, m: map<Id, Class>, stack: seq<Event>, p: Event)
    requires ConsistentMap(obs, rootId, author, m, stack)
    requires p.id in obs && p.id !in m
    ensures !OnStack(stack, p.id)
    ensures ConsistentMap(obs, rootId, author, m[p.id := Ignored], stack + [p])
  {
    hide ClassOf;
    forall id ensures OnStack(stack + [p], id) <==> OnStack(stack, id) || id == p.id { OnPushed(stack, p, id); }
  }

  lemma PushStack(obs: Observed, rootId: Id, author: Pubkey, stack: seq<Event>, p: Event)
    requires Stack(obs, rootId, author, stack, p) && p.id in obs && obs[p.id] == p
    requires HopFrom(obs, rootId, author, p).Via?
    ensures Stack(obs, rootId, author, stack + [p], HopFrom(obs, rootId, author, p).parent)
  {
    hide ReplyTarget, HopFrom;
  }

  /** Once the lineage of `p` is settled its provisional verdict gives way to the real one. */
  lemma Pop(obs: Observed, rootId: Id, author: Pubkey, m: map<Id, Class>, stack: seq<Event>, p: Event)
    requires ConsistentMap(obs, rootId, author, m, stack + [p]) && p.id in obs && obs[p.id] == p
    requires !OnStack(stack, p.id)
    ensures ConsistentMap(obs, rootId, author, m[p.id := ClassOf(obs, rootId, author, p)], stack)
  {
    hide ClassOf;
    forall id ensures OnStack(stack + [p], id) <==> OnStack(stack, id) || id == p.id { OnPushed(stack, p, id); }
    assert forall i :: 0 <= i < |stack| ==> (stack + [p])[i] == stack[i];
  }

  /** The memoised classifier: one map of verdicts, filled with a provisional one while in progress. */
  class Classifier {
    const obs: Observed
    const rootId: Id
    const author: Pubkey
    var eligibility: map<Id, Class>

    constructor (obs: Observed, rootId: Id, author: Pubkey)
      ensures this.obs == obs && this.rootId == rootId && this.author == author
      ensures eligibility == map[]
    {
      this.obs, this.rootId, this.author := obs, rootId, author;
      eligibility := map[];
    }

    ghost predicate Consistent(stack: seq<Event>)
      reads this
    {
      Keyed(obs) && ConsistentMap(obs, rootId, author, eligibility, stack)
    }

    method Classify(patch: Event, ghost stack: seq<Event>) returns (cls: Class)
      requires Consistent(stack) && Stack(obs, rootId, author, stack, patch)
      requires patch.id in obs && obs[patch.id] == patch
      modifies this`eligibility
      ensures cls == ClassOf(obs, rootId, author, patch)
      ensures Consistent(stack)
      ensures old(eligibility.Keys) <= eligibility.Keys && patch.id in eligibility
      decreases obs.Keys - eligibility.Keys
    {
      hide ReplyTarget, ClassOf, Ancestor, ConsistentMap, Stack;
      if patch.id in eligibility {
        MemoIsRight(obs, rootId, author, eligibility, stack, patch);
        return eligibility[patch.id];
      }
      Push(obs, rootId, author, eligibility, stack, patch);
      eligibility := eligibility[patch.id := Ignored];
      ClassStep(obs, rootId, author, patch);
      var parentId := ReplyTarget(patch);
      if parentId.None? {
        cls := Ignored;
      } else if parentId.value == rootId {
        cls := Chain;
      } else if parentId.value !in obs {
        cls := Held;
      } else if obs[parentId.value].pubkey != author {
        cls := Ignored;
      } else {
        PushStack(obs, rootId, author, stack, patch);
        assert patch.id in obs.Keys - old(eligibility.Keys) && patch.id in eligibility.Keys;
        cls := Classify(obs[parentId.value], stack + [patch]);
      }
      Pop(obs, rootId, author, eligibility, stack, patch);
      eligibility := eligibility[patch.id := cls];
    }

    /** Classifying in any order gives every patch the verdict its lineage means. */
    method ClassifyAll(patches: set<Event>)
      requires Consistent([])
      requires forall p :: p in patches ==> p.id in obs && obs[p.id] == p
      modifies this`eligibility
      ensures Consistent([])
      ensures forall p :: p in patches ==>
                p.id in eligibility && eligibility[p.id] == ClassOf(obs, rootId, author, p)
    {
      var todo := patches;
      while todo != {}
        invariant todo <= patches && Consistent([])
        invariant forall p :: p in patches - todo ==> p.id in eligibility
        decreases |todo|
      {
        var p := Pick(todo);
        var _ := Classify(p, []);
        todo := todo - {p};
      }
    }
  }
}
