/** The deletion cascade and the canonical walk with self-fork detection. */
module ChainWalk {
  import opened Prelude
  import opened Events

  // ---------------------------------------------------------------- cascade

  /** `x` holds every deleted candidate and, with a candidate, every candidate that replies to it. */
  ghost predicate DescendantClosed(candidates: set<Event>, deleted: set<Id>, x: set<Id>) {
    forall p :: p in candidates && (p.id in deleted || (ReplyTarget(p).Some? && ReplyTarget(p).value in x))
                ==> p.id in x
  }

  ghost predicate IsCascade(candidates: set<Event>, deleted: set<Id>, removed: set<Id>) {
    && removed <= IdsOf(candidates)
    && DescendantClosed(candidates, deleted, removed)
    && forall x :: DescendantClosed(candidates, deleted, x) ==> removed <= x
  }

  /** The fixed point, in whatever order the candidates are visited. */
  method Cascade(candidates: set<Event>, deleted: set<Id>) returns (removed: set<Id>)
    ensures IsCascade(candidates, deleted, removed)
  {
    removed := set p | p in candidates && p.id in deleted :: p.id;
    ghost var ids := IdsOf(candidates);
    var changed := true;
    while changed
      invariant removed <= ids
      invariant forall p :: p in candidates && p.id in deleted ==> p.id in removed
      invariant !changed ==> DescendantClosed(candidates, deleted, removed)
      invariant forall x :: DescendantClosed(candidates, deleted, x) ==> removed <= x
      decreases |ids - removed|, changed
    {
      changed := false;
      var todo := candidates;
      ghost var before := removed;
      while todo != {}
        invariant todo <= candidates && before <= removed <= ids
        invariant changed <==> before != removed
        invariant !changed ==>
                    forall p :: p in candidates - todo && ReplyTarget(p).Some? && ReplyTarget(p).value in removed
                                ==> p.id in removed
        invariant forall p :: p in candidates && p.id in deleted ==> p.id in removed
        invariant forall x :: DescendantClosed(candidates, deleted, x) ==> removed <= x
        decreases |todo|
      {
        var patch := Pick(todo);
        todo := todo - {patch};
        if patch.id in removed { continue; }
        var parent := ReplyTarget(patch);
        if parent.Some? && parent.value in removed {
          removed := removed + {patch.id};
          changed := true;
        }
      }
      if changed { CardStrict(ids - removed, ids - before); }
    }
  }

  /** A candidate is removed only by its own deletion or through a removed parent. */
  lemma RemovedHasCause(candidates: set<Event>, deleted: set<Id>, removed: set<Id>, p: Event)
    requires IsCascade(candidates, deleted, removed) && IdDetermines(candidates)
    requires p in candidates && p.id in removed
    ensures p.id in deleted || (ReplyTarget(p).Some? && ReplyTarget(p).value in removed)
  {
    if p.id !in deleted && !(ReplyTarget(p).Some? && ReplyTarget(p).value in removed) {
      assert DescendantClosed(candidates, deleted, removed - {p.id});
    }
  }

  // ---------------------------------------------------------------- the walk

  /** The patches of `line` that reply to `position`. */
  ghost function Kids(line: set<Event>, position: Id): set<Event> {
    set p | p in line && ReplyTarget(p) == Some(position)
  }

  /** Position 0 is the root; position i is the i-th patch of the path. */
  function Position(rootId: Id, path: seq<Event>, i: nat): Id
    requires i <= |path|
  {
    if i == 0 then rootId else path[i - 1].id
  }

  /**
   * The canonical path through `line`: each patch is the only reply to the position before it,
   * and the path ends where there is no reply or more than one (then `fork` is the set of them).
   */
  ghost predicate Canonical(line: set<Event>, rootId: Id, path: seq<Event>, fork: set<Event>) {
    && (forall i {:trigger Position(rootId, path, i)} :: 0 <= i < |path| ==>
          Kids(line, Position(rootId, path, i)) == {path[i]})
    && fork == Kids(line, Position(rootId, path, |path|))
    && |fork| != 1
  }

  lemma {:induction false} PathsAgree(line: set<Event>, rootId: Id, p: seq<Event>, f: set<Event>, q: seq<Event>, g: set<Event>, i: nat)
    requires Canonical(line, rootId, p, f) && Canonical(line, rootId, q, g)
    requires i <= |p| && i <= |q|
    ensures Position(rootId, p, i) == Position(rootId, q, i)
    ensures forall j :: 0 <= j < i ==> p[j] == q[j]
  {
    hide ReplyTarget;
    if i > 0 {
      PathsAgree(line, rootId, p, f, q, g, i - 1);
      assert p[i - 1] in Kids(line, Position(rootId, p, i - 1));
      assert q[i - 1] in Kids(line, Position(rootId, q, i - 1));
    }
  }

  lemma OneReplyInside(line: set<Event>, rootId: Id, p: seq<Event>, f: set<Event>, i: nat)
    requires Canonical(line, rootId, p, f) && i <= |p|
    ensures |Kids(line, Position(rootId, p, i))| == 1 <==> i < |p|
  {
    hide ReplyTarget, Kids;
  }

  /** A line of patches has one canonical path, whatever order its patches arrived in. */
  lemma CanonicalUnique(line: set<Event>, rootId: Id, p: seq<Event>, f: set<Event>, q: seq<Event>, g: set<Event>)
    requires Canonical(line, rootId, p, f) && Canonical(line, rootId, q, g)
    ensures p == q && f == g
  {
    hide ReplyTarget, Kids;
    var n := if |p| <= |q| then |p| else |q|;
    PathsAgree(line, rootId, p, f, q, g, n);
    OneReplyInside(line, rootId, p, f, n);
    OneReplyInside(line, rootId, q, g, n);
  }

  /** Patches keyed by the id they reply to, one bucket each. */
  ghost predicate Buckets(children: map<Id, set<Event>>, line: set<Event>) {
    forall id :: Bucket(children, id) == Kids(line, id)
  }

  function Bucket(children: map<Id, set<Event>>, id: Id): set<Event> {
    if id in children then children[id] else {}
  }

  lemma BucketHolds(children: map<Id, set<Event>>, line: set<Event>, id: Id)
    requires Buckets(children, line)
    ensures Bucket(children, id) == Kids(line, id)
  {
  }

  method ByReplyTarget(surviving: set<Event>) returns (children: map<Id, set<Event>>)
    ensures Buckets(children, surviving)
  {
    children := map[];
    var todo := surviving;
    while todo != {}
      invariant todo <= surviving && Buckets(children, surviving - todo)
      decreases |todo|
    {
      var patch := Pick(todo);
      ghost var before := children;
      var parentId := ReplyTarget(patch);
      if parentId.Some? {
        children := children[parentId.value := Bucket(children, parentId.value) + {patch}];
      }
      forall id ensures Bucket(children, id) == Kids(surviving - (todo - {patch}), id) {
        assert Bucket(before, id) == Kids(surviving - todo, id);
      }
      todo := todo - {patch};
    }
    assert surviving - todo == surviving;
  }

  /** What the walk keeps: the path so far, no id on it twice, the root's id not on it. */
  ghost predicate WalkedTo(line: set<Event>, rootId: Id, path: seq<Event>) {
    && (forall i :: 0 <= i < |path| ==> path[i] in line && path[i].id != rootId)
    && (forall i {:trigger Position(rootId, path, i)} :: 0 <= i < |path| ==>
          Kids(line, Position(rootId, path, i)) == {path[i]})
    && (forall i, j :: 0 <= i < j < |path| ==> path[i].id != path[j].id)
  }

  /** The only reply to a position was never visited before: each patch replies to one position. */
  lemma NextIsNew(line: set<Event>, rootId: Id, path: seq<Event>, next: Event)
    requires IdDetermines(line) && WalkedTo(line, rootId, path)
    requires next in Kids(line, Position(rootId, path, |path|))
    ensures next.id !in IdsOf(Elems(path))
  {
    hide ReplyTarget;
    var here := Position(rootId, path, |path|);
    forall i | 0 <= i < |path| ensures path[i].id != next.id {
      assert path[i] in Kids(line, Position(rootId, path, i));
      assert Position(rootId, path, i) != here;
      assert path[i] != next;
    }
  }

  /** No position of a walk occurs twice. */
  lemma PositionsDiffer(line: set<Event>, rootId: Id, path: seq<Event>, i: nat, j: nat)
    requires WalkedTo(line, rootId, path) && i < j <= |path|
    ensures Position(rootId, path, i) != Position(rootId, path, j)
  {
    hide ReplyTarget, Kids;
  }

  lemma ExtendWalk(line: set<Event>, rootId: Id, path: seq<Event>, next: Event)
    requires IdDetermines(line) && WalkedTo(line, rootId, path) && next.id != rootId && next in line
    requires Kids(line, Position(rootId, path, |path|)) == {next}
    ensures WalkedTo(line, rootId, path + [next])
  {
    hide ReplyTarget;
    NextIsNew(line, rootId, path, next);
    hide Kids, IdDetermines;
    var longer := path + [next];
    forall i {:trigger Position(rootId, longer, i)} | 0 <= i < |longer|
      ensures Kids(line, Position(rootId, longer, i)) == {longer[i]}
    {
      assert Position(rootId, longer, i) == Position(rootId, path, i);
    }
  }

  /** How much of the line is not on the path yet. */
  ghost function Left(line: set<Event>, path: seq<Event>): nat {
    |line - Elems(path)|
  }

  lemma LessLeft(line: set<Event>, path: seq<Event>, next: Event)
    requires next in line && next !in path
    ensures Left(line, path + [next]) < Left(line, path)
  {
    ElemsAppend(path, next);
    assert next in line - Elems(path) && next !in line - Elems(path + [next]);
    CardStrict(line - Elems(path + [next]), line - Elems(path));
  }

  ghost function Visited(rootId: Id, path: seq<Event>): set<Id> {
    {rootId} + IdsOf(Elems(path))
  }

  /** One more step of the walk: never to an id visited before, and with less left to visit. */
  lemma OneStep(line: set<Event>, rootId: Id, path: seq<Event>, next: Event)
    requires IdDetermines(line) && WalkedTo(line, rootId, path) && rootId !in IdsOf(line)
    requires Kids(line, Position(rootId, path, |path|)) == {next}
    ensures WalkedTo(line, rootId, path + [next]) && Position(rootId, path + [next], |path| + 1) == next.id
    ensures next.id !in Visited(rootId, path) && Visited(rootId, path + [next]) == Visited(rootId, path) + {next.id}
    ensures Left(line, path + [next]) < Left(line, path)
  {
    hide ReplyTarget, WalkedTo, IdDetermines;
    assert next in Kids(line, Position(rootId, path, |path|));
    assert next in line && next.id in IdsOf(line);
    NextIsNew(line, rootId, path, next);
    hide Kids;
    ExtendWalk(line, rootId, path, next);
    LessLeft(line, path, next);
    ElemsAppend(path, next);
  }

  method Only(s: set<Event>) returns (x: Event)
    requires s != {} && |s| <= 1
    ensures s == {x}
  {
    x :| x in s;
    OnlyElement(s, x);
  }

  method Walk(children: map<Id, set<Event>>, ghost line: set<Event>, rootId: Id)
    returns (path: seq<Event>, fork: set<Event>)
    requires Buckets(children, line) && IdDetermines(line) && rootId !in IdsOf(line)
    ensures Canonical(line, rootId, path, fork) && WalkedTo(line, rootId, path)
  {
    path, fork := [], {};
    assert WalkedTo(line, rootId, path);
    assert Visited(rootId, path) == {rootId} && Position(rootId, path, |path|) == rootId;
    hide ReplyTarget, WalkedTo, IdDetermines, IdsOf, Elems, Position, Canonical, Kids, Left, Buckets, Bucket, Visited;
    var visited := {rootId};
    var position := rootId;
    while true
      invariant WalkedTo(line, rootId, path) && fork == {}
      invariant position == Position(rootId, path, |path|)
      invariant visited == Visited(rootId, path)
      decreases Left(line, path)
    {
      var kids := Bucket(children, position);
      BucketHolds(children, line, position);
      WalkEnds(line, rootId, path, kids);
      if kids == {} { return; }
      if |kids| > 1 {
        fork := kids;
        return;
      }
      var next := Only(kids);
      OneStep(line, rootId, path, next);
      if next.id in visited { return; }
      visited := visited + {next.id};
      path := path + [next];
      position := next.id;
    }
  }

  lemma WalkEnds(line: set<Event>, rootId: Id, path: seq<Event>, fork: set<Event>)
    requires WalkedTo(line, rootId, path)
    requires fork == Kids(line, Position(rootId, path, |path|))
    ensures |fork| != 1 ==> Canonical(line, rootId, path, fork)
  {
    hide ReplyTarget, Kids;
  }

  lemma {:induction false} WalkExists(line: set<Event>, rootId: Id, path: seq<Event>)
    requires IdDetermines(line) && rootId !in IdsOf(line) && WalkedTo(line, rootId, path)
    ensures exists p, f :: Canonical(line, rootId, p, f) && WalkedTo(line, rootId, p)
    decreases Left(line, path)
  {
    hide ReplyTarget, WalkedTo, IdDetermines;
    var kids := Kids(line, Position(rootId, path, |path|));
    WalkEnds(line, rootId, path, kids);
    if |kids| == 1 {
      var next :| next in kids;
      OnlyElement(kids, next);
      OneStep(line, rootId, path, next);
      WalkExists(line, rootId, path + [next]);
    }
  }

  /** The canonical path and the competing patches at its end (none when it is not forked). */
  ghost function CanonicalWalk(line: set<Event>, rootId: Id): (walk: (seq<Event>, set<Event>))
    requires IdDetermines(line) && rootId !in IdsOf(line)
    ensures Canonical(line, rootId, walk.0, walk.1) && WalkedTo(line, rootId, walk.0)
  {
    WalkExists(line, rootId, []);
    var p, f :| Canonical(line, rootId, p, f) && WalkedTo(line, rootId, p);
    (p, f)
  }

  lemma OnlyElement<T>(s: set<T>, x: T)
    requires x in s && |s| <= 1
    ensures s == {x}
  {
    assert forall y :: y in s ==> y == x by {
      forall y | y in s ensures y == x {
        CardMonotone({x, y}, s);
      }
    }
  }
}
