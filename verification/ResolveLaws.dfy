/** What resolution promises whatever the events: confluence, noninterference, and how retractions act. */
module ResolveLaws {
  import opened Prelude
  import opened Events
  import opened PatchTypes
  import opened ChainWalk
  import opened ResolveSpec
  import L = Lineage

  /** Arrival order and repetition never change a resolution. */
  lemma Confluence(apply: Applier, rootId: Id, xs: seq<Event>, ys: seq<Event>)
    requires Elems(xs) == Elems(ys) && IdDetermines(Elems(xs))
    ensures Keyed(ById(xs)) && Keyed(ById(ys))
    ensures ResolveOf(apply, ById(xs), rootId) == ResolveOf(apply, ById(ys), rootId)
  {
    ByIdKeepsFirst(xs, rootId);
    ByIdConfluent(xs, ys);
  }

  /** The two sets hold the same events of `author`. */
  ghost predicate SameBy(a: Observed, b: Observed, author: Pubkey) {
    forall e: Event :: e.pubkey == author ==> (Holds(a, e) <==> Holds(b, e))
  }

  predicate Holds(obs: Observed, e: Event) { e.id in obs && obs[e.id] == e }

  /** Events of other keys, however many and whatever they say, cannot touch a chain. */
  lemma Noninterference(apply: Applier, a: Observed, b: Observed, rootId: Id)
    requires Keyed(a) && Keyed(b) && Patchable(a, rootId)
    requires rootId in b && SameBy(a, b, a[rootId].pubkey) && a[rootId] == b[rootId]
    ensures ChainOf(apply, a, rootId) == ChainOf(apply, b, rootId)
  {
    LineReadsAuthorOnly(a, b, rootId);
    hide Line;
    var wa, wb := WalkOf(a, rootId), WalkOf(b, rootId);
    CanonicalUnique(Line(a, rootId), rootId, wa.0, wa.1, wb.0, wb.1);
  }

  lemma LineReadsAuthorOnly(a: Observed, b: Observed, rootId: Id)
    requires Keyed(a) && Keyed(b) && rootId in a
    requires rootId in b && SameBy(a, b, a[rootId].pubkey) && a[rootId] == b[rootId]
    ensures Line(a, rootId) == Line(b, rootId)
  {
    hide IsPatchFor;
    forall p ensures p in Line(a, rootId) <==> p in Line(b, rootId) {
      if p.pubkey == a[rootId].pubkey {
        PatchMember(a, rootId, p);
        PatchMember(b, rootId, p);
        if Holds(a, p) && Deleted(a, p.id) { DeletedByAuthor(a, b, p); }
        if Holds(b, p) && Deleted(b, p.id) { DeletedByAuthor(b, a, p); }
      }
    }
  }

  lemma DeletedByAuthor(a: Observed, b: Observed, p: Event)
    requires Keyed(a) && SameBy(a, b, p.pubkey) && Holds(a, p) && Deleted(a, p.id)
    ensures Deleted(b, p.id)
  {
    var d :| d in a && IsDeletion(a[d]) && a[d].pubkey == p.pubkey && p.id in RefIds(a[d]);
    assert Holds(a, a[d]);
    assert Holds(b, a[d]) && Holds(b, p);
    assert IsDeletion(b[d]) && b[d].pubkey == p.pubkey && p.id in RefIds(b[d]);
  }

  // ---------------------------------------------------------------- retractions

  /** A walk that starts along `q` in single replies is an extension of `q`. */
  lemma {:induction false} WalkExtends(line: set<Event>, rootId: Id, q: seq<Event>, p: seq<Event>, f: set<Event>)
    requires forall i {:trigger Position(rootId, q, i)} :: 0 <= i < |q| ==> Kids(line, Position(rootId, q, i)) == {q[i]}
    requires Canonical(line, rootId, p, f)
    ensures q <= p
    decreases |q|
  {
    hide ReplyTarget;
    if q != [] {
      var n := |q| - 1;
      forall i {:trigger Position(rootId, q[..n], i)} | 0 <= i < n
        ensures Kids(line, Position(rootId, q[..n], i)) == {q[..n][i]}
      {
        assert Position(rootId, q[..n], i) == Position(rootId, q, i);
      }
      WalkExtends(line, rootId, q[..n], p, f);
      assert q[..n] == p[..n];
      assert n > 0 ==> q[n - 1] == q[..n][n - 1] && p[n - 1] == p[..n][n - 1];
      assert Position(rootId, q, n) == Position(rootId, p, n);
      OneReplyInside(line, rootId, p, f, n);
      assert q[n] in Kids(line, Position(rootId, p, n));
      assert q == q[..n] + [q[n]] && p[..n + 1] == p[..n] + [p[n]];
    }
  }

  /** New deletions, all by the root's author. */
  ghost predicate Retractions(obs: Observed, rootId: Id, deletions: Observed) {
    && rootId in obs && Keyed(deletions)
    && forall d :: d in deletions ==> d !in obs && IsDeletion(deletions[d]) && deletions[d].pubkey == obs[rootId].pubkey
  }

  /** Some of the deletions names `id`. */
  ghost predicate Named(deletions: Observed, id: Id) {
    exists d :: d in deletions && id in RefIds(deletions[d])
  }

  /** Observing retractions by the root's author takes what they name off the line and adds nothing. */
  lemma LineAfterRetractions(obs: Observed, rootId: Id, deletions: Observed)
    requires Keyed(obs) && Patchable(obs, rootId) && Retractions(obs, rootId, deletions)
    ensures Keyed(obs + deletions) && Patchable(obs + deletions, rootId)
    ensures Line(obs + deletions, rootId) == set p | p in Line(obs, rootId) && !Named(deletions, p.id)
  {
    hide TypeOf, RootTarget;
    var after := obs + deletions;
    forall p ensures p in Line(after, rootId) <==> p in Line(obs, rootId) && !Named(deletions, p.id) {
      PatchMember(obs, rootId, p);
      PatchMember(after, rootId, p);
      if p in PatchesOf(obs, rootId) && p.pubkey == obs[rootId].pubkey {
        assert p.id in obs && obs[p.id] == p;
        if Deleted(obs, p.id) {
          var e :| e in obs && IsDeletion(obs[e]) && obs[e].pubkey == p.pubkey && p.id in RefIds(obs[e]);
          assert after[e] == obs[e];
        }
        if Named(deletions, p.id) {
          var d :| d in deletions && p.id in RefIds(deletions[d]);
          assert after[d] == deletions[d];
        }
      }
    }
  }

  /** Retracting the i-th canonical patch, and nothing before it, cuts the chain to exactly the patches before it. */
  lemma RetractionCuts(obs: Observed, rootId: Id, deletions: Observed, i: nat)
    requires Keyed(obs) && Patchable(obs, rootId) && Retractions(obs, rootId, deletions)
    requires i < |WalkOf(obs, rootId).0| && Named(deletions, WalkOf(obs, rootId).0[i].id)
    requires forall j :: 0 <= j < i ==> !Named(deletions, WalkOf(obs, rootId).0[j].id)
    ensures Keyed(obs + deletions) && Patchable(obs + deletions, rootId)
    ensures WalkOf(obs + deletions, rootId) == (WalkOf(obs, rootId).0[..i], {})
  {
    LineAfterRetractions(obs, rootId, deletions);
    hide ReplyTarget, Named, Line, Retractions;
    var after := obs + deletions;
    var (path, fork) := WalkOf(obs, rootId);
    var before, line := Line(obs, rootId), Line(after, rootId);
    forall j {:trigger Position(rootId, path[..i], j)} | 0 <= j <= i
      ensures Kids(line, Position(rootId, path[..i], j)) == if j < i then {path[j]} else {}
    {
      var here := Position(rootId, path, j);
      assert Position(rootId, path[..i], j) == here && Kids(before, here) == {path[j]};
      assert forall p :: p in Kids(line, here) <==> p in Kids(before, here) && !Named(deletions, p.id);
    }
    hide Kids;
    assert Canonical(line, rootId, path[..i], {});
    var walk := WalkOf(after, rootId);
    CanonicalUnique(line, rootId, path[..i], {}, walk.0, walk.1);
  }

  /** Retracting every branch of a fork but one, together or one by one, and nothing before it, carries the chain on through the survivor. */
  lemma ForkHeals(obs: Observed, rootId: Id, deletions: Observed, survivor: Event)
    requires Keyed(obs) && Patchable(obs, rootId) && Retractions(obs, rootId, deletions)
    requires survivor in WalkOf(obs, rootId).1 && !Named(deletions, survivor.id)
    requires forall b :: b in WalkOf(obs, rootId).1 && b != survivor ==> Named(deletions, b.id)
    requires forall j :: 0 <= j < |WalkOf(obs, rootId).0| ==> !Named(deletions, WalkOf(obs, rootId).0[j].id)
    ensures Keyed(obs + deletions) && Patchable(obs + deletions, rootId)
    ensures WalkOf(obs, rootId).0 + [survivor] <= WalkOf(obs + deletions, rootId).0
  {
    LineAfterRetractions(obs, rootId, deletions);
    hide ReplyTarget, Named, Line, Retractions;
    var after := obs + deletions;
    var (path, fork) := WalkOf(obs, rootId);
    var before, line := Line(obs, rootId), Line(after, rootId);
    var longer := path + [survivor];
    forall j {:trigger Position(rootId, longer, j)} | 0 <= j < |longer|
      ensures Kids(line, Position(rootId, longer, j)) == {longer[j]}
    {
      assert Position(rootId, longer, j) == Position(rootId, path, j);
      if j < |path| {
        assert Kids(before, Position(rootId, path, j)) == {path[j]};
        assert path[j] in Kids(before, Position(rootId, path, j));
      } else {
        assert forall p :: p in Kids(line, Position(rootId, path, j)) <==> p in fork && !Named(deletions, p.id);
      }
    }
    var walk := WalkOf(after, rootId);
    WalkExtends(line, rootId, longer, walk.0, walk.1);
  }

  /** Every patch on the chain has a lineage that reaches the root, so no held patch ever takes a position. */
  lemma {:induction false} PositionsAreLinked(obs: Observed, rootId: Id, i: nat)
    requires Keyed(obs) && Patchable(obs, rootId) && i < |WalkOf(obs, rootId).0|
    ensures L.ClassOf(obs, rootId, obs[rootId].pubkey, WalkOf(obs, rootId).0[i]) == L.Chain
    ensures WalkOf(obs, rootId).0[i] !in HeldPatches(obs, rootId)
    decreases i
  {
    var path := WalkOf(obs, rootId).0;
    PatchesKeyed(obs, rootId);
    assert path[i] in Line(obs, rootId);
    assert path[i] in Kids(Line(obs, rootId), Position(rootId, path, i));
    L.ClassStep(obs, rootId, obs[rootId].pubkey, path[i]);
    if i > 0 {
      PositionsAreLinked(obs, rootId, i - 1);
      assert path[i - 1] in Line(obs, rootId);
      assert path[i - 1].id != rootId;
    }
  }
}
