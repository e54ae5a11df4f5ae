/** The batch a sync run signs: what goes into it, that nothing is lost, and the order it is published in. */
module MirrorBatch {
  import opened Prelude
  import opened MirrorModel

  /** A re-rooted root with the bindings re-pointed to it. */
  datatype ReRootEntry = ReRootEntry(event: Emitted, bindings: seq<Emitted>)

  datatype Batch = Batch(
    newRoots: seq<Emitted>, newRelations: seq<Emitted>, patches: seq<Emitted>,
    reRoots: seq<ReRootEntry>, deletions: seq<Emitted>)

  ghost predicate InEntry(reRoots: seq<ReRootEntry>, r: int, e: Emitted) {
    0 <= r < |reRoots| && (reRoots[r].event == e || e in reRoots[r].bindings)
  }

  ghost predicate InReRoots(reRoots: seq<ReRootEntry>, e: Emitted) {
    exists r :: InEntry(reRoots, r, e)
  }

  ghost predicate InBatch(b: Batch, e: Emitted) {
    e in b.newRoots || e in b.newRelations || e in b.patches || e in b.deletions || InReRoots(b.reRoots, e)
  }

  ghost function EntriesSize(reRoots: seq<ReRootEntry>): nat {
    if reRoots == [] then 0
    else EntriesSize(reRoots[..|reRoots| - 1]) + 1 + |reRoots[|reRoots| - 1].bindings|
  }

  ghost function Size(b: Batch): nat {
    |b.newRoots| + |b.newRelations| + |b.patches| + EntriesSize(b.reRoots) + |b.deletions|
  }

  /** The batch holds exactly the events signed since `start`, one place for each. */
  ghost predicate Signed(b: Batch, start: Id, log: Log, mint: Id) {
    && (forall e :: InBatch(b, e) ==> e.id in log && log[e.id] == e && e.id >= start)
    && (forall id :: start <= id < mint ==> id in log && InBatch(b, log[id]))
    && start <= mint && Size(b) == mint - start
  }

  ghost predicate Adds(b: Batch, c: Batch, x: Emitted) {
    (forall e :: InBatch(c, e) <==> InBatch(b, e) || e == x) && Size(c) == Size(b) + 1
  }

  predicate AllRoots(events: seq<Emitted>) {
    forall i :: 0 <= i < |events| ==> events[i].RootEvent?
  }

  /** Where in the list of re-rooted roots each re-rooted key stands. */
  type Sites = map<RootKey, nat>

  /** The re-rooted endpoint a binding is re-pointed for: its root side, or else its link side. */
  function Anchor(e: Emitted, sites: Sites): Option<RootKey>
    requires e.BindingEvent?
  {
    if e.rootRef in sites then Some(e.rootRef) else if e.linkRef in sites then Some(e.linkRef) else None
  }

  /** Every entry is headed by the superseding root of the key it stands for. */
  ghost predicate Heads(reRoots: seq<ReRootEntry>, sites: Sites) {
    && (forall r :: 0 <= r < |reRoots| ==> HeadAt(reRoots, sites, r))
    && forall k :: k in sites ==> sites[k] < |reRoots| && reRoots[sites[k]].event.RootEvent? && reRoots[sites[k]].event.key == k
  }

  ghost predicate HeadAt(reRoots: seq<ReRootEntry>, sites: Sites, r: int) {
    && 0 <= r < |reRoots| && reRoots[r].event.RootEvent? && reRoots[r].event.supersedes.Some?
    && reRoots[r].event.key in sites && sites[reRoots[r].event.key] == r
  }

  /** Every binding of an entry is re-pointed for the entry's key. */
  ghost predicate Attached(reRoots: seq<ReRootEntry>, sites: Sites) {
    forall r, e :: 0 <= r < |reRoots| && e in reRoots[r].bindings ==>
      e.BindingEvent? && reRoots[r].event.RootEvent? && Anchor(e, sites) == Some(reRoots[r].event.key)
  }

  /** What the lists of a batch hold: each its own kind, and bindings under the re-rooted root they name. */
  ghost predicate Sorts(b: Batch, sites: Sites) {
    && AllRoots(b.newRoots) && (forall i :: 0 <= i < |b.newRoots| ==> b.newRoots[i].supersedes.None?)
    && (forall e :: e in b.newRelations ==> e.BindingEvent? && Anchor(e, sites).None?)
    && (forall e :: e in b.patches ==> e.PatchEvent?)
    && Heads(b.reRoots, sites) && Attached(b.reRoots, sites)
    && forall e :: e in b.deletions ==> e.DeletionEvent?
  }

  /** No binding has been signed yet. */
  ghost predicate NoBindings(b: Batch) {
    b.newRelations == [] && forall r :: 0 <= r < |b.reRoots| ==> b.reRoots[r].bindings == []
  }

  lemma AddNewRoot(b: Batch, sites: Sites, x: Emitted)
    ensures Adds(b, b.(newRoots := b.newRoots + [x]), x)
    ensures Sorts(b, sites) && x.RootEvent? && x.supersedes.None? ==> Sorts(b.(newRoots := b.newRoots + [x]), sites)
  {
    hide Heads, Attached;
  }

  lemma AddRelation(b: Batch, sites: Sites, x: Emitted)
    ensures Adds(b, b.(newRelations := b.newRelations + [x]), x)
    ensures Sorts(b, sites) && x.BindingEvent? && Anchor(x, sites).None? ==> Sorts(b.(newRelations := b.newRelations + [x]), sites)
  {
    hide Heads, Attached;
  }

  lemma AddPatch(b: Batch, sites: Sites, x: Emitted)
    ensures Adds(b, b.(patches := b.patches + [x]), x)
    ensures Sorts(b, sites) && x.PatchEvent? ==> Sorts(b.(patches := b.patches + [x]), sites)
  {
    hide Heads, Attached;
  }

  lemma AddDeletion(b: Batch, sites: Sites, x: Emitted)
    ensures Adds(b, b.(deletions := b.deletions + [x]), x)
    ensures Sorts(b, sites) && x.DeletionEvent? ==> Sorts(b.(deletions := b.deletions + [x]), sites)
  {
    hide Heads, Attached;
  }

  lemma EntryAppended(reRoots: seq<ReRootEntry>, x: Emitted, e: Emitted)
    ensures InReRoots(reRoots + [ReRootEntry(x, [])], e) <==> InReRoots(reRoots, e) || e == x
  {
    var longer := reRoots + [ReRootEntry(x, [])];
    if r :| InEntry(reRoots, r, e) { assert InEntry(longer, r, e); }
    if r :| InEntry(longer, r, e) { assert r < |reRoots| ==> InEntry(reRoots, r, e); }
    assert InEntry(longer, |reRoots|, x);
  }

  lemma AddReRoot(b: Batch, sites: Sites, x: Emitted)
    ensures Adds(b, b.(reRoots := b.reRoots + [ReRootEntry(x, [])]), x)
    ensures Sorts(b, sites) && x.RootEvent? && x.supersedes.Some? && x.key !in sites && NoBindings(b) ==>
              Sorts(b.(reRoots := b.reRoots + [ReRootEntry(x, [])]), sites[x.key := |b.reRoots|])
  {
    if Sorts(b, sites) && x.RootEvent? && x.supersedes.Some? && x.key !in sites && NoBindings(b) { OneMoreHead(b, sites, x); }
    var c := b.(reRoots := b.reRoots + [ReRootEntry(x, [])]);
    assert c.reRoots[..|b.reRoots|] == b.reRoots;
    hide InReRoots, Sorts;
    forall e ensures InReRoots(c.reRoots, e) <==> InReRoots(b.reRoots, e) || e == x {
      EntryAppended(b.reRoots, x, e);
    }
  }

  lemma OneMoreHead(b: Batch, sites: Sites, x: Emitted)
    requires Sorts(b, sites) && x.RootEvent? && x.supersedes.Some? && x.key !in sites && NoBindings(b)
    ensures Sorts(b.(reRoots := b.reRoots + [ReRootEntry(x, [])]), sites[x.key := |b.reRoots|])
  {
    var longer, more := b.reRoots + [ReRootEntry(x, [])], sites[x.key := |b.reRoots|];
    forall r | 0 <= r < |longer| ensures HeadAt(longer, more, r) {
      if r < |b.reRoots| { assert longer[r] == b.reRoots[r] && HeadAt(b.reRoots, sites, r); }
    }
  }

  function WithBinding(reRoots: seq<ReRootEntry>, at: nat, x: Emitted): seq<ReRootEntry>
    requires at < |reRoots|
  {
    reRoots[at := reRoots[at].(bindings := reRoots[at].bindings + [x])]
  }

  lemma {:induction false} EntriesGrow(reRoots: seq<ReRootEntry>, at: nat, x: Emitted)
    requires at < |reRoots|
    ensures EntriesSize(WithBinding(reRoots, at, x)) == EntriesSize(reRoots) + 1
  {
    var n := |reRoots| - 1;
    if at < n {
      EntriesGrow(reRoots[..n], at, x);
      assert WithBinding(reRoots, at, x)[..n] == WithBinding(reRoots[..n], at, x);
    } else {
      assert WithBinding(reRoots, at, x)[..n] == reRoots[..n];
    }
  }

  lemma BindingAppended(reRoots: seq<ReRootEntry>, at: nat, x: Emitted, e: Emitted)
    requires at < |reRoots|
    ensures InReRoots(WithBinding(reRoots, at, x), e) <==> InReRoots(reRoots, e) || e == x
  {
    var more := WithBinding(reRoots, at, x);
    if r :| InEntry(reRoots, r, e) { assert InEntry(more, r, e); }
    if r :| InEntry(more, r, e) { assert e != x ==> InEntry(reRoots, r, e); }
    assert InEntry(more, at, x);
  }

  lemma AttachOne(reRoots: seq<ReRootEntry>, sites: Sites, at: nat, x: Emitted)
    requires Heads(reRoots, sites) && Attached(reRoots, sites) && at < |reRoots|
    requires x.BindingEvent? && Anchor(x, sites).Some? && sites[Anchor(x, sites).value] == at
    ensures Heads(WithBinding(reRoots, at, x), sites) && Attached(WithBinding(reRoots, at, x), sites)
  {
    var more := WithBinding(reRoots, at, x);
    forall r | 0 <= r < |more| ensures HeadAt(more, sites, r) { assert HeadAt(reRoots, sites, r); }
    forall r, e | 0 <= r < |more| && e in more[r].bindings
      ensures e.BindingEvent? && more[r].event.RootEvent? && Anchor(e, sites) == Some(more[r].event.key)
    {
      assert e in reRoots[r].bindings || (r == at && e == x);
    }
  }

  lemma AddBinding(b: Batch, sites: Sites, at: nat, x: Emitted)
    requires at < |b.reRoots|
    ensures Adds(b, b.(reRoots := WithBinding(b.reRoots, at, x)), x)
    ensures Sorts(b, sites) && x.BindingEvent? && Anchor(x, sites).Some? && sites[Anchor(x, sites).value] == at ==>
              Sorts(b.(reRoots := WithBinding(b.reRoots, at, x)), sites)
  {
    if Sorts(b, sites) && x.BindingEvent? && Anchor(x, sites).Some? && sites[Anchor(x, sites).value] == at {
      AttachOne(b.reRoots, sites, at, x);
    }
    var c := b.(reRoots := WithBinding(b.reRoots, at, x));
    EntriesGrow(b.reRoots, at, x);
    hide InReRoots, Heads, Attached;
    forall e ensures InReRoots(c.reRoots, e) <==> InReRoots(b.reRoots, e) || e == x {
      BindingAppended(b.reRoots, at, x, e);
    }
  }

  lemma SignOne(b: Batch, c: Batch, start: Id, log: Log, x: Emitted)
    requires Signed(b, start, log, x.id) && Adds(b, c, x) && x.id !in log
    ensures Signed(c, start, log[x.id := x], x.id + 1)
  {
    hide InBatch, Size;
  }

  // ---------------------------------------------------------------- publishing order

  /** Corpus products, then the corpora in turn, then the snapshot, then anything else. */
  function GroupRank(k: RootKey): nat {
    if k.role == "corpus" then 0
    else if k.role == "snapshot" then 6
    else if k.corpus == "seccerts/pp" then 1
    else if k.corpus == "seccerts/cc" then 2
    else if k.corpus == "seccerts/eucc" then 3
    else if k.corpus == "seccerts/fips" then 4
    else if k.corpus == "seccerts/global" then 5
    else 7
  }

  /** The corpora of the new roots between the corpus products and the snapshot, in order. */
  const CORPORA := ["seccerts/pp", "seccerts/cc", "seccerts/eucc", "seccerts/fips", "seccerts/global"]

  /** Corpus products go first, then the listed corpora in turn, then snapshots, then everything else. */
  lemma GroupsInOrder(a: RootKey, b: RootKey)
    ensures a.role == "corpus" ==> (GroupRank(b) <= GroupRank(a) <==> b.role == "corpus")
    ensures a.role == "snapshot" && b.role !in ["corpus", "snapshot"] ==> (GroupRank(b) < GroupRank(a) <==> b.corpus in CORPORA)
    ensures a.role !in ["corpus", "snapshot"] && b.role !in ["corpus", "snapshot"] ==>
              forall i, j :: 0 <= i < |CORPORA| && 0 <= j < |CORPORA| && a.corpus == CORPORA[i] && b.corpus == CORPORA[j] ==>
                (GroupRank(a) < GroupRank(b) <==> i < j)
    ensures a.role !in ["corpus", "snapshot"] && a.corpus !in CORPORA ==> GroupRank(b) <= GroupRank(a)
  {
    assert CORPORA[0] == "seccerts/pp" && CORPORA[1] == "seccerts/cc" && CORPORA[2] == "seccerts/eucc"
           && CORPORA[3] == "seccerts/fips" && CORPORA[4] == "seccerts/global";
  }

  ghost predicate ByRank(events: seq<Emitted>)
    requires AllRoots(events)
  {
    forall i, j :: 0 <= i < j < |events| ==> GroupRank(events[i].key) <= GroupRank(events[j].key)
  }

  /** Inserts behind every event of the same rank, so equals keep their order. */
  function InsertByRank(events: seq<Emitted>, x: Emitted): (r: seq<Emitted>)
    requires AllRoots(events) && x.RootEvent?
    ensures |r| == |events| + 1 && AllRoots(r)
    ensures forall e :: e in r <==> e in events || e == x
  {
    if events == [] then [x]
    else
      assert forall e :: e in events <==> e == events[0] || e in events[1..];
      if GroupRank(x.key) < GroupRank(events[0].key) then [x] + events
      else [events[0]] + InsertByRank(events[1..], x)
  }

  lemma {:induction false} InsertKeepsRank(events: seq<Emitted>, x: Emitted)
    requires AllRoots(events) && x.RootEvent? && ByRank(events)
    ensures ByRank(InsertByRank(events, x))
  {
    if events != [] && GroupRank(x.key) >= GroupRank(events[0].key) {
      InsertKeepsRank(events[1..], x);
      var rest := InsertByRank(events[1..], x);
      forall j | 0 <= j < |rest| ensures GroupRank(events[0].key) <= GroupRank(rest[j].key) {
        assert rest[j] in rest;
        if rest[j] != x {
          var i :| 0 <= i < |events[1..]| && events[1..][i] == rest[j];
          assert events[i + 1] == rest[j];
        }
      }
    }
  }

  method SortByRank(events: seq<Emitted>) returns (sorted: seq<Emitted>)
    requires AllRoots(events)
    ensures |sorted| == |events| && AllRoots(sorted) && ByRank(sorted)
    ensures forall e :: e in sorted <==> e in events
  {
    sorted := [];
    for i := 0 to |events|
      invariant |sorted| == i && AllRoots(sorted) && ByRank(sorted)
      invariant forall e :: e in sorted <==> e in events[..i]
    {
      assert events[..i + 1] == events[..i] + [events[i]];
      InsertKeepsRank(sorted, events[i]);
      sorted := InsertByRank(sorted, events[i]);
    }
    assert events[..|events|] == events;
  }

  function Flatten(reRoots: seq<ReRootEntry>): seq<Emitted> {
    if reRoots == [] then []
    else
      var last := reRoots[|reRoots| - 1];
      Flatten(reRoots[..|reRoots| - 1]) + ([last.event] + last.bindings)
  }

  lemma LastEntry(reRoots: seq<ReRootEntry>, e: Emitted)
    requires reRoots != []
    ensures var n := |reRoots| - 1;
            InReRoots(reRoots, e) <==> InReRoots(reRoots[..n], e) || e == reRoots[n].event || e in reRoots[n].bindings
  {
    var n := |reRoots| - 1;
    if r :| InEntry(reRoots[..n], r, e) { assert InEntry(reRoots, r, e); }
    if r :| InEntry(reRoots, r, e) { assert r < n ==> InEntry(reRoots[..n], r, e); }
    if e == reRoots[n].event || e in reRoots[n].bindings { assert InEntry(reRoots, n, e); }
  }

  lemma {:induction false} FlattenHolds(reRoots: seq<ReRootEntry>)
    ensures |Flatten(reRoots)| == EntriesSize(reRoots)
    ensures forall e :: e in Flatten(reRoots) <==> InReRoots(reRoots, e)
  {
    if reRoots != [] {
      FlattenHolds(reRoots[..|reRoots| - 1]);
      hide InReRoots;
      forall e ensures e in Flatten(reRoots) <==> InReRoots(reRoots, e) {
        LastEntry(reRoots, e);
      }
    }
  }

  lemma NoDeletionsAmong(b: Batch, sites: Sites)
    requires Sorts(b, sites)
    ensures forall e :: InReRoots(b.reRoots, e) ==> !e.DeletionEvent?
  {
    forall e | InReRoots(b.reRoots, e) ensures !e.DeletionEvent? {
      var r :| InEntry(b.reRoots, r, e);
      assert HeadAt(b.reRoots, sites, r);
      if e in b.reRoots[r].bindings { assert e.BindingEvent?; } else { assert e.RootEvent?; }
    }
  }

  ghost predicate DeletionsLast(events: seq<Emitted>) {
    forall i, j :: 0 <= i < j < |events| && events[i].DeletionEvent? ==> events[j].DeletionEvent?
  }

  // ---------------------------------------------------------------- what the order means

  /** New roots, relations between roots that stay, patches, re-rooted roots with their bindings, deletions. */
  function Stage(e: Emitted, sites: Sites): nat {
    match e
    case RootEvent(_, _, _, supersedes) => if supersedes.None? then 0 else 3
    case BindingEvent(_, _, _, _, _, _, _) => if Anchor(e, sites).None? then 1 else 3
    case PatchEvent(_, _, _, _, _) => 2
    case DeletionEvent(_, _) => 4
  }

  /** The j-th event is a binding that stands after the new root it is re-pointed to, with only such bindings between. */
  ghost predicate FollowsRoot(events: seq<Emitted>, sites: Sites, i: int, j: int) {
    && 0 <= i < j < |events| && events[j].BindingEvent? && events[i].RootEvent? && events[i].supersedes.Some?
    && Anchor(events[j], sites) == Some(events[i].key)
    && forall m :: i < m < j ==> events[m].BindingEvent? && Anchor(events[m], sites) == Some(events[i].key)
  }

  ghost predicate Repointed(e: Emitted, sites: Sites) {
    e.BindingEvent? && Anchor(e, sites).Some?
  }

  ghost predicate InStages(events: seq<Emitted>, sites: Sites) {
    forall i, j :: 0 <= i < j < |events| ==> Stage(events[i], sites) <= Stage(events[j], sites)
  }

  ghost predicate RootsFirst(events: seq<Emitted>, sites: Sites) {
    forall j :: 0 <= j < |events| && Repointed(events[j], sites) ==> exists i :: FollowsRoot(events, sites, i, j)
  }

  /** Published stage by stage, and no re-pointed binding before the root it names. */
  ghost predicate Staged(events: seq<Emitted>, sites: Sites) {
    InStages(events, sites) && RootsFirst(events, sites)
  }

  ghost predicate AllIn(events: seq<Emitted>, sites: Sites, stage: nat) {
    forall i :: 0 <= i < |events| ==> Stage(events[i], sites) == stage
  }

  lemma FollowsShifted(front: seq<Emitted>, events: seq<Emitted>, back: seq<Emitted>, sites: Sites, i: int, j: int)
    requires FollowsRoot(events, sites, i, j)
    ensures FollowsRoot(front + events + back, sites, |front| + i, |front| + j)
  {
    var all := front + events + back;
    assert forall m :: 0 <= m < |events| ==> all[|front| + m] == events[m];
    forall m | |front| + i < m < |front| + j
      ensures all[m].BindingEvent? && Anchor(all[m], sites) == Some(events[i].key)
    {
      assert all[m] == events[m - |front|];
    }
  }

  lemma StagesJoin(a: seq<Emitted>, b: seq<Emitted>, sites: Sites, stage: nat)
    requires InStages(a, sites) && AllIn(b, sites, stage) && forall i :: 0 <= i < |a| ==> Stage(a[i], sites) <= stage
    ensures InStages(a + b, sites) && forall i :: 0 <= i < |a + b| ==> Stage((a + b)[i], sites) <= stage
  {
    hide Stage;
  }

  ghost predicate Headed(entry: ReRootEntry, sites: Sites) {
    && entry.event.RootEvent? && entry.event.supersedes.Some?
    && forall e :: e in entry.bindings ==> e.BindingEvent? && Anchor(e, sites) == Some(entry.event.key)
  }

  lemma BlockStaged(entry: ReRootEntry, sites: Sites)
    requires Headed(entry, sites)
    ensures var block := [entry.event] + entry.bindings;
            AllIn(block, sites, 3) && !Repointed(block[0], sites) && forall j :: 0 < j < |block| ==> FollowsRoot(block, sites, 0, j)
  {
    var block := [entry.event] + entry.bindings;
    forall m | 0 < m < |block| ensures block[m].BindingEvent? && Anchor(block[m], sites) == Some(entry.event.key) {
      assert block[m] in entry.bindings;
    }
  }

  lemma {:induction false} FlattenStaged(reRoots: seq<ReRootEntry>, sites: Sites)
    requires forall r :: 0 <= r < |reRoots| ==> Headed(reRoots[r], sites)
    ensures AllIn(Flatten(reRoots), sites, 3) && RootsFirst(Flatten(reRoots), sites)
  {
    if reRoots != [] {
      var n := |reRoots| - 1;
      FlattenStaged(reRoots[..n], sites);
      BlockStaged(reRoots[n], sites);
      BlocksJoin(Flatten(reRoots[..n]), [reRoots[n].event] + reRoots[n].bindings, sites);
      hide Stage, Headed, RootsFirst, AllIn, Repointed, FollowsRoot;
    }
  }

  lemma BlocksJoin(front: seq<Emitted>, block: seq<Emitted>, sites: Sites)
    requires AllIn(front, sites, 3) && RootsFirst(front, sites) && AllIn(block, sites, 3)
    requires |block| > 0 && !Repointed(block[0], sites) && forall j :: 0 < j < |block| ==> FollowsRoot(block, sites, 0, j)
    ensures AllIn(front + block, sites, 3) && RootsFirst(front + block, sites)
  {
    hide Stage, Repointed, FollowsRoot;
    var all := front + block;
    forall j | 0 <= j < |all| && Repointed(all[j], sites) ensures exists i :: FollowsRoot(all, sites, i, j) {
      if j < |front| {
        assert all[j] == front[j];
        var i :| FollowsRoot(front, sites, i, j);
        FollowsShifted([], front, block, sites, i, j);
        assert [] + front + block == all;
      } else {
        assert all[j] == block[j - |front|];
        FollowsShifted(front, block, [], sites, 0, j - |front|);
        assert front + block + [] == all;
      }
    }
  }

  lemma RootsFirstWithin(front: seq<Emitted>, events: seq<Emitted>, back: seq<Emitted>, sites: Sites)
    requires RootsFirst(events, sites)
    requires forall e :: e in front || e in back ==> !Repointed(e, sites)
    ensures RootsFirst(front + events + back, sites)
  {
    var all := front + events + back;
    assert forall k :: 0 <= k < |front| ==> all[k] in front;
    assert forall k :: |front| + |events| <= k < |all| ==> all[k] in back;
    forall j | 0 <= j < |all| && Repointed(all[j], sites) ensures exists i :: FollowsRoot(all, sites, i, j) {
      assert all[j] == events[j - |front|];
      var i :| FollowsRoot(events, sites, i, j - |front|);
      FollowsShifted(front, events, back, sites, i, j - |front|);
    }
  }

  /** The lists of a batch in publishing order are staged. */
  lemma BatchStaged(b: Batch, ordered: seq<Emitted>, sites: Sites)
    requires Sorts(b, sites) && AllRoots(ordered) && forall e :: e in ordered <==> e in b.newRoots
    ensures Staged(ordered + b.newRelations + b.patches + Flatten(b.reRoots) + b.deletions, sites)
  {
    forall r | 0 <= r < |b.reRoots| ensures Headed(b.reRoots[r], sites) { assert HeadAt(b.reRoots, sites, r); }
    FlattenStaged(b.reRoots, sites);
    forall i | 0 <= i < |ordered| ensures ordered[i].supersedes.None? {
      assert ordered[i] in b.newRoots;
      var k :| 0 <= k < |b.newRoots| && b.newRoots[k] == ordered[i];
    }
    assert AllIn(ordered, sites, 0);
    assert AllIn(b.newRelations, sites, 1) by { assert forall i :: 0 <= i < |b.newRelations| ==> b.newRelations[i] in b.newRelations; }
    assert AllIn(b.patches, sites, 2) by { assert forall i :: 0 <= i < |b.patches| ==> b.patches[i] in b.patches; }
    assert AllIn(b.deletions, sites, 4) by { assert forall i :: 0 <= i < |b.deletions| ==> b.deletions[i] in b.deletions; }
    var reRooted := Flatten(b.reRoots);
    var front := ordered + b.newRelations + b.patches;
    assert forall e :: e in ordered || e in b.patches || e in b.deletions ==> !e.BindingEvent?;
    assert forall e :: e in front || e in b.deletions ==> !Repointed(e, sites);
    hide Sorts, Stage, Flatten;
    StagesJoin(ordered, b.newRelations, sites, 1);
    StagesJoin(ordered + b.newRelations, b.patches, sites, 2);
    StagesJoin(front, reRooted, sites, 3);
    StagesJoin(front + reRooted, b.deletions, sites, 4);
    RootsFirstWithin(front, reRooted, b.deletions, sites);
  }

  /** New roots by group, new relations, patches, re-rooted roots with their bindings, and every deletion last. */
  method Assemble(b: Batch, ghost sites: Sites) returns (events: seq<Emitted>)
    requires Sorts(b, sites)
    ensures Staged(events, sites)
    ensures |events| == Size(b) && forall e :: e in events <==> InBatch(b, e)
    ensures DeletionsLast(events)
    ensures |b.newRoots| <= |events| && AllRoots(events[..|b.newRoots|]) && ByRank(events[..|b.newRoots|])
  {
    var ordered := SortByRank(b.newRoots);
    var reRooted := Flatten(b.reRoots);
    FlattenHolds(b.reRoots);
    BatchStaged(b, ordered, sites);
    hide Staged, Heads, Attached;
    NoDeletionsAmong(b, sites);
    ghost var front := ordered + b.newRelations + b.patches + reRooted;
    events := ordered + b.newRelations + b.patches + reRooted + b.deletions;
    assert events == front + b.deletions;
    forall e | e in front ensures !e.DeletionEvent? {
      if e in b.newRoots { var i :| 0 <= i < |b.newRoots| && b.newRoots[i] == e; }
    }
    assert events[..|b.newRoots|] == ordered;
    forall i | 0 <= i < |front| ensures !events[i].DeletionEvent? { assert front[i] in front; }
    forall j | |front| <= j < |events| ensures events[j].DeletionEvent? { assert events[j] in b.deletions; }
  }
}
