/** What a reader of the mirror's events resolves: exactly the tip and content the ledger holds. */
module MirrorResolve {
  import opened Prelude
  import opened MirrorModel
  import opened ChainWalk
  import opened ResolveSpec
  import E = Events
  import PT = PatchTypes

  /** The declared type of a root by its role. */
  function TypeOfRole(role: string): E.EventType {
    if role == "product" || role == "corpus" then E.Product else E.Metadata
  }

  function BaseLabels(etype: E.EventType): seq<E.Label> {
    [E.TypeLabel(etype), E.FabricLabel, E.VersionLabel]
  }

  /** The event as readers see it. A deletion carries the fabric and version tags and no type tag. */
  function ToEvent(e: Emitted, pubkey: E.Pubkey): E.Event {
    match e
    case RootEvent(id, k, content, supersedes) =>
      E.Event(id, pubkey, id, 1, BaseLabels(TypeOfRole(k.role)),
              if supersedes.Some? then [E.ERef(supersedes.value, E.OtherMark)] else [], [], content)
    case PatchEvent(id, _, root, parent, body) =>
      E.Event(id, pubkey, id, 1, BaseLabels(E.Patch), [E.ERef(root, E.RootMark), E.ERef(parent, E.ReplyMark)], [], body)
    case BindingEvent(id, _, _, _, root, link, _) =>
      E.Event(id, pubkey, id, 1, BaseLabels(E.Binding), [E.ERef(root, E.RootMark), E.ERef(link, E.LinkMark)], [], "")
    case DeletionEvent(id, target) =>
      E.Event(id, pubkey, id, E.DELETION_KIND, [E.FabricLabel, E.VersionLabel], [E.ERef(target, E.OtherMark)], [], "")
  }

  function AsObserved(log: Log, pubkey: E.Pubkey): E.Observed {
    map id | id in log :: ToEvent(log[id], pubkey)
  }

  /** Applying inverts diffing along a line: each of its patches applies to the content before it and gives the one after it. */
  ghost predicate Inverts(apply: PT.Applier, patchText: PatchText, contents: seq<string>) {
    forall i {:trigger contents[i]} :: 0 <= i < |contents| - 1 ==>
      var result := apply(contents[i], patchText(contents[i], contents[i + 1]));
      result.Applied? && result.content == contents[i + 1]
  }

  lemma TypeTags(etype: E.EventType)
    ensures E.TypesIn(BaseLabels(etype)) == [etype]
    ensures E.TypesIn([E.FabricLabel, E.VersionLabel]) == []
  {
    var labels := BaseLabels(etype);
    assert labels[1..] == [E.FabricLabel, E.VersionLabel];
    assert labels[1..][1..] == [E.VersionLabel];
    assert labels[1..][1..][1..] == [];
    assert [E.FabricLabel, E.VersionLabel][1..] == [E.VersionLabel];
  }

  lemma Marks(root: Id, parent: Id)
    ensures var refs := [E.ERef(root, E.RootMark), E.ERef(parent, E.ReplyMark)];
            E.WithMarker(refs, E.RootMark) == [refs[0]] && E.WithMarker(refs, E.ReplyMark) == [refs[1]]
  {
    var refs := [E.ERef(root, E.RootMark), E.ERef(parent, E.ReplyMark)];
    var tail := [E.ERef(parent, E.ReplyMark)];
    assert refs[1..] == tail && tail[1..] == [];
    assert E.WithMarker(tail, E.RootMark) == [] && E.WithMarker(tail, E.ReplyMark) == tail;
    assert E.WithMarker(refs, E.RootMark) == [refs[0]] + E.WithMarker(tail, E.RootMark);
    assert E.WithMarker(refs, E.ReplyMark) == [] + E.WithMarker(tail, E.ReplyMark);
  }

  /** How the resolver reads each kind of event. */
  lemma Read(e: Emitted, pubkey: E.Pubkey)
    ensures var x := ToEvent(e, pubkey);
            && x.id == e.id && x.pubkey == pubkey
            && (e.RootEvent? ==> E.IsRoot(x) && x.content == e.content)
            && (E.IsDeletion(x) <==> e.DeletionEvent?)
            && (e.PatchEvent? ==> E.RootTarget(x) == Some(e.root) && E.ReplyTarget(x) == Some(e.parent) && x.content == e.body)
            && (forall rootId :: IsPatchFor(x, rootId) <==> e.PatchEvent? && e.root == rootId)
            && (e.DeletionEvent? ==> forall id :: id in E.RefIds(x) <==> id == e.target)
  {
    TypeTags(E.Patch);
    TypeTags(E.Binding);
    TypeTags(E.Product);
    TypeTags(E.Metadata);
    match e {
      case PatchEvent(_, _, root, parent, _) => Marks(root, parent);
      case _ =>
    }
  }

  lemma ObservedKeyed(v: View, pubkey: E.Pubkey)
    requires LogOk(v.log, v.mint)
    ensures E.Keyed(AsObserved(v.log, pubkey))
    ensures forall id :: id in AsObserved(v.log, pubkey) <==> id in v.log
    ensures forall id :: id in v.log ==> AsObserved(v.log, pubkey)[id] == ToEvent(v.log[id], pubkey)
  {
    var obs := AsObserved(v.log, pubkey);
    forall id | id in obs ensures obs[id].id == id {
      Read(v.log[id], pubkey);
    }
  }

  /** No patch of the mirror's is ever retracted: deletions name roots and bindings only. */
  lemma PatchesStand(patchText: PatchText, v: View, pubkey: E.Pubkey, id: Id)
    requires Inv(patchText, v) && id in v.log && v.log[id].PatchEvent?
    ensures !E.Deleted(AsObserved(v.log, pubkey), id)
  {
    ObservedKeyed(v, pubkey);
    hide ToEvent, E.IsDeletion, E.RefIds, LinesOk, RelationsOk;
    var obs := AsObserved(v.log, pubkey);
    forall d | d in obs && E.IsDeletion(obs[d]) ensures id !in E.RefIds(obs[d]) {
      Read(v.log[d], pubkey);
      assert Obsolete(v, v.log[d].target);
    }
  }

  /** The root author's unretracted patches are the patches the log holds for the root. */
  lemma LineIs(patchText: PatchText, v: View, pubkey: E.Pubkey, rootId: Id, p: E.Event)
    requires Inv(patchText, v) && rootId in v.log
    ensures E.Keyed(AsObserved(v.log, pubkey)) && rootId in AsObserved(v.log, pubkey)
    ensures p in Line(AsObserved(v.log, pubkey), rootId) <==>
            p.id in v.log && v.log[p.id].PatchEvent? && v.log[p.id].root == rootId && p == ToEvent(v.log[p.id], pubkey)
  {
    ObservedKeyed(v, pubkey);
    var obs := AsObserved(v.log, pubkey);
    hide ToEvent, IsPatchFor, E.Deleted, LinesOk, RelationsOk, DeletionsOk, AsObserved;
    PatchMember(obs, rootId, p);
    Read(v.log[rootId], pubkey);
    if p.id in v.log {
      Read(v.log[p.id], pubkey);
      if v.log[p.id].PatchEvent? { PatchesStand(patchText, v, pubkey, p.id); }
    }
  }

  /** The patches of a line as events, in chain order. */
  function PathEvents(log: Log, path: seq<Id>, pubkey: E.Pubkey): seq<E.Event>
    requires forall i :: 0 <= i < |path| ==> path[i] in log
  {
    seq(|path|, i requires 0 <= i < |path| => ToEvent(log[path[i]], pubkey))
  }

  /** What a link says about the patch event behind it. */
  ghost predicate Logged(patchText: PatchText, log: Log, rootId: Id, line: LineOf, i: nat)
    requires i < |line.path| && |line.contents| == |line.path| + 1
  {
    && line.path[i] in log && log[line.path[i]].PatchEvent? && log[line.path[i]].id == line.path[i]
    && log[line.path[i]].root == rootId && log[line.path[i]].parent == Pos(rootId, line.path, i)
    && log[line.path[i]].body == patchText(line.contents[i], line.contents[i + 1])
    && line.contents[i] != line.contents[i + 1]
  }

  lemma LinksLogged(patchText: PatchText, log: Log, k: RootKey, rootId: Id, line: LineOf)
    requires IsLine(patchText, log, k, rootId, line)
    ensures forall i :: 0 <= i < |line.path| ==> Logged(patchText, log, rootId, line, i)
    ensures forall i :: 0 <= i < |line.path| ==> line.path[i] in log && log[line.path[i]].id == line.path[i]
  {
    forall i | 0 <= i < |line.path| ensures Logged(patchText, log, rootId, line, i) {
      assert IsLink(patchText, log, k, rootId, line, i);
    }
    forall i | 0 <= i < |line.path| ensures line.path[i] in log && log[line.path[i]].id == line.path[i] {
      assert Logged(patchText, log, rootId, line, i);
    }
  }

  /** The replies to the i-th position: the i-th patch, and at the tip none. */
  lemma KidsAt(patchText: PatchText, v: View, pubkey: E.Pubkey, k: RootKey, i: nat)
    requires Inv(patchText, v) && Live(v.roots, k) && k in v.lines
    requires i <= |v.lines[k].path|
    ensures var rootId, line := v.roots[k].rootEventId, v.lines[k];
            rootId in AsObserved(v.log, pubkey) && E.Keyed(AsObserved(v.log, pubkey))
            && (forall j :: 0 <= j < |line.path| ==> line.path[j] in v.log)
            && Kids(Line(AsObserved(v.log, pubkey), rootId), Pos(rootId, line.path, i)) ==
               if i < |line.path| then {ToEvent(v.log[line.path[i]], pubkey)} else {}
  {
    var row, line := v.roots[k], v.lines[k];
    var rootId := row.rootEventId;
    assert OneLine(patchText, v.log, k, row, line);
    LinksLogged(patchText, v.log, k, rootId, line);
    ObservedKeyed(v, pubkey);
    var here := Pos(rootId, line.path, i);
    var kids := Kids(Line(AsObserved(v.log, pubkey), rootId), here);
    hide ToEvent, AsObserved, Inv, OneLine, Line, E.ReplyTarget, IsLine, Logged;
    forall p ensures p in kids <==> i < |line.path| && p == ToEvent(v.log[line.path[i]], pubkey) {
      LineIs(patchText, v, pubkey, rootId, p);
      if i < |line.path| {
        assert Logged(patchText, v.log, rootId, line, i);
        LinkIsKid(patchText, v, pubkey, rootId, line, i);
      }
      if p in kids { KidIsLink(patchText, v, pubkey, k, rootId, line, i, p); }
    }
  }

  /** The i-th patch replies to the i-th position. */
  lemma LinkIsKid(patchText: PatchText, v: View, pubkey: E.Pubkey, rootId: Id, line: LineOf, i: nat)
    requires Inv(patchText, v) && rootId in v.log && i < |line.path| && |line.contents| == |line.path| + 1
    requires Logged(patchText, v.log, rootId, line, i)
    ensures E.Keyed(AsObserved(v.log, pubkey)) && rootId in AsObserved(v.log, pubkey)
    ensures ToEvent(v.log[line.path[i]], pubkey) in Kids(Line(AsObserved(v.log, pubkey), rootId), Pos(rootId, line.path, i))
  {
    hide ToEvent, AsObserved, Inv, Line, E.ReplyTarget;
    var p := ToEvent(v.log[line.path[i]], pubkey);
    Read(v.log[line.path[i]], pubkey);
    LineIs(patchText, v, pubkey, rootId, p);
  }

  /** A reply to the i-th position is the i-th patch. */
  lemma KidIsLink(patchText: PatchText, v: View, pubkey: E.Pubkey, k: RootKey, rootId: Id, line: LineOf, i: nat, p: E.Event)
    requires Inv(patchText, v) && IsLine(patchText, v.log, k, rootId, line) && i <= |line.path|
    requires E.Keyed(AsObserved(v.log, pubkey)) && rootId in AsObserved(v.log, pubkey)
    requires p in Kids(Line(AsObserved(v.log, pubkey), rootId), Pos(rootId, line.path, i))
    ensures i < |line.path| && line.path[i] in v.log && p == ToEvent(v.log[line.path[i]], pubkey)
  {
    LinksLogged(patchText, v.log, k, rootId, line);
    hide ToEvent, AsObserved, Inv, Line, E.ReplyTarget, IsLink;
    LineIs(patchText, v, pubkey, rootId, p);
    Read(v.log[p.id], pubkey);
    var j :| 0 <= j < |line.path| && line.path[j] == p.id;
    assert Logged(patchText, v.log, rootId, line, j);
    PositionsAscend(patchText, v.log, k, rootId, line, i, j);
    PositionsAscend(patchText, v.log, k, rootId, line, j, i);
  }

  lemma PositionIsPos(log: Log, rootId: Id, path: seq<Id>, pubkey: E.Pubkey, i: nat)
    requires i <= |path| && forall j :: 0 <= j < |path| ==> path[j] in log && log[path[j]].id == path[j]
    ensures Position(rootId, PathEvents(log, path, pubkey), i) == Pos(rootId, path, i)
  {
    if i > 0 { Read(log[path[i - 1]], pubkey); }
  }

  /** The canonical walk of a live root is its line, without a fork. */
  lemma WalkIsLine(patchText: PatchText, v: View, pubkey: E.Pubkey, k: RootKey)
    requires Inv(patchText, v) && Live(v.roots, k)
    ensures k in v.lines && E.Keyed(AsObserved(v.log, pubkey)) && Patchable(AsObserved(v.log, pubkey), v.roots[k].rootEventId)
    ensures forall j :: 0 <= j < |v.lines[k].path| ==> v.lines[k].path[j] in v.log
    ensures WalkOf(AsObserved(v.log, pubkey), v.roots[k].rootEventId) == (PathEvents(v.log, v.lines[k].path, pubkey), {})
  {
    var row, line := v.roots[k], v.lines[k];
    var rootId, obs := row.rootEventId, AsObserved(v.log, pubkey);
    assert OneLine(patchText, v.log, k, row, line);
    LinksLogged(patchText, v.log, k, rootId, line);
    ObservedKeyed(v, pubkey);
    Read(v.log[rootId], pubkey);
    hide ToEvent, AsObserved, Inv, OneLine, Line, Kids, IsLine, E.IsRoot, PathEvents;
    var path := PathEvents(v.log, line.path, pubkey);
    PathShape(v.log, line.path, pubkey);
    forall i {:trigger Position(rootId, path, i)} | 0 <= i <= |path|
      ensures Kids(Line(obs, rootId), Position(rootId, path, i)) == if i < |path| then {path[i]} else {}
    {
      PositionIsPos(v.log, rootId, line.path, pubkey, i);
      KidsAt(patchText, v, pubkey, k, i);
    }
    assert Canonical(Line(obs, rootId), rootId, path, {});
    var walk := WalkOf(obs, rootId);
    CanonicalUnique(Line(obs, rootId), rootId, path, {}, walk.0, walk.1);
  }

  lemma PathShape(log: Log, path: seq<Id>, pubkey: E.Pubkey)
    requires forall i :: 0 <= i < |path| ==> path[i] in log
    ensures |PathEvents(log, path, pubkey)| == |path|
    ensures forall i :: 0 <= i < |path| ==> PathEvents(log, path, pubkey)[i] == ToEvent(log[path[i]], pubkey)
  {
  }

  /** Applying a line of patches goes through its contents one by one. */
  lemma {:induction false} AdvancesAlong(apply: PT.Applier, patchText: PatchText, path: seq<E.Event>, contents: seq<string>)
    requires Inverts(apply, patchText, contents) && |contents| == |path| + 1
    requires forall i :: 0 <= i < |path| ==> path[i].content == patchText(contents[i], contents[i + 1])
    ensures Advance(apply, contents[0], path) == Run(contents, Completed)
  {
    if path == [] {
      assert contents == [contents[0]];
    } else {
      AdvancesAlong(apply, patchText, path[1..], contents[1..]);
      assert contents == [contents[0]] + contents[1..];
      assert apply(contents[0], patchText(contents[0], contents[1])).content == contents[1];
    }
  }

  lemma RunIsLine(apply: PT.Applier, patchText: PatchText, v: View, pubkey: E.Pubkey, k: RootKey, path: seq<E.Event>)
    requires Inv(patchText, v) && Live(v.roots, k) && k in v.lines && Inverts(apply, patchText, v.lines[k].contents)
    requires (forall j :: 0 <= j < |v.lines[k].path| ==> v.lines[k].path[j] in v.log)
             && path == PathEvents(v.log, v.lines[k].path, pubkey)
    ensures |v.lines[k].contents| == |path| + 1
    ensures Advance(apply, v.lines[k].contents[0], path) == Run(v.lines[k].contents, Completed)
    ensures IdSeq(path) == v.lines[k].path
    ensures Position(v.roots[k].rootEventId, path, |path|) == v.roots[k].tipEventId
    ensures v.roots[k].tipContent == v.lines[k].contents[|path|]
  {
    var row, line := v.roots[k], v.lines[k];
    assert OneLine(patchText, v.log, k, row, line);
    LinksLogged(patchText, v.log, k, row.rootEventId, line);
    hide ToEvent, Inv, IsLine, PathEvents, Advance;
    PathShape(v.log, line.path, pubkey);
    forall i | 0 <= i < |path|
      ensures path[i].content == patchText(line.contents[i], line.contents[i + 1])
      ensures path[i].id == line.path[i]
    {
      assert Logged(patchText, v.log, row.rootEventId, line, i);
      Read(v.log[line.path[i]], pubkey);
    }
    AdvancesAlong(apply, patchText, path, line.contents);
    PositionIsPos(v.log, row.rootEventId, line.path, pubkey, |path|);
  }

  /** Resolving a live root over everything the mirror published gives the ledger's tip and content, with no fork. */
  lemma ResolvesToLedger(apply: PT.Applier, patchText: PatchText, v: View, pubkey: E.Pubkey, k: RootKey)
    requires Inv(patchText, v) && Live(v.roots, k)
    requires k in v.lines ==> Inverts(apply, patchText, v.lines[k].contents)
    ensures k in v.lines && E.Keyed(AsObserved(v.log, pubkey))
    ensures ResolveOf(apply, AsObserved(v.log, pubkey), v.roots[k].rootEventId).chain ==
            Resolved(v.roots[k].tipContent, v.roots[k].tipEventId, v.lines[k].path)
  {
    WalkIsLine(patchText, v, pubkey, k);
    RootContent(patchText, v, pubkey, k);
    hide ToEvent, AsObserved, Inv, Line, IsLine, E.IsRoot, PathEvents, Canonical, WalkedTo, OverlaySet, AnnotationSet, HeldPatches, Advance,
         IdSeq, Position;
    var path := PathEvents(v.log, v.lines[k].path, pubkey);
    RunIsLine(apply, patchText, v, pubkey, k, path);
    assert path[..|path|] == path;
    ChainIs(apply, AsObserved(v.log, pubkey), v.roots[k].rootEventId, path, v.lines[k].contents);
    ChainOfResolution(apply, AsObserved(v.log, pubkey), v.roots[k].rootEventId);
  }

  lemma RootContent(patchText: PatchText, v: View, pubkey: E.Pubkey, k: RootKey)
    requires Inv(patchText, v) && Live(v.roots, k) && k in v.lines
    ensures var rootId, obs := v.roots[k].rootEventId, AsObserved(v.log, pubkey);
            |v.lines[k].contents| > 0 && rootId in obs && obs[rootId].content == v.lines[k].contents[0]
  {
    assert OneLine(patchText, v.log, k, v.roots[k], v.lines[k]);
    ObservedKeyed(v, pubkey);
    hide IsLink;
    Read(v.log[v.roots[k].rootEventId], pubkey);
  }

  /** An unforked walk whose application completes resolves. */
  lemma ChainIs(apply: PT.Applier, obs: E.Observed, rootId: Id, path: seq<E.Event>, contents: seq<string>)
    requires E.Keyed(obs) && Patchable(obs, rootId) && WalkOf(obs, rootId) == (path, {})
    requires Advance(apply, obs[rootId].content, path) == Run(contents, Completed) && |contents| == |path| + 1
    ensures ChainOf(apply, obs, rootId) == Resolved(contents[|path|], Position(rootId, path, |path|), IdSeq(path[..|path|]))
  {
    hide Line, Canonical, WalkedTo, Advance, IdSeq, Position, E.IsRoot;
  }

  lemma ChainOfResolution(apply: PT.Applier, obs: E.Observed, rootId: Id)
    requires E.Keyed(obs) && Patchable(obs, rootId)
    ensures ResolveOf(apply, obs, rootId).chain == ChainOf(apply, obs, rootId)
  {
    hide Line, Canonical, WalkedTo, Advance, IdSeq, Position, ChainStateOf, OverlaySet, AnnotationSet, HeldPatches, PatchesOf;
  }
}
