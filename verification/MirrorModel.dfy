/** The mirror's ledger, the events its sync engine signs, and what every run keeps about them. */
module MirrorModel {
  import opened Prelude
  import opened Notice

  type Id = int

  const GEN_VERSION := "seccerts-v1"

  datatype RootKey = RootKey(corpus: string, sourceId: string, role: string)

  datatype RelKey = RelKey(corpus: string, relationId: string)

  datatype DesiredRoot = DesiredRoot(key: RootKey, content: string, iSet: seq<string>, imeta: seq<seq<string>>, sourceHash: string)

  datatype DesiredRelation = DesiredRelation(key: RelKey, rootRef: RootKey, linkRef: RootKey, fingerprint: string)

  datatype DesiredState = DesiredState(
    roots: seq<DesiredRoot>, relations: seq<DesiredRelation>, sourceIds: map<string, set<string>>)

  datatype RootRow = RootRow(
    rootEventId: Id, tipEventId: Id, tipContent: string,
    iSet: seq<string>, imeta: seq<seq<string>>, sourceHash: string, genVersion: string, live: bool)

  datatype RelationRow = RelationRow(fingerprint: string, eventId: Id, live: bool)

  type Roots = map<RootKey, RootRow>

  type Relations = map<RelKey, RelationRow>

  /** A signed event. Ids are content hashes over strictly increasing timestamps: each signing mints a fresh one. */
  datatype Emitted =
    | RootEvent(id: Id, key: RootKey, content: string, supersedes: Option<Id>)
    | PatchEvent(id: Id, key: RootKey, root: Id, parent: Id, body: string)
    | BindingEvent(id: Id, rel: RelKey, rootRef: RootKey, linkRef: RootKey, root: Id, link: Id, fingerprint: string)
    | DeletionEvent(id: Id, target: Id)

  /** Everything the mirror ever signed, by id. */
  type Log = map<Id, Emitted>

  /** The content of a patch event that turns one content into another. */
  type PatchText = (string, string) -> string

  /** The supersede notice for a re-rooted root. */
  type NoticeText = (DesiredRoot, RootRow) -> string

  // ---------------------------------------------------------------- classification

  predicate Live(roots: Roots, k: RootKey) {
    k in roots && roots[k].live
  }

  function LiveRow(roots: Roots, k: RootKey): Option<RootRow> {
    if Live(roots, k) then Some(roots[k]) else None
  }

  predicate Bound(relations: Relations, rk: RelKey) {
    rk in relations && relations[rk].live
  }

  datatype RootClass = NewRoot | Stable | ContentOnly | Moved

  /** The desired content with the stored notice re-attached, unless it brings its own. */
  function Effective(root: DesiredRoot, row: RootRow): string {
    var stored := Strip(row.tipContent).notice;
    if Strip(root.content).notice.Some? || stored.None? then root.content else Insert(root.content, stored.value)
  }

  predicate SameIdentity(root: DesiredRoot, row: RootRow) {
    row.iSet == root.iSet && row.imeta == root.imeta
  }

  function ClassOf(root: DesiredRoot, row: Option<RootRow>): RootClass {
    if row.None? then NewRoot
    else if SameIdentity(root, row.value) && row.value.tipContent == Effective(root, row.value) then Stable
    else if SameIdentity(root, row.value) && row.value.genVersion == GEN_VERSION then ContentOnly
    else Moved
  }

  /** The row of a root published as a new event. */
  function FreshRow(root: DesiredRoot, id: Id, content: string): RootRow {
    RootRow(id, id, content, root.iSet, root.imeta, root.sourceHash, GEN_VERSION, true)
  }

  function PatchedRow(root: DesiredRoot, row: RootRow, id: Id): RootRow {
    RootRow(row.rootEventId, id, Effective(root, row), root.iSet, root.imeta, root.sourceHash, GEN_VERSION, true)
  }

  /** Bookkeeping is refreshed only under the current generator. */
  function RefreshedRow(root: DesiredRoot, row: RootRow): RootRow {
    if row.genVersion == GEN_VERSION then row.(sourceHash := root.sourceHash) else row
  }

  // ---------------------------------------------------------------- one line per root

  /** The patch ids of a root in order, and the content at every position. */
  datatype LineOf = LineOf(path: seq<Id>, contents: seq<string>)

  type Lines = map<RootKey, LineOf>

  function Pos(rootId: Id, path: seq<Id>, i: nat): Id
    requires i <= |path|
  {
    if i == 0 then rootId else path[i - 1]
  }

  /** The i-th patch replies to the position before it and turns its content into the next. */
  ghost predicate IsLink(patchText: PatchText, log: Log, k: RootKey, rootId: Id, line: LineOf, i: nat)
    requires i < |line.path| && |line.contents| == |line.path| + 1
  {
    && line.path[i] in log
    && log[line.path[i]] == PatchEvent(line.path[i], k, rootId, Pos(rootId, line.path, i),
                                       patchText(line.contents[i], line.contents[i + 1]))
    && line.contents[i] != line.contents[i + 1]
    && Pos(rootId, line.path, i) < line.path[i]
  }

  ghost predicate IsLine(patchText: PatchText, log: Log, k: RootKey, rootId: Id, line: LineOf) {
    && |line.contents| == |line.path| + 1
    && rootId in log && log[rootId].RootEvent? && log[rootId].key == k && log[rootId].content == line.contents[0]
    && (forall i :: 0 <= i < |line.path| ==> IsLink(patchText, log, k, rootId, line, i))
    && forall id :: id in log && log[id].PatchEvent? && log[id].root == rootId ==> id in line.path
  }

  /** Every patch ever emitted for the row's root lies on one reply chain from the root to the stored tip. */
  ghost predicate OneLine(patchText: PatchText, log: Log, k: RootKey, row: RootRow, line: LineOf) {
    && IsLine(patchText, log, k, row.rootEventId, line)
    && row.tipEventId == Pos(row.rootEventId, line.path, |line.path|)
    && row.tipContent == line.contents[|line.path|]
  }

  // ---------------------------------------------------------------- the invariant

  /** The ledger as the rows so far would leave it, with the history behind it. */
  datatype View = View(roots: Roots, relations: Relations, log: Log, lines: Lines, mint: Id)

  ghost predicate LogOk(log: Log, mint: Id) {
    && (forall id :: id in log ==> 0 <= id < mint && log[id].id == id)
    && forall id :: id in log && log[id].PatchEvent? ==> log[id].root in log && log[log[id].root].RootEvent?
  }

  ghost predicate LinesOk(patchText: PatchText, v: View) {
    forall k :: Live(v.roots, k) ==> k in v.lines && OneLine(patchText, v.log, k, v.roots[k], v.lines[k])
  }

  ghost predicate IsBindingOf(log: Log, rk: RelKey, row: RelationRow) {
    && row.eventId in log && log[row.eventId].BindingEvent?
    && log[row.eventId].rel == rk && log[row.eventId].fingerprint == row.fingerprint
  }

  ghost predicate RelationsOk(v: View) {
    forall rk :: Bound(v.relations, rk) ==> IsBindingOf(v.log, rk, v.relations[rk])
  }

  /** A root or binding that the ledger no longer stands by. */
  ghost predicate Obsolete(v: View, target: Id) {
    && target in v.log
    && match v.log[target] {
         case RootEvent(_, k, _, _) => !(Live(v.roots, k) && v.roots[k].rootEventId == target)
         case BindingEvent(_, rk, _, _, _, _, _) => !(Bound(v.relations, rk) && v.relations[rk].eventId == target)
         case _ => false
       }
  }

  ghost predicate DeletionsOk(v: View) {
    forall id :: id in v.log && v.log[id].DeletionEvent? ==> Obsolete(v, v.log[id].target)
  }

  /** What every step of every run keeps. */
  ghost predicate Inv(patchText: PatchText, v: View) {
    v.mint >= 0 && LogOk(v.log, v.mint) && LinesOk(patchText, v) && RelationsOk(v) && DeletionsOk(v)
  }

  // ---------------------------------------------------------------- the steps

  /** A new event touches no line it is not a patch of. */
  lemma LineKept(patchText: PatchText, log: Log, k: RootKey, row: RootRow, line: LineOf, e: Emitted)
    requires OneLine(patchText, log, k, row, line) && e.id !in log
    requires e.PatchEvent? ==> e.root != row.rootEventId
    ensures OneLine(patchText, log[e.id := e], k, row, line)
  {
    var after := log[e.id := e];
    forall i | 0 <= i < |line.path| ensures IsLink(patchText, after, k, row.rootEventId, line, i) {
      assert IsLink(patchText, log, k, row.rootEventId, line, i);
    }
  }

  function WithRoot(v: View, k: RootKey, e: Emitted, row: RootRow, line: LineOf): View {
    View(v.roots[k := row], v.relations, v.log[e.id := e], v.lines[k := line], e.id + 1)
  }

  /** Publishing a root, new or in place of an old one, starts its line. */
  lemma RootStep(patchText: PatchText, v: View, root: DesiredRoot, content: string, supersedes: Option<Id>)
    requires Inv(patchText, v)
    ensures Inv(patchText, WithRoot(v, root.key, RootEvent(v.mint, root.key, content, supersedes),
                                    FreshRow(root, v.mint, content), LineOf([], [content])))
  {
    var k, e := root.key, RootEvent(v.mint, root.key, content, supersedes);
    var w := WithRoot(v, k, e, FreshRow(root, v.mint, content), LineOf([], [content]));
    assert e.id !in v.log;
    assert IsLine(patchText, w.log, k, e.id, w.lines[k]);
    forall other | Live(w.roots, other) && other != k
      ensures other in w.lines && OneLine(patchText, w.log, other, w.roots[other], w.lines[other])
    {
      LineKept(patchText, v.log, other, v.roots[other], v.lines[other], e);
    }
    hide OneLine;
    forall id | id in w.log && w.log[id].DeletionEvent? ensures Obsolete(w, w.log[id].target) {
      assert Obsolete(v, v.log[id].target);
    }
    forall rk | Bound(w.relations, rk) ensures IsBindingOf(w.log, rk, w.relations[rk]) {
      assert IsBindingOf(v.log, rk, v.relations[rk]);
    }
  }

  /** A patch against the stored tip lengthens the one line. */
  lemma PatchStep(patchText: PatchText, v: View, root: DesiredRoot)
    requires Inv(patchText, v) && Live(v.roots, root.key)
    requires v.roots[root.key].tipContent != Effective(root, v.roots[root.key])
    ensures root.key in v.lines
    ensures var k, row, line := root.key, v.roots[root.key], v.lines[root.key];
            var next := Effective(root, row);
            Inv(patchText, WithRoot(v, k, PatchEvent(v.mint, k, row.rootEventId, row.tipEventId, patchText(row.tipContent, next)),
                                    PatchedRow(root, row, v.mint), LineOf(line.path + [v.mint], line.contents + [next])))
  {
    var k, row, line := root.key, v.roots[root.key], v.lines[root.key];
    hide Effective, Strip, Insert;
    var next := Effective(root, row);
    var e := PatchEvent(v.mint, k, row.rootEventId, row.tipEventId, patchText(row.tipContent, next));
    var w := WithRoot(v, k, e, PatchedRow(root, row, v.mint), LineOf(line.path + [v.mint], line.contents + [next]));
    assert e.id !in v.log;
    LineGrows(patchText, v.log, k, row, line, e, next);
    forall other | Live(w.roots, other) && other != k
      ensures other in w.lines && OneLine(patchText, w.log, other, w.roots[other], w.lines[other])
    {
      assert v.log[v.roots[other].rootEventId].key == other && v.log[row.rootEventId].key == k;
      LineKept(patchText, v.log, other, v.roots[other], v.lines[other], e);
    }
    hide OneLine;
    forall id | id in w.log && w.log[id].DeletionEvent? ensures Obsolete(w, w.log[id].target) {
      assert Obsolete(v, v.log[id].target);
    }
    forall rk | Bound(w.relations, rk) ensures IsBindingOf(w.log, rk, w.relations[rk]) {
      assert IsBindingOf(v.log, rk, v.relations[rk]);
    }
  }

  lemma LineGrows(patchText: PatchText, log: Log, k: RootKey, row: RootRow, line: LineOf, e: Emitted, next: string)
    requires OneLine(patchText, log, k, row, line) && e.id !in log && row.tipContent != next
    requires e == PatchEvent(e.id, k, row.rootEventId, row.tipEventId, patchText(row.tipContent, next))
    requires forall id :: id in log ==> id < e.id
    ensures IsLine(patchText, log[e.id := e], k, row.rootEventId, LineOf(line.path + [e.id], line.contents + [next]))
  {
    var longer := LineOf(line.path + [e.id], line.contents + [next]);
    var after := log[e.id := e];
    forall i | 0 <= i < |longer.path| ensures IsLink(patchText, after, k, row.rootEventId, longer, i) {
      assert Pos(row.rootEventId, longer.path, i) == Pos(row.rootEventId, line.path, i);
      if i < |line.path| {
        assert IsLink(patchText, log, k, row.rootEventId, line, i);
      } else if i > 0 {
        assert IsLink(patchText, log, k, row.rootEventId, line, i - 1);
      }
    }
    forall id | id in after && after[id].PatchEvent? && after[id].root == row.rootEventId ensures id in longer.path {
      assert id != e.id ==> id in line.path;
      assert longer.path[|line.path|] == e.id;
    }
  }

  /** A row change that keeps every identity: bookkeeping, or retirement. */
  lemma RowStep(patchText: PatchText, v: View, k: RootKey, row: RootRow)
    requires Inv(patchText, v) && k in v.roots
    requires row.live ==> v.roots[k].live && row.rootEventId == v.roots[k].rootEventId
                          && row.tipEventId == v.roots[k].tipEventId && row.tipContent == v.roots[k].tipContent
    ensures Inv(patchText, v.(roots := v.roots[k := row]))
  {
    var w := v.(roots := v.roots[k := row]);
    forall other | Live(w.roots, other)
      ensures other in w.lines && OneLine(patchText, w.log, other, w.roots[other], w.lines[other])
    {
      assert OneLine(patchText, v.log, other, v.roots[other], v.lines[other]);
    }
    hide OneLine;
    forall id | id in w.log && w.log[id].DeletionEvent? ensures Obsolete(w, w.log[id].target) {
      assert Obsolete(v, v.log[id].target);
    }
  }

  function WithEvent(v: View, e: Emitted): View {
    v.(log := v.log[e.id := e], mint := e.id + 1)
  }

  /** Naming something obsolete in a deletion. */
  lemma DeletionStep(patchText: PatchText, v: View, target: Id)
    requires Inv(patchText, v) && Obsolete(v, target)
    ensures Inv(patchText, WithEvent(v, DeletionEvent(v.mint, target)))
  {
    EventStep(patchText, v, DeletionEvent(v.mint, target));
  }

  /** Any event that is neither a patch nor a deletion of something live. */
  lemma EventStep(patchText: PatchText, v: View, e: Emitted)
    requires Inv(patchText, v) && e.id == v.mint && !e.PatchEvent?
    requires e.DeletionEvent? ==> Obsolete(v, e.target)
    ensures Inv(patchText, WithEvent(v, e))
  {
    var w := WithEvent(v, e);
    assert e.id !in v.log;
    forall k | Live(w.roots, k) ensures k in w.lines && OneLine(patchText, w.log, k, w.roots[k], w.lines[k]) {
      LineKept(patchText, v.log, k, v.roots[k], v.lines[k], e);
    }
    hide OneLine;
    forall id | id in w.log && w.log[id].DeletionEvent? ensures Obsolete(w, w.log[id].target) {
      if id != e.id { assert Obsolete(v, v.log[id].target); }
    }
    forall rk | Bound(w.relations, rk) ensures IsBindingOf(w.log, rk, w.relations[rk]) {
      assert IsBindingOf(v.log, rk, v.relations[rk]);
    }
  }

  /** A relation row that stands by a logged binding no deletion names, or by none. */
  lemma RelationStep(patchText: PatchText, v: View, rk: RelKey, row: RelationRow)
    requires Inv(patchText, v)
    requires row.live ==> IsBindingOf(v.log, rk, row)
    requires row.live ==> forall id :: id in v.log && v.log[id].DeletionEvent? ==> v.log[id].target != row.eventId
    ensures Inv(patchText, v.(relations := v.relations[rk := row]))
  {
    var w := v.(relations := v.relations[rk := row]);
    forall id | id in w.log && w.log[id].DeletionEvent? ensures Obsolete(w, w.log[id].target) {
      assert Obsolete(v, v.log[id].target);
    }
  }

  // ---------------------------------------------------------------- consequences

  /** What a live row's tip and root say about the key they belong to. */
  lemma TipsAreOwn(patchText: PatchText, v: View, k: RootKey)
    requires Inv(patchText, v) && Live(v.roots, k)
    ensures k in v.lines
    ensures var row := v.roots[k];
            && row.rootEventId in v.log && v.log[row.rootEventId].RootEvent? && v.log[row.rootEventId].key == k
            && row.tipEventId in v.log && !v.log[row.tipEventId].BindingEvent? && !v.log[row.tipEventId].DeletionEvent?
            && v.log[row.tipEventId].key == k
  {
    var row, line := v.roots[k], v.lines[k];
    assert OneLine(patchText, v.log, k, row, line);
    if line.path != [] {
      assert IsLink(patchText, v.log, k, row.rootEventId, line, |line.path| - 1);
    }
  }

  /** No two patches of a root ever share a parent. */
  lemma NoSelfFork(patchText: PatchText, v: View, k: RootKey, a: Id, b: Id)
    requires Inv(patchText, v) && Live(v.roots, k)
    requires a in v.log && b in v.log && v.log[a].PatchEvent? && v.log[b].PatchEvent?
    requires v.log[a].root == v.roots[k].rootEventId == v.log[b].root && v.log[a].parent == v.log[b].parent
    ensures a == b
  {
    var rootId, line := v.roots[k].rootEventId, v.lines[k];
    assert OneLine(patchText, v.log, k, v.roots[k], line);
    var i :| 0 <= i < |line.path| && line.path[i] == a;
    var j :| 0 <= j < |line.path| && line.path[j] == b;
    assert IsLink(patchText, v.log, k, rootId, line, i) && IsLink(patchText, v.log, k, rootId, line, j);
    PositionsAscend(patchText, v.log, k, rootId, line, i, j);
    PositionsAscend(patchText, v.log, k, rootId, line, j, i);
  }

  lemma {:induction false} PositionsAscend(patchText: PatchText, log: Log, k: RootKey, rootId: Id, line: LineOf, i: nat, j: nat)
    requires IsLine(patchText, log, k, rootId, line) && i <= |line.path| && j <= |line.path|
    ensures i < j ==> Pos(rootId, line.path, i) < Pos(rootId, line.path, j)
    decreases j
  {
    if i < j {
      assert IsLink(patchText, log, k, rootId, line, j - 1);
      PositionsAscend(patchText, log, k, rootId, line, i, j - 1);
    }
  }
}
