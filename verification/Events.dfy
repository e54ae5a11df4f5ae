/**
 * The event model. Ids and pubkeys are 256-bit values written as fixed-width lowercase hex, so
 * they are integers here and the string order of ids is the order of integers. Tags are read once:
 * `t` tags as labels, `e` tags as references with their marker, `i` tags as strings.
 */
module Events {
  import opened Prelude

  type Id = int
  type Pubkey = int

  datatype EventType = Product | Metadata | Binding | Patch

  datatype Label = TypeLabel(etype: EventType) | FabricLabel | VersionLabel | OtherLabel(text: string)

  datatype Marker = RootMark | ReplyMark | LinkMark | OtherMark

  /** An `e` tag. The relay and author hints are advisory and no rule here reads them. */
  datatype ERef = ERef(id: Id, marker: Marker)

  datatype Event = Event(
    id: Id, pubkey: Pubkey, createdAt: int, kind: int,
    labels: seq<Label>, refs: seq<ERef>, indexers: seq<string>, content: string)

  const DELETION_KIND := 5

  /** Every `e` tag carrying `marker`, in document order. */
  function WithMarker(refs: seq<ERef>, marker: Marker): seq<ERef> {
    if refs == [] then []
    else (if refs[0].marker == marker then [refs[0]] else []) + WithMarker(refs[1..], marker)
  }

  function FirstMarked(e: Event, marker: Marker): Option<Id> {
    var refs := WithMarker(e.refs, marker);
    if refs == [] then None else Some(refs[0].id)
  }

  function RootTarget(e: Event): Option<Id> { FirstMarked(e, RootMark) }

  function ReplyTarget(e: Event): Option<Id> { FirstMarked(e, ReplyMark) }

  /** The ids an event refers to by any `e` tag. */
  function RefIds(e: Event): set<Id> {
    set r | r in e.refs :: r.id
  }

  function TypesIn(labels: seq<Label>): seq<EventType> {
    if labels == [] then []
    else (if labels[0].TypeLabel? then [labels[0].etype] else []) + TypesIn(labels[1..])
  }

  /** The declared type: defined only when exactly one recognised type tag is present. */
  function TypeOf(e: Event): Option<EventType> {
    var found := TypesIn(e.labels);
    if |found| == 1 then Some(found[0]) else None
  }

  /** The scope test: the event carries the fabric tag at all. */
  predicate IsScrutiny(e: Event) { FabricLabel in e.labels }

  predicate IsDeletion(e: Event) { e.kind == DELETION_KIND }

  predicate IsRoot(e: Event) { TypeOf(e) == Some(Product) || TypeOf(e) == Some(Metadata) }

  /** An event that declares a type is not a kind 5 deletion. */
  predicate KindFitsType(e: Event) { TypeOf(e).Some? ==> !IsDeletion(e) }

  // ---------------------------------------------------------------- what tags say, by position

  /** Exactly one `e` tag carries the marker, and it names `id`. */
  ghost predicate OnlyRef(refs: seq<ERef>, marker: Marker, id: Id) {
    exists i :: 0 <= i < |refs| && refs[i] == ERef(id, marker) && forall j :: 0 <= j < |refs| && j != i ==> refs[j].marker != marker
  }

  lemma {:induction false} NoneMarked(refs: seq<ERef>, marker: Marker)
    ensures WithMarker(refs, marker) == [] <==> forall i :: 0 <= i < |refs| ==> refs[i].marker != marker
  {
    if refs != [] {
      NoneMarked(refs[1..], marker);
      assert refs == [refs[0]] + refs[1..];
    }
  }

  lemma {:induction false} OnlyRefMeans(refs: seq<ERef>, marker: Marker, id: Id)
    ensures OnlyRef(refs, marker, id) <==> |WithMarker(refs, marker)| == 1 && WithMarker(refs, marker)[0].id == id
    ensures |WithMarker(refs, marker)| == 1 ==> OnlyRef(refs, marker, WithMarker(refs, marker)[0].id)
  {
    if refs != [] {
      var rest := refs[1..];
      NoneMarked(rest, marker);
      OnlyRefMeans(rest, marker, id);
      if |WithMarker(rest, marker)| == 1 { OnlyRefMeans(rest, marker, WithMarker(rest, marker)[0].id); }
      if refs[0].marker == marker {
        assert forall i :: 0 <= i < |rest| ==> rest[i] == refs[i + 1];
        if WithMarker(rest, marker) == [] {
          assert refs[0] == ERef(refs[0].id, marker);
          forall j | 0 <= j < |refs| && j != 0 ensures refs[j].marker != marker { assert rest[j - 1] == refs[j]; }
        }
      } else {
        LaterRef(refs, marker, id);
        if |WithMarker(rest, marker)| == 1 { LaterRef(refs, marker, WithMarker(rest, marker)[0].id); }
      }
    }
  }

  lemma LaterRef(refs: seq<ERef>, marker: Marker, id: Id)
    requires refs != [] && refs[0].marker != marker
    ensures OnlyRef(refs, marker, id) <==> OnlyRef(refs[1..], marker, id)
  {
    var rest := refs[1..];
    if i :| 0 <= i < |refs| && refs[i] == ERef(id, marker) && forall j :: 0 <= j < |refs| && j != i ==> refs[j].marker != marker {
      assert rest[i - 1] == refs[i];
      forall j | 0 <= j < |rest| && j != i - 1 ensures rest[j].marker != marker { assert rest[j] == refs[j + 1]; }
    }
    if i :| 0 <= i < |rest| && rest[i] == ERef(id, marker) && forall j :: 0 <= j < |rest| && j != i ==> rest[j].marker != marker {
      assert refs[i + 1] == rest[i];
      forall j | 0 <= j < |refs| && j != i + 1 ensures refs[j].marker != marker { if j > 0 { assert refs[j] == rest[j - 1]; } }
    }
  }

  /** The event's target under a marker is the one its first such tag names. */
  lemma {:induction false} FirstRefMeans(refs: seq<ERef>, marker: Marker, id: Id)
    ensures WithMarker(refs, marker) != [] && WithMarker(refs, marker)[0].id == id <==>
            exists i :: 0 <= i < |refs| && refs[i] == ERef(id, marker) && forall j :: 0 <= j < i ==> refs[j].marker != marker
  {
    if refs != [] {
      var rest := refs[1..];
      FirstRefMeans(rest, marker, id);
      if refs[0].marker == marker {
        assert WithMarker(refs, marker)[0] == refs[0];
        if refs[0].id == id { assert refs[0] == ERef(id, marker); }
      } else {
        if i :| 0 <= i < |refs| && refs[i] == ERef(id, marker) && forall j :: 0 <= j < i ==> refs[j].marker != marker {
          assert rest[i - 1] == refs[i] && forall j :: 0 <= j < i - 1 ==> rest[j] == refs[j + 1];
        }
        if i :| 0 <= i < |rest| && rest[i] == ERef(id, marker) && forall j :: 0 <= j < i ==> rest[j].marker != marker {
          assert refs[i + 1] == rest[i];
          forall j | 0 <= j < i + 1 ensures refs[j].marker != marker { if j > 0 { assert refs[j] == rest[j - 1]; } }
        }
      }
    }
  }

  predicate IsTypeTag(l: Label) { l.TypeLabel? }

  predicate IsFabricTag(l: Label) { l.FabricLabel? }

  predicate IsVersionTag(l: Label) { l.VersionLabel? }

  ghost predicate OnlyAt(labels: seq<Label>, p: Label -> bool, i: int) {
    0 <= i < |labels| && p(labels[i]) && forall j :: 0 <= j < |labels| && j != i ==> !p(labels[j])
  }

  /** Exactly one label satisfies `p`. */
  ghost predicate ExactlyOne(labels: seq<Label>, p: Label -> bool) {
    exists i :: OnlyAt(labels, p, i)
  }

  ghost predicate NoneOf(labels: seq<Label>, p: Label -> bool) {
    forall j :: 0 <= j < |labels| ==> !p(labels[j])
  }

  lemma OnlyAtStep(labels: seq<Label>, p: Label -> bool, i: int)
    requires labels != []
    ensures i > 0 && !p(labels[0]) ==> (OnlyAt(labels, p, i) <==> OnlyAt(labels[1..], p, i - 1))
    ensures i > 0 && p(labels[0]) ==> !OnlyAt(labels, p, i)
    ensures OnlyAt(labels, p, 0) <==> p(labels[0]) && NoneOf(labels[1..], p)
    ensures NoneOf(labels, p) <==> !p(labels[0]) && NoneOf(labels[1..], p)
  {
    var rest := labels[1..];
    forall j | 0 < j < |labels| ensures labels[j] == rest[j - 1] {}
  }

  lemma ExactlyOneStep(labels: seq<Label>, p: Label -> bool)
    requires labels != []
    ensures ExactlyOne(labels, p) <==> if p(labels[0]) then NoneOf(labels[1..], p) else ExactlyOne(labels[1..], p)
    ensures NoneOf(labels, p) <==> !p(labels[0]) && NoneOf(labels[1..], p)
  {
    OnlyAtStep(labels, p, 0);
    if i :| OnlyAt(labels, p, i) {
      OnlyAtStep(labels, p, i);
    }
    if i :| OnlyAt(labels[1..], p, i) {
      OnlyAtStep(labels, p, i + 1);
    }
    hide NoneOf;
  }

  /** An event has a type when it carries exactly one type tag, and then that one. */
  lemma {:induction false} TypesMean(labels: seq<Label>)
    ensures TypesIn(labels) == [] <==> NoneOf(labels, IsTypeTag)
    ensures |TypesIn(labels)| == 1 <==> ExactlyOne(labels, IsTypeTag)
    ensures |TypesIn(labels)| == 1 ==> TypeLabel(TypesIn(labels)[0]) in labels
  {
    if labels != [] {
      TypesMean(labels[1..]);
      ExactlyOneStep(labels, IsTypeTag);
      assert labels == [labels[0]] + labels[1..];
      hide ExactlyOne, NoneOf;
    }
  }

  /** Of several type tags none can be left out: with exactly one, it is the type. */
  lemma OneType(labels: seq<Label>, t: EventType, u: EventType)
    requires ExactlyOne(labels, IsTypeTag) && TypeLabel(t) in labels && TypeLabel(u) in labels
    ensures t == u
  {
    var i :| OnlyAt(labels, IsTypeTag, i);
    var k :| 0 <= k < |labels| && labels[k] == TypeLabel(t);
    var l :| 0 <= l < |labels| && labels[l] == TypeLabel(u);
    assert IsTypeTag(labels[k]) && IsTypeTag(labels[l]);
  }

  lemma TypeMeans(e: Event, t: EventType)
    ensures TypeOf(e) == Some(t) <==> ExactlyOne(e.labels, IsTypeTag) && TypeLabel(t) in e.labels
  {
    TypesMean(e.labels);
    if TypeLabel(t) in e.labels && |TypesIn(e.labels)| == 1 {
      OneType(e.labels, t, TypesIn(e.labels)[0]);
    }
    hide ExactlyOne;
  }

  // ---------------------------------------------------------------- observed sets

  /** An observed set, keyed by id. */
  type Observed = map<Id, Event>

  ghost predicate Keyed(obs: Observed) {
    forall id :: id in obs ==> obs[id].id == id
  }

  ghost predicate KindsFit(obs: Observed) {
    forall id :: id in obs ==> KindFitsType(obs[id])
  }

  /** Two events with one id are the same event: ids are content hashes. */
  ghost predicate IdDetermines(events: set<Event>) {
    forall a, b :: a in events && b in events && a.id == b.id ==> a == b
  }

  function IdsOf(events: set<Event>): set<Id> {
    set e | e in events :: e.id
  }

  /** First occurrence wins. */
  function ById(events: seq<Event>): Observed
    decreases |events|
  {
    if events == [] then map[]
    else
      var n := |events| - 1;
      var prior := ById(events[..n]);
      if events[n].id in prior then prior else prior[events[n].id := events[n]]
  }

  /** What deduplication keeps: every id once, with the earliest event that bears it. */
  lemma {:induction false} ByIdKeepsFirst(events: seq<Event>, id: Id)
    ensures Keyed(ById(events))
    ensures id in ById(events) <==> exists i :: 0 <= i < |events| && events[i].id == id
    ensures id in ById(events) ==>
              exists i :: 0 <= i < |events| && events[i] == ById(events)[id]
                          && forall j :: 0 <= j < i ==> events[j].id != id
    decreases |events|
  {
    if events != [] {
      var n := |events| - 1;
      ByIdKeepsFirst(events[..n], id);
      ByIdKeepsFirst(events[..n], events[n].id);
      if id in ById(events[..n]) {
        var i :| 0 <= i < n && events[..n][i] == ById(events[..n])[id]
                 && forall j :: 0 <= j < i ==> events[..n][j].id != id;
        assert events[i].id == id;
        assert forall j :: 0 <= j < i ==> events[j] == events[..n][j];
      } else {
        forall j | 0 <= j < n ensures events[j].id != id { assert events[..n][j] == events[j]; }
        if events[n].id == id {
          assert events[n] == ById(events)[id];
        }
      }
    }
  }

  /** Deduplication depends on the set of events only, never on order or repetition. */
  lemma ByIdConfluent(xs: seq<Event>, ys: seq<Event>)
    requires Elems(xs) == Elems(ys) && IdDetermines(Elems(xs))
    ensures ById(xs) == ById(ys)
  {
    forall id ensures id in ById(xs) <==> id in ById(ys)
              ensures id in ById(xs) && id in ById(ys) ==> ById(xs)[id] == ById(ys)[id]
    {
      ByIdKeepsFirst(xs, id);
      ByIdKeepsFirst(ys, id);
      if i :| 0 <= i < |xs| && xs[i].id == id {
        assert xs[i] in Elems(ys);
      }
      if i :| 0 <= i < |ys| && ys[i].id == id {
        assert ys[i] in Elems(xs);
      }
    }
  }

  method DedupeById(events: seq<Event>) returns (byId: Observed)
    ensures byId == ById(events)
  {
    byId := map[];
    for i := 0 to |events|
      invariant byId == ById(events[..i])
    {
      assert events[..i + 1][..i] == events[..i];
      if events[i].id !in byId { byId := byId[events[i].id := events[i]]; }
    }
    assert events[..|events|] == events;
  }

  // ---------------------------------------------------------------- deletions

  /** An author's own kind 5 names `id` (NIP-09's pubkey check). */
  ghost predicate Retracted(obs: Observed, id: Id, author: Pubkey) {
    exists d :: d in obs && IsDeletion(obs[d]) && obs[d].pubkey == author && id in RefIds(obs[d])
  }

  /** Observed, not itself a deletion, and retracted by its own author. */
  ghost predicate Deleted(obs: Observed, id: Id) {
    id in obs && !IsDeletion(obs[id]) && Retracted(obs, id, obs[id].pubkey)
  }

  ghost function DeletedIds(obs: Observed): set<Id> {
    set id | id in obs && Deleted(obs, id)
  }
}
