/** The in-memory event storage: indexes, the cached deletion set, and queries that must not show either. */
module Storage {
  import opened Prelude
  import opened Events
  import opened Ordering

  // ---------------------------------------------------------------- filters

  /** One filter: an absent key admits everything. `rest` stands for every further `#` key. */
  datatype Filter = Filter(
    ids: Option<seq<Id>>, authors: Option<seq<Pubkey>>, kinds: Option<seq<int>>,
    since: Option<int>, until: Option<int>,
    tLabels: Option<seq<Label>>, iTags: Option<seq<string>>, eTags: Option<seq<Id>>,
    rest: Event -> bool, limit: Option<nat>)

  predicate MatchesFilter(e: Event, f: Filter) {
    && (f.ids.Some? ==> e.id in f.ids.value)
    && (f.authors.Some? ==> e.pubkey in f.authors.value)
    && (f.kinds.Some? ==> e.kind in f.kinds.value)
    && (f.since.Some? ==> e.createdAt >= f.since.value)
    && (f.until.Some? ==> e.createdAt <= f.until.value)
    && (f.tLabels.Some? ==> exists t :: t in e.labels && t in f.tLabels.value)
    && (f.iTags.Some? ==> exists i :: i in e.indexers && i in f.iTags.value)
    && (f.eTags.Some? ==> exists r :: r in e.refs && r.id in f.eTags.value)
    && f.rest(e)
  }

  /** Wherever both filters have a list, the second allows what the first does; its window is no narrower. */
  ghost predicate Wider(f: Filter, g: Filter) {
    && (g.ids.Some? ==> f.ids.Some? && forall x :: x in f.ids.value ==> x in g.ids.value)
    && (g.authors.Some? ==> f.authors.Some? && forall x :: x in f.authors.value ==> x in g.authors.value)
    && (g.kinds.Some? ==> f.kinds.Some? && forall x :: x in f.kinds.value ==> x in g.kinds.value)
    && (g.since.Some? ==> f.since.Some? && g.since.value <= f.since.value)
    && (g.until.Some? ==> f.until.Some? && f.until.value <= g.until.value)
    && (g.tLabels.Some? ==> f.tLabels.Some? && forall x :: x in f.tLabels.value ==> x in g.tLabels.value)
    && (g.iTags.Some? ==> f.iTags.Some? && forall x :: x in f.iTags.value ==> x in g.iTags.value)
    && (g.eTags.Some? ==> f.eTags.Some? && forall x :: x in f.eTags.value ==> x in g.eTags.value)
    && forall e :: f.rest(e) ==> g.rest(e)
  }

  /** Loosening a filter loses no match. */
  lemma WiderMatchesMore(f: Filter, g: Filter, e: Event)
    requires Wider(f, g) && MatchesFilter(e, f)
    ensures MatchesFilter(e, g)
  {
  }

  /** A filter that asks for one event's own id, author, kind and time matches exactly what agrees with it there. */
  lemma PreciseFilterMatches(e: Event, x: Event)
    ensures MatchesFilter(x, Filter(Some([e.id]), Some([e.pubkey]), Some([e.kind]), Some(e.createdAt), Some(e.createdAt),
                                    None, None, None, _ => true, None)) <==>
            x.id == e.id && x.pubkey == e.pubkey && x.kind == e.kind && x.createdAt == e.createdAt
  {
    assert x.id in [e.id] <==> x.id == e.id;
    assert x.pubkey in [e.pubkey] <==> x.pubkey == e.pubkey;
    assert x.kind in [e.kind] <==> x.kind == e.kind;
  }

  /** A filter on one tag value matches exactly the events that carry it at some place; references count whatever their marker. */
  lemma TagFilterMatches(x: Event, tag: Label, indexer: string, id: Id)
    ensures MatchesFilter(x, Filter(None, None, None, None, None, Some([tag]), None, None, _ => true, None)) <==>
            exists k :: 0 <= k < |x.labels| && x.labels[k] == tag
    ensures MatchesFilter(x, Filter(None, None, None, None, None, None, Some([indexer]), None, _ => true, None)) <==>
            exists k :: 0 <= k < |x.indexers| && x.indexers[k] == indexer
    ensures MatchesFilter(x, Filter(None, None, None, None, None, None, None, Some([id]), _ => true, None)) <==>
            exists k :: 0 <= k < |x.refs| && x.refs[k].id == id
  {
    assert (exists t :: t in x.labels && t in [tag]) <==> tag in x.labels;
    assert tag in x.labels <==> exists k :: 0 <= k < |x.labels| && x.labels[k] == tag;
    assert (exists i :: i in x.indexers && i in [indexer]) <==> indexer in x.indexers;
    assert indexer in x.indexers <==> exists k :: 0 <= k < |x.indexers| && x.indexers[k] == indexer;
  }

  // ---------------------------------------------------------------- what a query means, without indexes

  ghost predicate Held(order: seq<Id>, byId: Observed) {
    forall k :: 0 <= k < |order| ==> order[k] in byId
  }

  /** Every stored event in insertion order that is not hidden and matches. */
  ghost function Matching(order: seq<Id>, byId: Observed, hidden: set<Id>, f: Filter): seq<Event>
    requires Held(order, byId)
    decreases |order|
  {
    if order == [] then []
    else
      var n := |order| - 1;
      var e := byId[order[n]];
      Matching(order[..n], byId, hidden, f) + if order[n] !in hidden && MatchesFilter(e, f) then [e] else []
  }

  ghost function Unfiltered(order: seq<Id>, byId: Observed, hidden: set<Id>): seq<Event>
    requires Held(order, byId)
    decreases |order|
  {
    if order == [] then []
    else
      var n := |order| - 1;
      Unfiltered(order[..n], byId, hidden) + if order[n] !in hidden then [byId[order[n]]] else []
  }

  /** Newest first, then by id. */
  function Rank(e: Event): Key {
    (-e.createdAt, e.id)
  }

  ghost predicate OnePerId(events: set<Event>) {
    InjectiveOn(Rank, events)
  }

  /** A limit keeps the first of the ranked matches; without one the insertion order stands. */
  ghost function Limited(events: seq<Event>, limit: Option<nat>): seq<Event>
    requires OnePerId(Elems(events))
  {
    if limit.None? then events
    else
      var ranked := Sorted(Elems(events), Rank);
      if limit.value < |ranked| then ranked[..limit.value] else ranked
  }

  /** Appends the events not already collected. */
  function Merged(collected: seq<Event>, more: seq<Event>): seq<Event>
    decreases |more|
  {
    if more == [] then collected
    else
      var n := |more| - 1;
      var prior := Merged(collected, more[..n]);
      if exists e :: e in prior && e.id == more[n].id then prior else prior + [more[n]]
  }

  ghost predicate OrderFits(order: seq<Id>, byId: Observed) {
    Keyed(byId) && Held(order, byId)
  }

  lemma {:induction false} MatchingAre(order: seq<Id>, byId: Observed, hidden: set<Id>, f: Filter, e: Event)
    requires Held(order, byId)
    ensures e in Matching(order, byId, hidden, f) <==>
            exists k :: 0 <= k < |order| && e == byId[order[k]] && order[k] !in hidden && MatchesFilter(e, f)
    decreases |order|
  {
    hide MatchesFilter;
    if order != [] {
      var n := |order| - 1;
      MatchingAre(order[..n], byId, hidden, f, e);
      if k :| 0 <= k < n && e == byId[order[..n][k]] && order[..n][k] !in hidden && MatchesFilter(e, f) {
        assert order[k] == order[..n][k];
      }
      if k :| 0 <= k < |order| && e == byId[order[k]] && order[k] !in hidden && MatchesFilter(e, f) {
        if k < n { assert order[..n][k] == order[k]; }
      }
    }
  }

  lemma MatchingStep(order: seq<Id>, i: nat, byId: Observed, hidden: set<Id>, f: Filter)
    requires Held(order, byId) && i < |order|
    ensures Matching(order[..i + 1], byId, hidden, f) == Matching(order[..i], byId, hidden, f) +
            if order[i] !in hidden && MatchesFilter(byId[order[i]], f) then [byId[order[i]]] else []
  {
    assert order[..i + 1][..i] == order[..i];
  }

  lemma NoMatching(byId: Observed, hidden: set<Id>, f: Filter)
    ensures Matching([], byId, hidden, f) == []
  {
  }

  lemma MatchingOnePerId(order: seq<Id>, byId: Observed, hidden: set<Id>, f: Filter)
    requires OrderFits(order, byId)
    ensures OnePerId(Elems(Matching(order, byId, hidden, f)))
  {
    forall x, y | x in Matching(order, byId, hidden, f) && y in Matching(order, byId, hidden, f) && Rank(x) == Rank(y)
      ensures x == y
    {
      MatchingAre(order, byId, hidden, f, x);
      MatchingAre(order, byId, hidden, f, y);
      var k :| 0 <= k < |order| && x == byId[order[k]];
      var l :| 0 <= l < |order| && y == byId[order[l]];
      assert x.id == order[k] && y.id == order[l];
    }
  }

  ghost function PerFilter(order: seq<Id>, byId: Observed, hidden: set<Id>, f: Filter): seq<Event>
    requires OrderFits(order, byId)
  {
    MatchingOnePerId(order, byId, hidden, f);
    Limited(Matching(order, byId, hidden, f), f.limit)
  }

  ghost function MergedFilters(order: seq<Id>, byId: Observed, hidden: set<Id>, filters: seq<Filter>): seq<Event>
    requires OrderFits(order, byId)
    decreases |filters|
  {
    if filters == [] then []
    else
      var n := |filters| - 1;
      Merged(MergedFilters(order, byId, hidden, filters[..n]), PerFilter(order, byId, hidden, filters[n]))
  }

  /** The answer of a full scan with a freshly computed deletion set. */
  ghost function FullScan(order: seq<Id>, byId: Observed, filters: seq<Filter>, includeDeleted: bool): seq<Event>
    requires OrderFits(order, byId)
  {
    var hidden := if includeDeleted then {} else DeletedIds(byId);
    if filters == [] then Unfiltered(order, byId, hidden) else MergedFilters(order, byId, hidden, filters)
  }

  // ---------------------------------------------------------------- what an answer holds, and in which order

  /** Stored, visible and matching: arrival order is not in it. */
  ghost predicate IsMatch(byId: Observed, hidden: set<Id>, f: Filter, e: Event) {
    e.id in byId && byId[e.id] == e && e.id !in hidden && MatchesFilter(e, f)
  }

  lemma MatchingIsAll(order: seq<Id>, byId: Observed, hidden: set<Id>, f: Filter, e: Event)
    requires OrderFits(order, byId) && forall id :: id in byId ==> id in order
    ensures e in Matching(order, byId, hidden, f) <==> IsMatch(byId, hidden, f, e)
  {
    MatchingAre(order, byId, hidden, f, e);
    if IsMatch(byId, hidden, f, e) {
      var k :| 0 <= k < |order| && order[k] == e.id;
      assert e == byId[order[k]];
    }
    if k :| 0 <= k < |order| && e == byId[order[k]] && order[k] !in hidden && MatchesFilter(e, f) {
      assert order[k] in byId && byId[order[k]].id == order[k];
    }
  }

  lemma {:induction false} ListCard<T>(xs: seq<T>, s: set<T>, key: T -> Key)
    requires Lists(xs, s, key)
    ensures |xs| == |s|
  {
    if xs != [] {
      assert xs[0] in Elems(xs);
      TailLists(xs, s, key);
      ListCard(xs[1..], s - {xs[0]}, key);
    }
  }

  /** Newer, or as new and of a lower id. */
  ghost predicate Outranks(a: Event, b: Event) {
    a.createdAt > b.createdAt || (a.createdAt == b.createdAt && a.id < b.id)
  }

  /** The visible matches of a filter that outrank an event. */
  ghost function Above(byId: Observed, hidden: set<Id>, f: Filter, e: Event): set<Event> {
    set id | id in byId && IsMatch(byId, hidden, f, byId[id]) && Outranks(byId[id], e) :: byId[id]
  }

  /** The filter answers with the event: a visible match, and among the first so many where the filter has a limit. */
  ghost predicate Selects(byId: Observed, hidden: set<Id>, f: Filter, e: Event) {
    IsMatch(byId, hidden, f, e) && (f.limit.Some? ==> |Above(byId, hidden, f, e)| < f.limit.value)
  }

  /** `x` stands somewhere before `y`. */
  ghost predicate Before<T(!new)>(xs: seq<T>, x: T, y: T) {
    exists i, j :: 0 <= i < j < |xs| && xs[i] == x && xs[j] == y
  }

  /** A filter's own order: by rank where it has a limit, else as inserted. */
  ghost predicate Precedes(order: seq<Id>, f: Filter, x: Event, y: Event) {
    if f.limit.Some? then Outranks(x, y) else Before(order, x.id, y.id)
  }

  ghost predicate OwnOrder(order: seq<Id>, f: Filter, events: seq<Event>) {
    forall i, j :: 0 <= i < j < |events| ==> Precedes(order, f, events[i], events[j])
  }

  /** No id twice. */
  ghost predicate IdsDiffer(events: seq<Event>) {
    forall i, j :: 0 <= i < j < |events| ==> events[i].id != events[j].id
  }

  lemma {:induction false} MatchingInOrder(order: seq<Id>, byId: Observed, hidden: set<Id>, f: Filter)
    requires OrderFits(order, byId) && Distinct(order)
    ensures var events := Matching(order, byId, hidden, f);
            IdsDiffer(events) && forall i, j :: 0 <= i < j < |events| ==> Before(order, events[i].id, events[j].id)
    decreases |order|
  {
    hide MatchesFilter;
    if order != [] {
      var n := |order| - 1;
      MatchingInOrder(order[..n], byId, hidden, f);
      var prior, events := Matching(order[..n], byId, hidden, f), Matching(order, byId, hidden, f);
      forall i, j | 0 <= i < j < |events| ensures Before(order, events[i].id, events[j].id) && events[i].id != events[j].id {
        MatchingAre(order[..n], byId, hidden, f, events[i]);
        assert i < |prior| && events[i] == prior[i];
        if j < |prior| {
          var k, l :| 0 <= k < l < n && order[..n][k] == prior[i].id && order[..n][l] == prior[j].id;
          assert order[k] == prior[i].id && order[l] == prior[j].id;
        } else {
          var k :| 0 <= k < n && events[i] == byId[order[..n][k]];
          assert order[k] == events[i].id && order[n] == events[j].id;
        }
      }
    }
  }

  lemma RankMeans(a: Event, b: Event)
    ensures KeyLt(Rank(a), Rank(b)) <==> Outranks(a, b)
  {
  }

  /** What ranks above an event of the ranked matches is what stands before it. */
  lemma RankedPlace(byId: Observed, hidden: set<Id>, f: Filter, ranked: seq<Event>, all: set<Event>, i: nat)
    requires Keyed(byId) && Lists(ranked, all, Rank) && (forall e :: e in all <==> IsMatch(byId, hidden, f, e)) && i < |ranked|
    ensures |Above(byId, hidden, f, ranked[i])| == i
  {
    hide IsMatch;
    var above := Above(byId, hidden, f, ranked[i]);
    forall e ensures e in Elems(ranked[..i]) <==> e in above {
      if e in above {
        assert e in Elems(ranked);
        var k :| 0 <= k < |ranked| && ranked[k] == e;
        RankMeans(ranked[k], ranked[i]);
        if k > i { RankMeans(ranked[i], ranked[k]); }
        assert ranked[..i][k] == e;
      }
      if e in Elems(ranked[..i]) {
        var k :| 0 <= k < i && ranked[..i][k] == e;
        RankMeans(ranked[k], ranked[i]);
        assert ranked[k] in Elems(ranked) && IsMatch(byId, hidden, f, e);
        MatchIsStored(byId, hidden, f, e);
      }
    }
    SameElements(Elems(ranked[..i]), above);
    ListCard(ranked[..i], above, Rank);
  }

  lemma MatchIsStored(byId: Observed, hidden: set<Id>, f: Filter, e: Event)
    requires IsMatch(byId, hidden, f, e)
    ensures e.id in byId && byId[e.id] == e && e.id !in hidden && MatchesFilter(e, f)
  {
  }

  /** One filter's answer: exactly the events it selects, each once, in its own order. */
  lemma OneFilterMeans(order: seq<Id>, byId: Observed, hidden: set<Id>, f: Filter)
    requires OrderFits(order, byId) && Distinct(order) && forall id :: id in byId ==> id in order
    ensures var events := PerFilter(order, byId, hidden, f);
            && (forall e :: e in events <==> Selects(byId, hidden, f, e))
            && IdsDiffer(events) && OwnOrder(order, f, events)
  {
    MatchingInOrder(order, byId, hidden, f);
    forall e ensures e in Matching(order, byId, hidden, f) <==> IsMatch(byId, hidden, f, e) { MatchingIsAll(order, byId, hidden, f, e); }
    if f.limit.Some? {
      MatchingOnePerId(order, byId, hidden, f);
      var all := Elems(Matching(order, byId, hidden, f));
      var ranked, events := Sorted(all, Rank), PerFilter(order, byId, hidden, f);
      hide IsMatch, Matching;
      forall e ensures e in events <==> Selects(byId, hidden, f, e) {
        if e in all {
          assert e in Elems(ranked);
          var i :| 0 <= i < |ranked| && ranked[i] == e;
          RankedPlace(byId, hidden, f, ranked, all, i);
          OnlyPlace(ranked, i);
          assert i < |events| ==> events[i] == e;
        }
        if e in events { assert e in Elems(ranked); }
      }
      forall i, j | 0 <= i < j < |events| ensures Outranks(events[i], events[j]) && events[i].id != events[j].id {
        assert events[i] == ranked[i] && events[j] == ranked[j] && KeyLt(Rank(ranked[i]), Rank(ranked[j]));
        RankMeans(ranked[i], ranked[j]);
        assert ranked[i] in Elems(ranked) && ranked[j] in Elems(ranked);
        MatchIsStored(byId, hidden, f, ranked[i]);
        MatchIsStored(byId, hidden, f, ranked[j]);
      }
    }
  }

  /** In a strictly sorted list nothing stands twice. */
  lemma OnlyPlace(ranked: seq<Event>, i: nat)
    requires SortedBy(ranked, Rank) && i < |ranked|
    ensures forall k :: 0 <= k < |ranked| && ranked[k] == ranked[i] ==> k == i
  {
  }

  ghost predicate HasId(events: seq<Event>, id: Id) {
    exists e :: e in events && e.id == id
  }

  /** Merging keeps what is there and appends what is new, in the order it comes. */
  ghost predicate Merges(collected: seq<Event>, more: seq<Event>, r: seq<Event>) {
    && IdsDiffer(r) && |collected| <= |r| && (forall i :: 0 <= i < |collected| ==> r[i] == collected[i])
    && (forall i :: |collected| <= i < |r| ==> r[i] in more && !HasId(collected, r[i].id))
    && (forall e :: e in more && !HasId(collected, e.id) ==> e in r)
    && (forall i, j :: |collected| <= i < j < |r| ==> Before(more, r[i], r[j]))
  }

  lemma NoIdTwice(more: seq<Event>, x: Event)
    requires IdsDiffer(more + [x])
    ensures IdsDiffer(more) && !HasId(more, x.id)
  {
    forall i, j | 0 <= i < j < |more| ensures more[i].id != more[j].id {
      assert (more + [x])[i] == more[i] && (more + [x])[j] == more[j];
    }
    if e :| e in more && e.id == x.id {
      var k :| 0 <= k < |more| && more[k] == e;
      assert (more + [x])[k] == e && (more + [x])[|more|] == x;
    }
  }

  lemma IdComesFrom(collected: seq<Event>, more: seq<Event>, r: seq<Event>, id: Id)
    requires Merges(collected, more, r)
    ensures HasId(r, id) ==> HasId(collected, id) || HasId(more, id)
    ensures HasId(collected, id) ==> HasId(r, id)
  {
    if e :| e in r && e.id == id {
      var k :| 0 <= k < |r| && r[k] == e;
      if k < |collected| { assert collected[k] == e; }
    }
    if e :| e in collected && e.id == id {
      var k :| 0 <= k < |collected| && collected[k] == e;
      assert r[k] == e;
    }
  }

  lemma BeforeLonger<T(!new)>(xs: seq<T>, x: T, y: T, z: T)
    ensures Before(xs, x, y) ==> Before(xs + [z], x, y)
    ensures x in xs ==> Before(xs + [z], x, z)
  {
    if i, j :| 0 <= i < j < |xs| && xs[i] == x && xs[j] == y {
      assert (xs + [z])[i] == x && (xs + [z])[j] == y;
    }
    if x in xs {
      var i :| 0 <= i < |xs| && xs[i] == x;
      assert (xs + [z])[i] == x && (xs + [z])[|xs|] == z;
    }
  }

  lemma MergesStep(collected: seq<Event>, more: seq<Event>, x: Event, prior: seq<Event>)
    requires Merges(collected, more, prior) && IdsDiffer(more + [x])
    ensures HasId(prior, x.id) <==> HasId(collected, x.id)
    ensures Merges(collected, more + [x], if HasId(prior, x.id) then prior else prior + [x])
  {
    NoIdTwice(more, x);
    IdComesFrom(collected, more, prior, x.id);
    var r := if HasId(prior, x.id) then prior else prior + [x];
    forall i, j | |collected| <= i < j < |r| ensures Before(more + [x], r[i], r[j]) {
      BeforeLonger(more, r[i], r[j], x);
      hide Before, HasId;
    }
    if !HasId(prior, x.id) {
      forall i | 0 <= i < |prior| ensures prior[i].id != x.id { assert prior[i] in prior; }
    }
    hide Before, HasId;
  }

  lemma {:induction false} MergedMeans(collected: seq<Event>, more: seq<Event>)
    requires IdsDiffer(collected) && IdsDiffer(more)
    ensures Merges(collected, more, Merged(collected, more))
    decreases |more|
  {
    if more != [] {
      var n := |more| - 1;
      assert more == more[..n] + [more[n]];
      NoIdTwice(more[..n], more[n]);
      MergedMeans(collected, more[..n]);
      MergesStep(collected, more[..n], more[n], Merged(collected, more[..n]));
      hide Merges, IdsDiffer;
    }
  }

  /** The first filter that selects the event, or the number of filters. */
  ghost function FirstSelector(byId: Observed, hidden: set<Id>, filters: seq<Filter>, e: Event): (i: nat)
    ensures i <= |filters| && (i < |filters| ==> Selects(byId, hidden, filters[i], e))
    ensures forall j :: 0 <= j < i ==> !Selects(byId, hidden, filters[j], e)
  {
    if filters == [] || Selects(byId, hidden, filters[0], e) then 0 else 1 + FirstSelector(byId, hidden, filters[1..], e)
  }

  lemma FirstIs(byId: Observed, hidden: set<Id>, filters: seq<Filter>, e: Event, i: nat)
    requires i < |filters| && Selects(byId, hidden, filters[i], e) && forall j :: 0 <= j < i ==> !Selects(byId, hidden, filters[j], e)
    ensures FirstSelector(byId, hidden, filters, e) == i
  {
    hide Selects;
  }

  /** Under the first filters that select them, `x` comes before `y`. */
  ghost predicate InOrder(order: seq<Id>, byId: Observed, hidden: set<Id>, filters: seq<Filter>, x: Event, y: Event) {
    var i, j := FirstSelector(byId, hidden, filters, x), FirstSelector(byId, hidden, filters, y);
    i < j || (i == j < |filters| && Precedes(order, filters[i], x, y))
  }

  /**
   * What an answer to several filters is: the events that some filter selects, no id twice, ordered
   * by the first filter that selects them and then in that filter's own order.
   */
  ghost predicate Answers(order: seq<Id>, byId: Observed, hidden: set<Id>, filters: seq<Filter>, events: seq<Event>) {
    && (forall e :: e in events <==> exists i :: 0 <= i < |filters| && Selects(byId, hidden, filters[i], e))
    && IdsDiffer(events)
    && forall k, l :: 0 <= k < l < |events| ==> InOrder(order, byId, hidden, filters, events[k], events[l])
  }

  lemma {:induction false} MergedAnswers(order: seq<Id>, byId: Observed, hidden: set<Id>, filters: seq<Filter>)
    requires OrderFits(order, byId) && Distinct(order) && forall id :: id in byId ==> id in order
    ensures Answers(order, byId, hidden, filters, MergedFilters(order, byId, hidden, filters))
    decreases |filters|
  {
    if filters != [] {
      var n := |filters| - 1;
      MergedAnswers(order, byId, hidden, filters[..n]);
      OneFilterMeans(order, byId, hidden, filters[n]);
      var prior, own := MergedFilters(order, byId, hidden, filters[..n]), PerFilter(order, byId, hidden, filters[n]);
      hide PerFilter, Merged, Selects, Precedes, Merges, OwnOrder, IdsDiffer;
      assert IdsDiffer(prior) && IdsDiffer(own);
      MergedMeans(prior, own);
      assert filters == filters[..n] + [filters[n]];
      AnswersMore(order, byId, hidden, filters[..n], filters[n], prior, own, Merged(prior, own));
    }
  }

  lemma StoredOnce(byId: Observed, hidden: set<Id>, f: Filter, g: Filter, x: Event, y: Event)
    requires Selects(byId, hidden, f, x) && Selects(byId, hidden, g, y) && x.id == y.id
    ensures x == y
  {
    hide MatchesFilter;
  }

  /** One more filter: what it selects and no earlier one does comes after all the earlier ones select. */
  lemma AnswersMore(order: seq<Id>, byId: Observed, hidden: set<Id>, filters: seq<Filter>, f: Filter,
                    prior: seq<Event>, own: seq<Event>, r: seq<Event>)
    requires Answers(order, byId, hidden, filters, prior) && Merges(prior, own, r)
    requires (forall e :: e in own <==> Selects(byId, hidden, f, e)) && OwnOrder(order, f, own)
    ensures Answers(order, byId, hidden, filters + [f], r)
  {
    var all := filters + [f];
    assert forall i :: 0 <= i < |filters| ==> all[i] == filters[i];
    assert all[|filters|] == f;
    hide Selects, Precedes;
    forall e ensures e in r <==> exists i :: 0 <= i < |all| && Selects(byId, hidden, all[i], e) {
      MergedHolds(byId, hidden, filters, f, prior, own, r, e);
      if i :| 0 <= i < |filters| && Selects(byId, hidden, filters[i], e) { assert Selects(byId, hidden, all[i], e); }
    }
    forall k, l | 0 <= k < l < |r| ensures InOrder(order, byId, hidden, all, r[k], r[l]) {
      PlaceInAll(byId, hidden, filters, f, prior, own, r, k);
      PlaceInAll(byId, hidden, filters, f, prior, own, r, l);
      if l < |prior| {
        assert InOrder(order, byId, hidden, filters, prior[k], prior[l]);
      } else if k >= |prior| {
        assert Before(own, r[k], r[l]);
        var a, b :| 0 <= a < b < |own| && own[a] == r[k] && own[b] == r[l];
      }
    }
  }

  lemma MergedHolds(byId: Observed, hidden: set<Id>, filters: seq<Filter>, f: Filter, prior: seq<Event>, own: seq<Event>, r: seq<Event>, e: Event)
    requires forall x :: x in prior <==> exists i :: 0 <= i < |filters| && Selects(byId, hidden, filters[i], x)
    requires (forall x :: x in own <==> Selects(byId, hidden, f, x)) && Merges(prior, own, r)
    ensures e in r <==> e in prior || e in own
  {
    hide Selects, Before, IdsDiffer;
    if e in prior {
      var k :| 0 <= k < |prior| && prior[k] == e;
      assert r[k] == e;
    }
    if e in own && HasId(prior, e.id) {
      var x :| x in prior && x.id == e.id;
      var i :| 0 <= i < |filters| && Selects(byId, hidden, filters[i], x);
      StoredOnce(byId, hidden, filters[i], f, x, e);
    }
    if e in r && e !in prior {
      var k :| 0 <= k < |r| && r[k] == e;
      if k >= |prior| { assert r[k] in own; }
    }
  }

  /** An event keeps its first selector as filters are added; a new one has the new filter. */
  lemma PlaceInAll(byId: Observed, hidden: set<Id>, filters: seq<Filter>, f: Filter, prior: seq<Event>, own: seq<Event>, r: seq<Event>, k: nat)
    requires forall x :: x in prior <==> exists i :: 0 <= i < |filters| && Selects(byId, hidden, filters[i], x)
    requires (forall x :: x in own <==> Selects(byId, hidden, f, x)) && Merges(prior, own, r) && k < |r|
    ensures if k < |prior| then r[k] == prior[k] && FirstSelector(byId, hidden, filters + [f], r[k]) == FirstSelector(byId, hidden, filters, r[k]) < |filters|
            else FirstSelector(byId, hidden, filters + [f], r[k]) == |filters|
  {
    hide Selects, Before, IdsDiffer;
    var all, e := filters + [f], r[k];
    assert forall i :: 0 <= i < |filters| ==> all[i] == filters[i];
    if k < |prior| {
      assert e == prior[k] && e in prior;
      var i :| 0 <= i < |filters| && Selects(byId, hidden, filters[i], e);
      FirstIs(byId, hidden, all, e, FirstSelector(byId, hidden, filters, e));
    } else {
      assert e in own && all[|filters|] == f;
      assert !HasId(prior, e.id) && e !in prior;
      FirstIs(byId, hidden, all, e, |filters|);
    }
  }

  /** With no filter the answer is everything visible, each once, as inserted. */
  ghost predicate AnswersAll(order: seq<Id>, byId: Observed, hidden: set<Id>, events: seq<Event>) {
    && (forall e :: e in events <==> e.id in byId && byId[e.id] == e && e.id !in hidden)
    && forall i, j :: 0 <= i < j < |events| ==> events[i].id != events[j].id && Before(order, events[i].id, events[j].id)
  }

  lemma {:induction false} UnfilteredMeans(order: seq<Id>, byId: Observed, hidden: set<Id>)
    requires OrderFits(order, byId) && Distinct(order)
    ensures var events := Unfiltered(order, byId, hidden);
            && (forall e :: e in events <==> e.id in order && byId[e.id] == e && e.id !in hidden)
            && forall i, j :: 0 <= i < j < |events| ==> events[i].id != events[j].id && Before(order, events[i].id, events[j].id)
    decreases |order|
  {
    if order != [] {
      var n := |order| - 1;
      UnfilteredMeans(order[..n], byId, hidden);
      var prior, events := Unfiltered(order[..n], byId, hidden), Unfiltered(order, byId, hidden);
      forall e ensures e in events <==> e.id in order && byId[e.id] == e && e.id !in hidden {
        assert e in events <==> e in prior || (order[n] !in hidden && e == byId[order[n]]);
        assert e == byId[order[n]] <==> e.id == order[n] && byId[order[n]] == e;
        assert e.id in order <==> e.id in order[..n] || e.id == order[n] by { assert order == order[..n] + [order[n]]; }
      }
      forall i, j | 0 <= i < j < |events| ensures events[i].id != events[j].id && Before(order, events[i].id, events[j].id) {
        assert events[i] == prior[i] && prior[i] in prior;
        BeforeLonger(order[..n], events[i].id, events[j].id, order[n]);
        assert order == order[..n] + [order[n]];
        if j < |prior| { assert events[j] == prior[j]; } else { assert events[j].id == order[n]; }
        hide Before;
      }
    }
  }

  // ---------------------------------------------------------------- indexes

  function Lookup<K>(idx: map<K, set<Id>>, key: K): set<Id> {
    if key in idx then idx[key] else {}
  }

  method AddAll<K>(idx: map<K, set<Id>>, keys: seq<K>, id: Id) returns (r: map<K, set<Id>>)
    ensures forall k, x :: x in Lookup(r, k) <==> x in Lookup(idx, k) || (x == id && k in keys)
  {
    r := idx;
    for i := 0 to |keys|
      invariant forall k, x :: x in Lookup(r, k) <==> x in Lookup(idx, k) || (x == id && k in keys[..i])
    {
      r := r[keys[i] := Lookup(r, keys[i]) + {id}];
    }
  }

  method DropAll<K>(idx: map<K, set<Id>>, keys: seq<K>, id: Id) returns (r: map<K, set<Id>>)
    ensures forall k, x :: x in Lookup(r, k) <==> x in Lookup(idx, k) && !(x == id && k in keys)
  {
    r := idx;
    for i := 0 to |keys|
      invariant forall k, x :: x in Lookup(r, k) <==> x in Lookup(idx, k) && !(x == id && k in keys[..i])
    {
      if keys[i] in r {
        var left := r[keys[i]] - {id};
        if left == {} { r := r - {keys[i]}; } else { r := r[keys[i] := left]; }
      }
    }
  }

  method UnionOf<K>(idx: map<K, set<Id>>, keys: seq<K>) returns (s: set<Id>)
    ensures forall k, x :: k in keys && x in Lookup(idx, k) ==> x in s
    ensures forall x :: x in s ==> exists k :: k in keys && x in Lookup(idx, k)
  {
    s := {};
    for i := 0 to |keys|
      invariant forall k, x :: k in keys[..i] && x in Lookup(idx, k) ==> x in s
      invariant forall x :: x in s ==> exists k :: k in keys && x in Lookup(idx, k)
    {
      assert keys[i] in keys;
      s := s + Lookup(idx, keys[i]);
    }
  }

  /** Intersection, walking the smaller side. */
  method Intersect(a: set<Id>, b: set<Id>) returns (r: set<Id>)
    ensures forall x :: x in r <==> x in a && x in b
  {
    var small, big := if |a| < |b| then a else b, if |a| < |b| then b else a;
    r := {};
    var todo := small;
    while todo != {}
      invariant todo <= small
      invariant forall x :: x in r <==> x in small && x !in todo && x in big
      decreases |todo|
    {
      var id := Pick(todo);
      todo := todo - {id};
      if id in big { r := r + {id}; }
    }
  }

  function TypeLabels(labels: seq<Label>): (r: seq<Label>)
    ensures forall t :: t in r <==> t in labels && t.TypeLabel?
  {
    if labels == [] then []
    else (if labels[0].TypeLabel? then [labels[0]] else []) + TypeLabels(labels[1..])
  }

  function RefIdSeq(refs: seq<ERef>): (r: seq<Id>)
    ensures forall id :: id in r <==> exists ref :: ref in refs && ref.id == id
  {
    if refs == [] then []
    else
      assert forall ref :: ref in refs <==> ref == refs[0] || ref in refs[1..];
      [refs[0].id] + RefIdSeq(refs[1..])
  }

  /** The index holds an id under exactly the keys of the event stored under it. */
  ghost predicate Exact<K(!new)>(idx: map<K, set<Id>>, byId: Observed, keys: Event -> seq<K>) {
    forall k, id :: id in Lookup(idx, k) <==> id in byId && k in keys(byId[id])
  }

  function KindKeys(e: Event): seq<int> { [e.kind] }

  function TypeKeys(e: Event): seq<Label> { TypeLabels(e.labels) }

  function IKeys(e: Event): seq<string> { e.indexers }

  function EKeys(e: Event): seq<Id> { RefIdSeq(e.refs) }

  lemma ExactAfterDrop<K(!new)>(idx: map<K, set<Id>>, dropped: map<K, set<Id>>, byId: Observed, keys: Event -> seq<K>, id: Id)
    requires Exact(idx, byId, keys) && id in byId
    requires forall k, x :: x in Lookup(dropped, k) <==> x in Lookup(idx, k) && !(x == id && k in keys(byId[id]))
    ensures Exact(dropped, byId - {id}, keys)
  {
  }

  lemma ExactAfterAdd<K(!new)>(idx: map<K, set<Id>>, added: map<K, set<Id>>, byId: Observed, keys: Event -> seq<K>, e: Event)
    requires Exact(idx, byId - {e.id}, keys)
    requires forall k, x :: x in Lookup(added, k) <==> x in Lookup(idx, k) || (x == e.id && k in keys(e))
    ensures Exact(added, byId[e.id := e], keys)
  {
    forall k, id ensures id in Lookup(added, k) <==> id in byId[e.id := e] && k in keys(byId[e.id := e][id]) {
      var without := byId - {e.id};
      assert id in Lookup(idx, k) <==> id in without && k in keys(without[id]);
    }
  }

  // ---------------------------------------------------------------- the deletion cache

  /** A fresh arrival that is no deletion, and that no stored deletion by its author names, leaves the deletion set as it is. */
  lemma ArrivalKeepsDeletions(byId: Observed, e: Event)
    requires e.id !in byId && !IsDeletion(e) && !Retracted(byId, e.id, e.pubkey)
    ensures DeletedIds(byId[e.id := e]) == DeletedIds(byId)
  {
    var after := byId[e.id := e];
    forall id, author ensures Retracted(after, id, author) <==> Retracted(byId, id, author) {
      if Retracted(byId, id, author) {
        var d :| d in byId && IsDeletion(byId[d]) && byId[d].pubkey == author && id in RefIds(byId[d]);
        assert after[d] == byId[d];
      }
      if Retracted(after, id, author) {
        var d :| d in after && IsDeletion(after[d]) && after[d].pubkey == author && id in RefIds(after[d]);
        assert d != e.id && after[d] == byId[d];
      }
    }
    forall id ensures id in DeletedIds(after) <==> id in DeletedIds(byId) {}
    SameElements(DeletedIds(after), DeletedIds(byId));
  }

  function Last(byId: Observed, events: seq<Event>): Observed
    decreases |events|
  {
    if events == [] then byId
    else Last(byId, events[..|events| - 1])[events[|events| - 1].id := events[|events| - 1]]
  }

  /** A replacement keeps its place; a new id goes to the end. */
  function Extended(order: seq<Id>, events: seq<Event>): seq<Id>
    decreases |events|
  {
    if events == [] then order
    else
      var prior := Extended(order, events[..|events| - 1]);
      var id := events[|events| - 1].id;
      if id in prior then prior else prior + [id]
  }

  class InMemoryEventStorage {
    var order: seq<Id>
    var byId: Observed
    var kindIdx: map<int, set<Id>>
    var typeTagIdx: map<Label, set<Id>>
    var iTagIdx: map<string, set<Id>>
    var eTagIdx: map<Id, set<Id>>
    var deletedCache: Option<set<Id>>

    ghost predicate Stored()
      reads this
    {
      && Keyed(byId)
      && Distinct(order)
      && Held(order, byId) && (forall id :: id in byId ==> id in order)
      && (deletedCache.Some? ==> deletedCache.value == DeletedIds(byId))
    }

    ghost predicate Indexed()
      reads this
    {
      && Exact(kindIdx, byId, KindKeys) && Exact(typeTagIdx, byId, TypeKeys)
      && Exact(iTagIdx, byId, IKeys) && Exact(eTagIdx, byId, EKeys)
    }

    ghost predicate Valid()
      reads this
    {
      Stored() && Indexed()
    }

    constructor ()
      ensures Valid() && order == [] && byId == map[]
    {
      order, byId := [], map[];
      kindIdx, typeTagIdx, iTagIdx, eTagIdx := map[], map[], map[], map[];
      deletedCache := None;
    }

    method UnindexEvent(stale: Event)
      requires Keyed(byId) && Indexed() && stale.id in byId && byId[stale.id] == stale
      modifies this`kindIdx, this`typeTagIdx, this`iTagIdx, this`eTagIdx
      ensures Exact(kindIdx, byId - {stale.id}, KindKeys) && Exact(typeTagIdx, byId - {stale.id}, TypeKeys)
      ensures Exact(iTagIdx, byId - {stale.id}, IKeys) && Exact(eTagIdx, byId - {stale.id}, EKeys)
    {
      hide Exact, Keyed, Lookup;
      var kinds := DropAll(kindIdx, KindKeys(stale), stale.id);
      var types := DropAll(typeTagIdx, TypeKeys(stale), stale.id);
      var indexers := DropAll(iTagIdx, IKeys(stale), stale.id);
      var es := DropAll(eTagIdx, EKeys(stale), stale.id);
      ExactAfterDrop(kindIdx, kinds, byId, KindKeys, stale.id);
      ExactAfterDrop(typeTagIdx, types, byId, TypeKeys, stale.id);
      ExactAfterDrop(iTagIdx, indexers, byId, IKeys, stale.id);
      ExactAfterDrop(eTagIdx, es, byId, EKeys, stale.id);
      kindIdx, typeTagIdx, iTagIdx, eTagIdx := kinds, types, indexers, es;
    }

    method IndexEvent(e: Event)
      requires Exact(kindIdx, byId - {e.id}, KindKeys) && Exact(typeTagIdx, byId - {e.id}, TypeKeys)
      requires Exact(iTagIdx, byId - {e.id}, IKeys) && Exact(eTagIdx, byId - {e.id}, EKeys)
      requires e.id in byId && byId[e.id] == e
      modifies this`kindIdx, this`typeTagIdx, this`iTagIdx, this`eTagIdx
      ensures Indexed()
    {
      hide Exact, Lookup;
      assert byId[e.id := e] == byId;
      var kinds := AddAll(kindIdx, KindKeys(e), e.id);
      var types := AddAll(typeTagIdx, TypeKeys(e), e.id);
      var indexers := AddAll(iTagIdx, IKeys(e), e.id);
      var es := AddAll(eTagIdx, EKeys(e), e.id);
      ExactAfterAdd(kindIdx, kinds, byId, KindKeys, e);
      ExactAfterAdd(typeTagIdx, types, byId, TypeKeys, e);
      ExactAfterAdd(iTagIdx, indexers, byId, IKeys, e);
      ExactAfterAdd(eTagIdx, es, byId, EKeys, e);
      kindIdx, typeTagIdx, iTagIdx, eTagIdx := kinds, types, indexers, es;
    }

    /** Whether some stored deletion by the arrival's author already names it. */
    method AwaitedByDeletion(e: Event) returns (awaited: bool)
      requires Valid()
      ensures awaited <==> Retracted(byId, e.id, e.pubkey)
    {
      awaited := false;
      var todo := Lookup(eTagIdx, e.id);
      ghost var referrers := todo;
      ReferrersAre(eTagIdx, byId, e.id);
      while todo != {}
        invariant todo <= referrers
        invariant forall d :: d in referrers && d !in todo ==> !(IsDeletion(byId[d]) && byId[d].pubkey == e.pubkey)
        decreases |todo|
      {
        var d := Pick(todo);
        todo := todo - {d};
        if IsDeletion(byId[d]) && byId[d].pubkey == e.pubkey {
          assert d in byId && e.id in RefIds(byId[d]);
          return true;
        }
      }
    }

    /** Stores the events in order; the deletion cache survives only arrivals that cannot change it. */
    method Put(events: seq<Event>)
      requires Valid()
      modifies this
      ensures Valid()
      ensures byId == Last(old(byId), events) && order == Extended(old(order), events)
    {
      for i := 0 to |events|
        invariant Valid()
        invariant byId == Last(old(byId), events[..i]) && order == Extended(old(order), events[..i])
      {
        assert events[..i + 1][..i] == events[..i];
        PutOne(events[i]);
      }
      assert events[..|events|] == events;
    }

    method PutOne(e: Event)
      requires Valid()
      modifies this
      ensures Valid()
      ensures byId == old(byId)[e.id := e]
      ensures order == if e.id in old(order) then old(order) else old(order) + [e.id]
    {
      hide Exact, DeletedIds, Retracted;
      if e.id in byId {
        UnindexEvent(byId[e.id]);
        deletedCache := None;
      } else {
        assert byId - {e.id} == byId;
        if IsDeletion(e) {
          deletedCache := None;
        } else {
          var awaited := AwaitedByDeletion(e);
          if awaited { deletedCache := None; } else { ArrivalKeepsDeletions(byId, e); }
        }
        order := order + [e.id];
      }
      assert byId[e.id := e] - {e.id} == byId - {e.id};
      byId := byId[e.id := e];
      IndexEvent(e);
    }

    /** The ids a filter can be pruned to: never fewer than those that match. */
    method CandidateIds(f: Filter) returns (pruned: Option<set<Id>>)
      requires Valid()
      ensures pruned.Some? ==> LosesNothing(byId, f, pruned.value)
    {
      var buckets: seq<set<Id>> := [];
      IdBucket(byId, f);
      NoBuckets(byId, f);
      hide Exact, Distinct, DeletedIds, LosesNothing, AllLoseNothing, Keyed, Held, Elems;
      if f.ids.Some? {
        OneMoreBucket(byId, f, buckets, Elems(f.ids.value));
        buckets := buckets + [Elems(f.ids.value)];
      }
      if f.kinds.Some? {
        var s := UnionOf(kindIdx, f.kinds.value);
        KindBucket(kindIdx, byId, f, s);
        OneMoreBucket(byId, f, buckets, s);
        buckets := buckets + [s];
      }
      if f.tLabels.Some? && |f.tLabels.value| > 0 && forall t :: t in f.tLabels.value ==> t.TypeLabel? {
        var s := UnionOf(typeTagIdx, f.tLabels.value);
        TypeBucket(typeTagIdx, byId, f, s);
        OneMoreBucket(byId, f, buckets, s);
        buckets := buckets + [s];
      }
      if f.iTags.Some? {
        var s := UnionOf(iTagIdx, f.iTags.value);
        IBucket(iTagIdx, byId, f, s);
        OneMoreBucket(byId, f, buckets, s);
        buckets := buckets + [s];
      }
      if f.eTags.Some? {
        var s := UnionOf(eTagIdx, f.eTags.value);
        EBucket(eTagIdx, byId, f, s);
        OneMoreBucket(byId, f, buckets, s);
        buckets := buckets + [s];
      }
      if buckets == [] { return None; }
      var result := IntersectAll(byId, f, buckets);
      return Some(result);
    }

    /** The stored deletion targets that their own author retracted. */
    method HonouredlyDeletedIds() returns (deleted: set<Id>)
      requires Stored()
      ensures deleted == DeletedIds(byId)
    {
      deleted := {};
      hide DeletedIds;
      for i := 0 to |order|
        invariant forall id :: id in deleted ==> Deleted(byId, id)
        invariant forall k, id :: 0 <= k < i && NamedBy(byId, order[k], id) ==> id in deleted
      {
        var event := byId[order[i]];
        if !IsDeletion(event) { continue; }
        for j := 0 to |event.refs|
          invariant forall id :: id in deleted ==> Deleted(byId, id)
          invariant forall k, id :: 0 <= k < i && NamedBy(byId, order[k], id) ==> id in deleted
          invariant forall l :: 0 <= l < j && NamedBy(byId, order[i], event.refs[l].id) ==> event.refs[l].id in deleted
        {
          var ref := event.refs[j];
          if ref.id !in byId { continue; }
          var target := byId[ref.id];
          if IsDeletion(target) { continue; }
          if target.pubkey != event.pubkey { continue; }
          RetractedBy(byId, order[i], ref);
          deleted := deleted + {ref.id};
        }
      }
      forall id ensures id in deleted <==> Deleted(byId, id) {
        if Deleted(byId, id) {
          var d :| d in byId && IsDeletion(byId[d]) && byId[d].pubkey == byId[id].pubkey && id in RefIds(byId[d]);
          assert d in order && NamedBy(byId, d, id);
        }
      }
      DeletedAre(byId, deleted);
    }

    method RefreshCache()
      requires Valid()
      modifies this`deletedCache
      ensures Valid() && deletedCache == Some(DeletedIds(byId))
    {
      var deleted := HonouredlyDeletedIds();
      deletedCache := Some(deleted);
    }

    lemma CacheIsFresh()
      requires Valid()
      ensures deletedCache.Some? ==> deletedCache.value == DeletedIds(byId)
    {
    }

    lemma ValidHolds()
      requires Valid()
      ensures OrderFits(order, byId)
    {
    }

    lemma ScanMeans(filters: seq<Filter>, includeDeleted: bool)
      requires Valid()
      ensures OrderFits(order, byId)
      ensures var hidden := if includeDeleted then {} else DeletedIds(byId);
              var events := FullScan(order, byId, filters, includeDeleted);
              if filters == [] then AnswersAll(order, byId, hidden, events) else Answers(order, byId, hidden, filters, events)
    {
      hide Indexed, DeletedIds, Answers, MergedFilters, Unfiltered, Before;
      var hidden := if includeDeleted then {} else DeletedIds(byId);
      if filters == [] { UnfilteredMeans(order, byId, hidden); } else { MergedAnswers(order, byId, hidden, filters); }
    }

    /** The answer an unindexed scan would give, whatever the cache and the indexes have been through. */
    method Query(filters: seq<Filter>, includeDeleted: bool) returns (events: seq<Event>)
      requires Valid()
      modifies this`deletedCache
      ensures Valid()
      ensures events == FullScan(order, byId, filters, includeDeleted)
      ensures var hidden := if includeDeleted then {} else DeletedIds(byId);
              if filters == [] then AnswersAll(order, byId, hidden, events) else Answers(order, byId, hidden, filters, events)
    {
      ScanMeans(filters, includeDeleted);
      hide Valid, DeletedIds, Unfiltered, Answers, AnswersAll;
      if !includeDeleted && deletedCache.None? { RefreshCache(); }
      if !includeDeleted { CacheIsFresh(); }
      var hidden := if includeDeleted then {} else deletedCache.value;
      if filters == [] {
        events := QueryAll(hidden);
        return;
      }
      ValidHolds();
      events := [];
      for i := 0 to |filters|
        invariant Valid()
        invariant events == MergedFilters(order, byId, hidden, filters[..i])
      {
        assert filters[..i + 1][..i] == filters[..i];
        var matches := QueryOne(filters[i], hidden);
        events := Merge(events, matches);
      }
      assert filters[..|filters|] == filters;
    }

    /** Everything visible, in insertion order. */
    method QueryAll(hidden: set<Id>) returns (events: seq<Event>)
      requires Valid()
      ensures events == Unfiltered(order, byId, hidden)
    {
      events := [];
      for i := 0 to |order|
        invariant events == Unfiltered(order[..i], byId, hidden)
      {
        assert order[..i + 1][..i] == order[..i];
        if order[i] !in hidden { events := events + [byId[order[i]]]; }
      }
      assert order[..|order|] == order;
    }

    /** One filter's own matches, limited before they are merged with the others'. */
    method QueryOne(f: Filter, hidden: set<Id>) returns (events: seq<Event>)
      requires Valid()
      ensures events == PerFilter(order, byId, hidden, f)
    {
      var pruned := CandidateIds(f);
      events := [];
      hide Exact, DeletedIds, MatchesFilter, Distinct, Matching;
      assert order[..0] == [] && Matching([], byId, hidden, f) == [] by { NoMatching(byId, hidden, f); }
      for i := 0 to |order|
        invariant events == Matching(order[..i], byId, hidden, f)
      {
        MatchingStep(order, i, byId, hidden, f);
        var e := byId[order[i]];
        assert e.id == order[i];
        if pruned.Some? && e.id !in pruned.value { continue; }
        if order[i] !in hidden && MatchesFilter(e, f) { events := events + [e]; }
      }
      assert order[..|order|] == order;
      MatchingOnePerId(order, byId, hidden, f);
      if f.limit.Some? {
        var ranked := SortSet(Elems(events), Rank);
        events := if f.limit.value < |ranked| then ranked[..f.limit.value] else ranked;
      }
    }
  }

  method Merge(collected: seq<Event>, more: seq<Event>) returns (r: seq<Event>)
    ensures r == Merged(collected, more)
  {
    r := collected;
    for i := 0 to |more|
      invariant r == Merged(collected, more[..i])
    {
      assert more[..i + 1][..i] == more[..i];
      if !exists e :: e in r && e.id == more[i].id { r := r + [more[i]]; }
    }
    assert more[..|more|] == more;
  }

  ghost predicate NamedBy(byId: Observed, d: Id, id: Id) {
    && d in byId && id in byId
    && IsDeletion(byId[d]) && !IsDeletion(byId[id])
    && byId[d].pubkey == byId[id].pubkey && id in RefIds(byId[d])
  }

  lemma RetractedBy(byId: Observed, d: Id, ref: ERef)
    requires d in byId && IsDeletion(byId[d]) && ref in byId[d].refs
    requires ref.id in byId && !IsDeletion(byId[ref.id]) && byId[ref.id].pubkey == byId[d].pubkey
    ensures Deleted(byId, ref.id)
  {
    assert ref.id in RefIds(byId[d]);
  }

  lemma DeletedAre(byId: Observed, deleted: set<Id>)
    requires forall id :: id in deleted <==> Deleted(byId, id)
    ensures deleted == DeletedIds(byId)
  {
    forall id ensures id in deleted <==> id in DeletedIds(byId) {}
    SameElements(deleted, DeletedIds(byId));
  }

  lemma ReferrersAre(idx: map<Id, set<Id>>, byId: Observed, id: Id)
    requires Exact(idx, byId, EKeys)
    ensures forall d :: d in Lookup(idx, id) <==> d in byId && id in RefIds(byId[d])
  {
  }

  /** The bucket loses no stored event that matches. */
  ghost predicate LosesNothing(byId: Observed, f: Filter, bucket: set<Id>) {
    forall id :: id in byId && MatchesFilter(byId[id], f) ==> id in bucket
  }

  ghost predicate AllLoseNothing(byId: Observed, f: Filter, buckets: seq<set<Id>>) {
    forall i :: 0 <= i < |buckets| ==> LosesNothing(byId, f, buckets[i])
  }

  lemma OneMoreBucket(byId: Observed, f: Filter, buckets: seq<set<Id>>, s: set<Id>)
    requires AllLoseNothing(byId, f, buckets) && LosesNothing(byId, f, s)
    ensures AllLoseNothing(byId, f, buckets + [s])
  {
  }

  lemma NoBuckets(byId: Observed, f: Filter)
    ensures AllLoseNothing(byId, f, [])
  {
  }

  /** Intersecting buckets that lose nothing loses nothing. */
  method IntersectAll(ghost byId: Observed, ghost f: Filter, buckets: seq<set<Id>>) returns (result: set<Id>)
    requires buckets != [] && AllLoseNothing(byId, f, buckets)
    ensures LosesNothing(byId, f, result)
    ensures forall id :: id in result <==> forall i :: 0 <= i < |buckets| ==> id in buckets[i]
  {
    result := buckets[0];
    for n := 1 to |buckets|
      invariant LosesNothing(byId, f, result)
      invariant forall id :: id in result <==> forall i :: 0 <= i < n ==> id in buckets[i]
    {
      result := Intersect(buckets[n], result);
    }
  }

  lemma IdBucket(byId: Observed, f: Filter)
    requires Keyed(byId)
    ensures f.ids.Some? ==> LosesNothing(byId, f, Elems(f.ids.value))
  {
  }

  lemma KindBucket(idx: map<int, set<Id>>, byId: Observed, f: Filter, s: set<Id>)
    requires Exact(idx, byId, KindKeys) && f.kinds.Some?
    requires forall k, x :: k in f.kinds.value && x in Lookup(idx, k) ==> x in s
    ensures LosesNothing(byId, f, s)
  {
    forall id | id in byId && MatchesFilter(byId[id], f) ensures id in s {
      assert byId[id].kind in KindKeys(byId[id]);
      assert id in Lookup(idx, byId[id].kind);
    }
  }

  lemma TypeBucket(idx: map<Label, set<Id>>, byId: Observed, f: Filter, s: set<Id>)
    requires Exact(idx, byId, TypeKeys) && f.tLabels.Some?
    requires forall t :: t in f.tLabels.value ==> t.TypeLabel?
    requires forall k, x :: k in f.tLabels.value && x in Lookup(idx, k) ==> x in s
    ensures LosesNothing(byId, f, s)
  {
    forall id | id in byId && MatchesFilter(byId[id], f) ensures id in s {
      var t :| t in byId[id].labels && t in f.tLabels.value;
      assert t in TypeKeys(byId[id]);
      assert id in Lookup(idx, t);
    }
  }

  lemma IBucket(idx: map<string, set<Id>>, byId: Observed, f: Filter, s: set<Id>)
    requires Exact(idx, byId, IKeys) && f.iTags.Some?
    requires forall k, x :: k in f.iTags.value && x in Lookup(idx, k) ==> x in s
    ensures LosesNothing(byId, f, s)
  {
    forall id | id in byId && MatchesFilter(byId[id], f) ensures id in s {
      var i :| i in byId[id].indexers && i in f.iTags.value;
      assert id in Lookup(idx, i);
    }
  }

  lemma EBucket(idx: map<Id, set<Id>>, byId: Observed, f: Filter, s: set<Id>)
    requires Exact(idx, byId, EKeys) && f.eTags.Some?
    requires forall k, x :: k in f.eTags.value && x in Lookup(idx, k) ==> x in s
    ensures LosesNothing(byId, f, s)
  {
    forall id | id in byId && MatchesFilter(byId[id], f) ensures id in s {
      var r :| r in byId[id].refs && r.id in f.eTags.value;
      assert r.id in EKeys(byId[id]);
      assert id in Lookup(idx, r.id);
    }
  }

  // ---------------------------------------------------------------- arrival order

  ghost predicate AllLimited(filters: seq<Filter>) {
    forall f :: f in filters ==> f.limit.Some?
  }

  /** Limited filters answer alike over storages that hold the same events, whatever order they arrived in. */
  lemma {:induction false} LimitedQueriesConfluent(a: seq<Id>, b: seq<Id>, byId: Observed, hidden: set<Id>, filters: seq<Filter>)
    requires OrderFits(a, byId) && OrderFits(b, byId)
    requires forall id :: id in byId ==> id in a && id in b
    requires AllLimited(filters)
    ensures MergedFilters(a, byId, hidden, filters) == MergedFilters(b, byId, hidden, filters)
    decreases |filters|
  {
    if filters != [] {
      var n := |filters| - 1;
      LimitedQueriesConfluent(a, b, byId, hidden, filters[..n]);
      var f := filters[n];
      forall e ensures e in Elems(Matching(a, byId, hidden, f)) <==> e in Elems(Matching(b, byId, hidden, f)) {
        MatchingIsAll(a, byId, hidden, f, e);
        MatchingIsAll(b, byId, hidden, f, e);
      }
      SameElements(Elems(Matching(a, byId, hidden, f)), Elems(Matching(b, byId, hidden, f)));
    }
  }

  /** A limited filter's answer is its top ranks: as many as asked for, ordered, and nothing left out ranks above it. */
  lemma TopRanks(order: seq<Id>, byId: Observed, hidden: set<Id>, f: Filter)
    requires OrderFits(order, byId) && (forall id :: id in byId ==> id in order) && f.limit.Some?
    ensures var r := PerFilter(order, byId, hidden, f);
            var all := Elems(Matching(order, byId, hidden, f));
            && (forall e :: e in all <==> IsMatch(byId, hidden, f, e))
            && |r| == (if f.limit.value < |all| then f.limit.value else |all|)
            && SortedBy(r, Rank)
            && (forall e :: e in r ==> e in all)
            && forall x, y :: x in all && x !in r && y in r ==>
                 y.createdAt > x.createdAt || (y.createdAt == x.createdAt && y.id < x.id)
  {
    MatchingOnePerId(order, byId, hidden, f);
    var all := Elems(Matching(order, byId, hidden, f));
    forall e ensures e in all <==> IsMatch(byId, hidden, f, e) { MatchingIsAll(order, byId, hidden, f, e); }
    var ranked := Sorted(all, Rank);
    var r := PerFilter(order, byId, hidden, f);
    ListCard(ranked, all, Rank);
    forall x, y | x in all && x !in r && y in r
      ensures y.createdAt > x.createdAt || (y.createdAt == x.createdAt && y.id < x.id)
    {
      RankMeans(y, x);
      assert x in Elems(ranked) && y in Elems(ranked);
      var i :| 0 <= i < |ranked| && ranked[i] == x;
      var j :| 0 <= j < |r| && r[j] == y;
      assert ranked[j] == y && i >= |r|;
    }
  }

  /** Ids name events: two arrival orders of the same events store the same map. */
  lemma LastConfluent(xs: seq<Event>, ys: seq<Event>)
    requires Elems(xs) == Elems(ys) && IdDetermines(Elems(xs))
    ensures Last(map[], xs) == Last(map[], ys)
  {
    LastIs(xs);
    LastIs(ys);
    assert forall e :: e in xs <==> e in Elems(xs);
    assert forall e :: e in ys <==> e in Elems(ys);
    var a, b := Last(map[], xs), Last(map[], ys);
    forall id ensures id in a <==> id in b {}
    forall id | id in a && id in b ensures a[id] == b[id] {}
    SameMaps(a, b);
  }

  lemma {:induction false} LastIs(xs: seq<Event>)
    ensures forall id :: id in Last(map[], xs) ==> Last(map[], xs)[id] in xs && Last(map[], xs)[id].id == id
    ensures forall e :: e in xs ==> e.id in Last(map[], xs)
    decreases |xs|
  {
    if xs != [] {
      var n := |xs| - 1;
      LastIs(xs[..n]);
      assert xs == xs[..n] + [xs[n]];
    }
  }

  lemma {:induction false} ExtendedFits(xs: seq<Event>)
    ensures OrderFits(Extended([], xs), Last(map[], xs))
    ensures forall id :: id in Last(map[], xs) ==> id in Extended([], xs)
    decreases |xs|
  {
    if xs != [] { ExtendedFits(xs[..|xs| - 1]); }
  }

  /** Filters that all carry a limit cannot tell in which order, or how often, the same events were put. */
  lemma ArrivalOrderInvisible(xs: seq<Event>, ys: seq<Event>, filters: seq<Filter>, includeDeleted: bool)
    requires Elems(xs) == Elems(ys) && IdDetermines(Elems(xs))
    requires filters != [] && AllLimited(filters)
    requires OrderFits(Extended([], xs), Last(map[], xs)) && OrderFits(Extended([], ys), Last(map[], ys))
    ensures FullScan(Extended([], xs), Last(map[], xs), filters, includeDeleted) ==
            FullScan(Extended([], ys), Last(map[], ys), filters, includeDeleted)
  {
    LastConfluent(xs, ys);
    ExtendedFits(xs);
    ExtendedFits(ys);
    var byId := Last(map[], xs);
    LimitedQueriesConfluent(Extended([], xs), Extended([], ys), byId, if includeDeleted then {} else DeletedIds(byId), filters);
  }
}
