/** The relay's backward scan of its store, and the exact count and difference built on it. */
module Paging {
  import opened Prelude

  datatype Stored = Stored(id: int, createdAt: nat, kind: int)

  const PAGE_SIZE: nat := 1000
  const MAX_PAGE_SIZE: nat := 0x2_0000

  /** The page size at which growing stops: the first doubling of 1000 that reaches the maximum. */
  const LAST_PAGE_SIZE: nat := 256000

  /** A base store: newest first, ids unique, every timestamp positive (zero would mean "no bound"). */
  ghost predicate IsStore(base: seq<Stored>) {
    && (forall i, j :: 0 <= i < j < |base| ==> base[i].createdAt >= base[j].createdAt)
    && (forall i, j :: 0 <= i < j < |base| ==> base[i].id != base[j].id)
    && (forall i :: 0 <= i < |base| ==> base[i].createdAt > 0)
  }

  predicate Under(event: Stored, until: nat) {
    until == 0 || event.createdAt <= until
  }

  ghost predicate Full(page: seq<Stored>, limit: nat) {
    |page| == limit
  }

  /** The newest events at or below the bound; among equal timestamps any of them may come first. */
  ghost predicate IsPage(events: set<Stored>, until: nat, limit: nat, page: seq<Stored>) {
    && Distinct(page) && |page| <= limit
    && (forall e :: e in page ==> e in events && Under(e, until) && e.createdAt >= page[|page| - 1].createdAt)
    && (forall e :: e in events && Under(e, until) && e !in page ==>
         Full(page, limit) && page != [] && e.createdAt <= page[|page| - 1].createdAt)
  }

  /** Reads at most `limit` events at or before `until`, newest first. */
  method FetchPage(base: seq<Stored>, until: nat, limit: nat) returns (page: seq<Stored>)
    requires IsStore(base) && limit > 0
    ensures IsPage(Elems(base), until, limit, page)
  {
    page := [];
    hide IsPage, Under;
    for i := 0 to |base|
      invariant |page| < limit && PageOf(base, i, until, page)
    {
      var evt := base[i];
      if Under(evt, until) {
        Appended(base, i, until, page);
        page := page + [evt];
        if |page| == limit {
          PageIsPage(base, i + 1, until, limit, page);
          return;
        }
      } else {
        Skipped(base, i, until, page);
      }
    }
    PageIsPage(base, |base|, until, limit, page);
  }

  /** The events under the bound among the first `i`, in store order. */
  ghost predicate PageOf(base: seq<Stored>, i: nat, until: nat, page: seq<Stored>) {
    && i <= |base| && Distinct(page)
    && (forall e :: e in page ==> e in base[..i] && Under(e, until))
    && (forall k :: 0 <= k < |page| ==> page[k].createdAt >= page[|page| - 1].createdAt)
    && forall k :: 0 <= k < i && Under(base[k], until) ==> base[k] in page
  }

  lemma Appended(base: seq<Stored>, i: nat, until: nat, page: seq<Stored>)
    requires IsStore(base) && i < |base| && PageOf(base, i, until, page) && Under(base[i], until)
    ensures PageOf(base, i + 1, until, page + [base[i]])
  {
    hide Under;
    assert base[i] !in base[..i];
    forall k | 0 <= k < |page| ensures page[k].createdAt >= base[i].createdAt {
      assert page[k] in base[..i];
    }
  }

  lemma Skipped(base: seq<Stored>, i: nat, until: nat, page: seq<Stored>)
    requires i < |base| && PageOf(base, i, until, page) && !Under(base[i], until)
    ensures PageOf(base, i + 1, until, page)
  {
    hide Under;
  }

  /** A full page, or one that reaches the end of the store, is what a query returns. */
  lemma PageIsPage(base: seq<Stored>, i: nat, until: nat, limit: nat, page: seq<Stored>)
    requires IsStore(base) && PageOf(base, i, until, page) && limit > 0
    requires |page| <= limit && (i < |base| ==> |page| == limit)
    ensures IsPage(Elems(base), until, limit, page)
  {
    hide Under;
    forall e | e in page ensures e.createdAt >= page[|page| - 1].createdAt {
      var k :| 0 <= k < |page| && page[k] == e;
    }
    forall e | e in base && Under(e, until) && e !in page
      ensures Full(page, limit) && page != [] && e.createdAt <= page[|page| - 1].createdAt
    {
      var j :| 0 <= j < |base| && base[j] == e;
      assert page[|page| - 1] in base[..i];
    }
  }

  // ---------------------------------------------------------------- the scan

  datatype ScanOutcome = Complete | Oversized(second: int, size: nat) | Failed(event: Stored)

  ghost function AtSecond(events: set<Stored>, second: int): set<Stored> {
    set e | e in events && e.createdAt == second
  }

  /** A second holding as many events as the largest page. */
  ghost predicate Crowded(events: set<Stored>, second: int) {
    |AtSecond(events, second)| >= LAST_PAGE_SIZE
  }

  predicate IsPageSize(n: nat) {
    n in {1000, 2000, 4000, 8000, 16000, 32000, 64000, 128000, 256000}
  }

  /** Everything newer than the bound has been passed to the callback, and no crowded second among it. */
  ghost predicate Progress(events: set<Stored>, until: nat, visited: seq<Stored>) {
    && (forall e :: e in visited ==> e in events)
    && (forall e :: e in events && !Under(e, until) ==> e in visited)
    && (until != 0 ==> forall second :: Crowded(events, second) ==> second <= until)
  }

  lemma {:induction false} DistinctCard<T>(xs: seq<T>)
    requires Distinct(xs)
    ensures |Elems(xs)| == |xs|
  {
    if xs != [] {
      var init, last := xs[..|xs| - 1], xs[|xs| - 1];
      DistinctCard(init);
      ElemsAppend(init, last);
      assert xs == init + [last];
      assert last !in init;
    }
  }

  /** A short page is the rest of the store. */
  lemma ShortPageEnds(events: set<Stored>, until: nat, limit: nat, page: seq<Stored>, visited: seq<Stored>)
    requires IsPage(events, until, limit, page) && |page| < limit <= LAST_PAGE_SIZE
    requires Progress(events, until, visited)
    ensures forall e :: e in events ==> e in visited + page
    ensures forall second :: !Crowded(events, second)
  {
    forall second ensures !Crowded(events, second) {
      if until == 0 || second <= until {
        assert AtSecond(events, second) <= Elems(page);
        CardMonotone(AtSecond(events, second), Elems(page));
        DistinctCard(page);
      }
    }
  }

  /** A full page that ends below the bound moves the bound down without skipping anything. */
  lemma FullPageAdvances(events: set<Stored>, until: nat, limit: nat, page: seq<Stored>, visited: seq<Stored>)
    requires IsPage(events, until, limit, page) && 0 < |page| == limit <= LAST_PAGE_SIZE
    requires Progress(events, until, visited)
    requires page[|page| - 1].createdAt > 0
    ensures Progress(events, page[|page| - 1].createdAt, visited + page)
  {
    var last := page[|page| - 1];
    forall second | Crowded(events, second) ensures second <= last.createdAt {
      if second > last.createdAt {
        var others := page[..|page| - 1];
        assert AtSecond(events, second) <= Elems(others) by {
          forall e | e in AtSecond(events, second) ensures e in others {
            assert e in page;
            var k :| 0 <= k < |page| && page[k] == e;
            assert others[k] == e;
          }
        }
        CardMonotone(AtSecond(events, second), Elems(others));
        DistinctCard(others);
      }
    }
  }

  /** A full page inside one second means that second holds at least a page of events. */
  lemma TieGroup(events: set<Stored>, until: nat, limit: nat, page: seq<Stored>)
    requires IsPage(events, until, limit, page) && 0 < |page| == limit
    requires until != 0 && page[|page| - 1].createdAt == until
    ensures |AtSecond(events, until)| >= limit
  {
    assert Elems(page) <= AtSecond(events, until);
    DistinctCard(page);
    CardMonotone(Elems(page), AtSecond(events, until));
  }

  /** Every event the callback saw without failing, in order, and how the scan ended. */
  ghost predicate ScanResult(events: set<Stored>, fails: Stored -> bool, visited: seq<Stored>, outcome: ScanOutcome) {
    && (forall e :: e in visited ==> e in events)
    && (forall e :: e in visited ==> !fails(e))
    && match outcome {
         case Complete => (forall e :: e in events ==> e in visited) && forall second :: !Crowded(events, second)
         case Oversized(second, size) => size == LAST_PAGE_SIZE && Crowded(events, second)
         case Failed(event) => event in events && fails(event)
       }
  }

  /** Runs the callback over one page, stopping at the first event it fails on. */
  method Visit(page: seq<Stored>, fails: Stored -> bool) returns (visited: seq<Stored>, failed: Option<Stored>)
    ensures forall e :: e in visited ==> e in page && !fails(e)
    ensures failed.None? ==> visited == page
    ensures failed.Some? ==> failed.value in page && fails(failed.value)
  {
    visited := [];
    for i := 0 to |page|
      invariant visited == page[..i]
      invariant forall e :: e in visited ==> !fails(e)
    {
      if fails(page[i]) { return visited, Some(page[i]); }
      visited := visited + [page[i]];
    }
    return visited, None;
  }

  /** An upper bound on the timestamps still to be scanned. */
  ghost function Horizon(base: seq<Stored>, until: nat): nat {
    if until != 0 then until else if base == [] then 1 else base[0].createdAt + 1
  }

  /** Calls the callback for every event of the base store, paging backwards. */
  method ScanAll(base: seq<Stored>, fails: Stored -> bool) returns (visited: seq<Stored>, outcome: ScanOutcome)
    requires IsStore(base)
    ensures ScanResult(Elems(base), fails, visited, outcome)
  {
    ghost var events := Elems(base);
    var until: nat, pageSize: nat := 0, PAGE_SIZE;
    visited := [];
    hide IsPage, Crowded, AtSecond;
    while true
      invariant IsPageSize(pageSize)
      invariant Progress(events, until, visited)
      invariant forall e :: e in visited ==> !fails(e)
      decreases Horizon(base, until), LAST_PAGE_SIZE - pageSize
    {
      var page := FetchPage(base, until, pageSize);
      PageFacts(events, until, pageSize, page);
      if |page| < pageSize {
        ShortPageEnds(events, until, pageSize, page, visited);
      }
      if |page| == 0 { return visited, Complete; }
      var last := page[|page| - 1];
      var seen, failed := Visit(page, fails);
      ghost var before := visited;
      visited := visited + seen;
      if failed.Some? { return visited, Failed(failed.value); }
      if |page| < pageSize { return visited, Complete; }
      if last.createdAt == until {
        TieGroup(events, until, pageSize, page);
        if pageSize >= MAX_PAGE_SIZE {
          CrowdedThere(events, until);
          return visited, Oversized(until, pageSize);
        }
        pageSize := pageSize * 2;
        continue;
      }
      FullPageAdvances(events, until, pageSize, page, before);
      LastBelow(base, until, last);
      until := last.createdAt;
    }
  }

  lemma CrowdedThere(events: set<Stored>, second: int)
    requires |AtSecond(events, second)| >= LAST_PAGE_SIZE
    ensures Crowded(events, second)
  {
  }

  lemma PageFacts(events: set<Stored>, until: nat, limit: nat, page: seq<Stored>)
    requires IsPage(events, until, limit, page)
    ensures |page| <= limit && forall e :: e in page ==> e in events && Under(e, until)
  {
  }

  lemma LastBelow(base: seq<Stored>, until: nat, last: Stored)
    requires IsStore(base) && last in base && Under(last, until) && last.createdAt != until
    ensures 0 < last.createdAt < Horizon(base, until)
  {
  }

  /** Without callback failures the scan is complete exactly when no second is crowded. */
  lemma CompleteIff(events: set<Stored>, fails: Stored -> bool, visited: seq<Stored>, outcome: ScanOutcome)
    requires ScanResult(events, fails, visited, outcome) && !outcome.Failed?
    ensures outcome.Complete? <==> forall second :: !Crowded(events, second)
  {
  }

  // ---------------------------------------------------------------- count

  ghost function OfKind(events: set<Stored>, kind: int): set<Stored> {
    set e | e in events && e.kind == kind
  }

  function CountOf(perKind: map<int, nat>, kind: int): nat {
    if kind in perKind then perKind[kind] else 0
  }

  ghost predicate UniqueIds(events: set<Stored>) {
    forall d, e :: d in events && e in events && d.id == e.id ==> d == e
  }

  lemma StoreIds(base: seq<Stored>)
    requires IsStore(base)
    ensures UniqueIds(Elems(base))
  {
  }

  lemma KindGrows(events: set<Stored>, e: Stored)
    requires e !in events
    ensures |events + {e}| == |events| + 1
    ensures forall kind :: |OfKind(events + {e}, kind)| == |OfKind(events, kind)| + if kind == e.kind then 1 else 0
  {
    forall kind ensures |OfKind(events + {e}, kind)| == |OfKind(events, kind)| + if kind == e.kind then 1 else 0 {
      assert OfKind(events + {e}, kind) == OfKind(events, kind) + if kind == e.kind then {e} else {};
    }
  }

  /** How many unique events the store holds, in total and per kind. */
  method Count(base: seq<Stored>) returns (total: nat, perKind: map<int, nat>, outcome: ScanOutcome)
    requires IsStore(base)
    ensures !outcome.Failed?
    ensures outcome.Complete? <==> forall second :: !Crowded(Elems(base), second)
    ensures outcome.Complete? ==> total == |base| == |Elems(base)|
    ensures outcome.Complete? ==> forall kind :: CountOf(perKind, kind) == |OfKind(Elems(base), kind)|
  {
    total, perKind := 0, map[];
    var never := (e: Stored) => false;
    var visited;
    visited, outcome := ScanAll(base, never);
    CompleteIff(Elems(base), never, visited, outcome);
    StoreIds(base);
    DistinctCard(base);
    var seen: set<int> := {};
    ghost var counted: set<Stored> := {};
    hide IsStore, Crowded, OfKind;
    NoneOfKind();
    for i := 0 to |visited|
      invariant counted <= Elems(base)
      invariant forall e :: e in Elems(base) ==> (e.id in seen <==> e in counted)
      invariant forall k :: 0 <= k < i ==> visited[k] in counted
      invariant total == |counted| && forall kind :: CountOf(perKind, kind) == |OfKind(counted, kind)|
    {
      var evt := visited[i];
      if evt.id in seen { continue; }
      KindGrows(counted, evt);
      seen, counted := seen + {evt.id}, counted + {evt};
      total := total + 1;
      perKind := perKind[evt.kind := CountOf(perKind, evt.kind) + 1];
    }
    if outcome.Complete? { SameElements(counted, Elems(base)); }
  }

  lemma NoneOfKind()
    ensures forall kind :: |OfKind({}, kind)| == 0
  {
    forall kind ensures |OfKind({}, kind)| == 0 {
      assert OfKind({}, kind) == {};
    }
  }

  // ---------------------------------------------------------------- difference

  ghost predicate Absent(e: Stored, other: set<Stored>) {
    forall o :: o in other ==> o.id != e.id
  }

  ghost function Missing(events: set<Stored>, other: set<Stored>): set<Stored> {
    set e | e in events && Absent(e, other)
  }

  datatype DiffOutcome = DiffDone | OtherFailed(outcome: ScanOutcome) | BaseFailed(outcome: ScanOutcome)

  /** Writes each event of `base` whose id `other` lacks, once. */
  method Diff(base: seq<Stored>, other: seq<Stored>)
    returns (written: seq<Stored>, missing: nat, compared: nat, outcome: DiffOutcome)
    requires IsStore(base) && IsStore(other)
    ensures outcome.DiffDone? <==> forall second :: !Crowded(Elems(base), second) && !Crowded(Elems(other), second)
    ensures Distinct(written) && missing == |written| && Elems(written) <= Missing(Elems(base), Elems(other))
    ensures outcome.DiffDone? ==> Elems(written) == Missing(Elems(base), Elems(other)) && compared == |base|
  {
    written, missing, compared := [], 0, 0;
    var never := (e: Stored) => false;
    var visitedOther, outcomeOther := ScanAll(other, never);
    CompleteIff(Elems(other), never, visitedOther, outcomeOther);
    hide IsStore, Crowded, AtSecond;
    if !outcomeOther.Complete? {
      return written, missing, compared, OtherFailed(outcomeOther);
    }
    var known: set<int> := {};
    for i := 0 to |visitedOther|
      invariant forall id :: id in known <==> exists k :: 0 <= k < i && visitedOther[k].id == id
    {
      known := known + {visitedOther[i].id};
    }
    assert forall e: Stored :: e.id in known <==> !Absent(e, Elems(other));
    var visited, scan := ScanAll(base, never);
    CompleteIff(Elems(base), never, visited, scan);
    StoreIds(base);
    StoreDistinct(base);
    DistinctCard(base);
    written, missing, compared := WriteMissing(visited, known, Elems(base), Elems(other));
    outcome := if scan.Complete? then DiffDone else BaseFailed(scan);
    if scan.Complete? {
      forall e ensures e in Elems(written) <==> e in Missing(Elems(base), Elems(other)) {}
      SameElements(Elems(visited), Elems(base));
    }
  }

  lemma StoreDistinct(base: seq<Stored>)
    requires IsStore(base)
    ensures Distinct(base)
  {
  }

  /** The callback of the second walk: compares each event once, writing the unknown ones. */
  method WriteMissing(visited: seq<Stored>, known: set<int>, ghost events: set<Stored>, ghost other: set<Stored>)
    returns (written: seq<Stored>, missing: nat, compared: nat)
    requires UniqueIds(events) && forall e :: e in visited ==> e in events
    requires forall e: Stored :: e.id in known <==> !Absent(e, other)
    ensures Distinct(written) && missing == |written| && compared == |Elems(visited)|
    ensures forall e :: e in written <==> e in visited && Absent(e, other)
  {
    written, missing, compared := [], 0, 0;
    var seen: set<int> := {};
    NothingWritten(visited, other);
    assert IdsSeen(events, visited, 0, seen);
    hide Absent, WrittenSoFar, UniqueIds, IdsSeen;
    for i := 0 to |visited|
      invariant IdsSeen(events, visited, i, seen)
      invariant missing == |written| && WrittenSoFar(visited, i, other, written, compared)
    {
      var evt := visited[i];
      WrittenOneMore(visited, i, other, written, compared);
      SeenOneMore(events, visited, i, seen);
      if evt.id in seen { continue; }
      seen := seen + {evt.id};
      compared := compared + 1;
      if evt.id !in known {
        written := written + [evt];
        missing := missing + 1;
      }
    }
    AllWritten(visited, other, written, compared);
  }

  /** The absent events among the first `i` visits, each once, and how many different events those visits saw. */
  ghost predicate WrittenSoFar(visited: seq<Stored>, i: nat, other: set<Stored>, written: seq<Stored>, compared: nat) {
    && i <= |visited| && Distinct(written) && compared == |Elems(visited[..i])|
    && forall e :: e in written <==> e in visited[..i] && Absent(e, other)
  }

  lemma NothingWritten(visited: seq<Stored>, other: set<Stored>)
    ensures WrittenSoFar(visited, 0, other, [], 0)
  {
  }

  lemma AllWritten(visited: seq<Stored>, other: set<Stored>, written: seq<Stored>, compared: nat)
    requires WrittenSoFar(visited, |visited|, other, written, compared)
    ensures Distinct(written) && compared == |Elems(visited)|
    ensures forall e :: e in written <==> e in visited && Absent(e, other)
  {
    hide Absent;
    assert visited[..|visited|] == visited;
  }

  /** The ids seen are those of the first `i` visits. */
  ghost predicate IdsSeen(events: set<Stored>, visited: seq<Stored>, i: nat, seen: set<int>) {
    i <= |visited| && forall e :: e in events ==> (e.id in seen <==> e in visited[..i])
  }

  lemma SeenOneMore(events: set<Stored>, visited: seq<Stored>, i: nat, seen: set<int>)
    requires UniqueIds(events) && (forall e :: e in visited ==> e in events)
    requires IdsSeen(events, visited, i, seen) && i < |visited|
    ensures visited[i].id in seen <==> visited[i] in visited[..i]
    ensures IdsSeen(events, visited, i + 1, seen + {visited[i].id})
    ensures visited[i].id in seen ==> IdsSeen(events, visited, i + 1, seen)
  {
    assert visited[..i + 1] == visited[..i] + [visited[i]];
    assert visited[i] in visited;
  }

  lemma WrittenOneMore(visited: seq<Stored>, i: nat, other: set<Stored>, written: seq<Stored>, compared: nat)
    requires WrittenSoFar(visited, i, other, written, compared) && i < |visited|
    ensures visited[i] in visited[..i] ==> WrittenSoFar(visited, i + 1, other, written, compared)
    ensures visited[i] !in visited[..i] && Absent(visited[i], other) ==>
              WrittenSoFar(visited, i + 1, other, written + [visited[i]], compared + 1)
    ensures visited[i] !in visited[..i] && !Absent(visited[i], other) ==>
              WrittenSoFar(visited, i + 1, other, written, compared + 1)
  {
    hide Absent;
    var evt := visited[i];
    assert visited[..i + 1] == visited[..i] + [evt];
    ElemsAppend(visited[..i], evt);
    if evt in visited[..i] {
      assert Elems(visited[..i]) + {evt} == Elems(visited[..i]);
    } else {
      assert evt !in Elems(visited[..i]);
    }
  }

  /** Importing the difference leaves nothing missing. */
  lemma ImportCloses(events: set<Stored>, other: set<Stored>)
    requires UniqueIds(events)
    ensures Missing(events, other + Missing(events, other)) == {}
    ensures forall e :: e in Missing(events, other) ==> e !in other
  {
  }
}
