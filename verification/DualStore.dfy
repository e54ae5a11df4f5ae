/** The relay's base store and search index, written together, and the rebuild of the index. */
module DualStore {
  import opened Prelude
  import opened Paging

  const TEXT_NOTE: int := 1

  ghost function Indexable(events: set<Stored>): set<Stored> {
    OfKind(events, TEXT_NOTE)
  }

  datatype SaveResult = Saved | Duplicate | BaseError | IndexError

  class Dual {
    var base: set<Stored>
    var index: set<Stored>
    var drift: nat

    /** The index holds nothing else, and what it lacks is covered by the drift count. */
    ghost predicate Valid()
      reads this
    {
      index <= Indexable(base) && |Indexable(base) - index| <= drift
    }

    constructor ()
      ensures Valid() && base == {} && drift == 0
    {
      base, index, drift := {}, {}, 0;
    }

    /** Base store first, then the index; a duplicate re-attempts the index write before being answered. */
    method SaveEvent(evt: Stored, baseFails: bool, indexFails: bool) returns (result: SaveResult)
      requires Valid()
      modifies this
      ensures Valid()
      ensures result == if evt in old(base) then Duplicate else if baseFails then BaseError
                        else if indexFails then IndexError else Saved
      ensures base == old(base) + if result == Saved || result == IndexError then {evt} else {}
      ensures index == old(index) + if evt in base && !indexFails && evt.kind == TEXT_NOTE then {evt} else {}
      ensures drift == old(drift) + if evt in base && indexFails then 1 else 0
    {
      Covered(base, index, evt);
      if evt in base {
        if indexFails { drift := drift + 1; } else { WriteIndex(evt); }
        return Duplicate;
      }
      if baseFails { return BaseError; }
      base := base + {evt};
      if indexFails {
        drift := drift + 1;
        return IndexError;
      }
      WriteIndex(evt);
      return Saved;
    }

    /** The index takes text notes only. */
    method WriteIndex(evt: Stored)
      modifies this`index
      ensures index == old(index) + if evt.kind == TEXT_NOTE then {evt} else {}
    {
      if evt.kind == TEXT_NOTE { index := index + {evt}; }
    }
  }

  /** One write leaves at most one more event uncovered, and none when it reaches the index. */
  lemma Covered(base: set<Stored>, index: set<Stored>, evt: Stored)
    requires index <= Indexable(base)
    ensures |Indexable(base + {evt}) - index| <= |Indexable(base) - index| + 1
    ensures var noted := index + if evt.kind == TEXT_NOTE then {evt} else {};
            |Indexable(base + {evt}) - noted| <= |Indexable(base) - index|
            && |Indexable(base) - noted| <= |Indexable(base) - index|
  {
    var gap := Indexable(base) - index;
    var noted := index + if evt.kind == TEXT_NOTE then {evt} else {};
    CardMonotone(Indexable(base + {evt}) - index, gap + {evt});
    CardMonotone(Indexable(base + {evt}) - noted, gap);
    CardMonotone(Indexable(base) - noted, gap);
  }

  /** No drift, no gap: search answers over exactly the stored text notes. */
  lemma NoDriftNoGap(base: set<Stored>, index: set<Stored>)
    requires index <= Indexable(base) && |Indexable(base) - index| <= 0
    ensures index == Indexable(base)
  {
    assert Indexable(base) - index == {};
  }

  lemma IndexableGrows(events: set<Stored>, e: Stored)
    ensures Indexable(events + {e}) == Indexable(events) + if e.kind == TEXT_NOTE then {e} else {}
  {
  }

  lemma NoneIndexable()
    ensures Indexable({}) == {}
  {
  }

  lemma IndexableMonotone(a: set<Stored>, b: set<Stored>)
    requires a <= b
    ensures Indexable(a) <= Indexable(b) && Indexable(a) <= a
  {
  }

  /** Replays the base store into an empty index, each event once. */
  method Reindex(base: seq<Stored>, indexFails: Stored -> bool)
    returns (index: set<Stored>, replayed: nat, outcome: ScanOutcome)
    requires IsStore(base)
    ensures index <= Indexable(Elems(base))
    ensures outcome.Complete? ==> index == Indexable(Elems(base)) && replayed == |base|
    ensures outcome.Failed? ==> outcome.event in base && indexFails(outcome.event) && outcome.event !in index
  {
    var visited;
    visited, outcome := ScanAll(base, indexFails);
    StoreIds(base);
    StoreDistinct(base);
    DistinctCard(base);
    index, replayed := {}, 0;
    var seen: set<int> := {};
    ghost var fed: set<Stored> := {};
    hide IsStore, Crowded, Indexable, Progress;
    NoneIndexable();
    for i := 0 to |visited|
      invariant fed <= Elems(base) && replayed == |fed|
      invariant forall e :: e in fed ==> !indexFails(e)
      invariant forall e :: e in Elems(base) ==> (e.id in seen <==> e in fed)
      invariant forall k :: 0 <= k < i ==> visited[k] in fed
      invariant index == Indexable(fed)
    {
      var evt := visited[i];
      if evt.id in seen { continue; }
      IndexableGrows(fed, evt);
      seen, fed := seen + {evt.id}, fed + {evt};
      if evt.kind == TEXT_NOTE { index := index + {evt}; }
      replayed := replayed + 1;
    }
    IndexableMonotone(fed, Elems(base));
    if outcome.Complete? { SameElements(fed, Elems(base)); }
  }
}
