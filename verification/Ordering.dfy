/**
 * The report order of the resolver: lexicographic pairs of ids as sort keys, and sorting of a set
 * by an injective key.
 */
module Ordering {
  import opened Prelude

  type Key = (int, int)

  predicate KeyLt(a: Key, b: Key) {
    a.0 < b.0 || (a.0 == b.0 && a.1 < b.1)
  }

  ghost predicate SortedBy<T>(xs: seq<T>, key: T -> Key) {
    forall i, j :: 0 <= i < j < |xs| ==> KeyLt(key(xs[i]), key(xs[j]))
  }

  /** `xs` lists exactly the elements of `s`, in strictly increasing key order. */
  ghost predicate Lists<T>(xs: seq<T>, s: set<T>, key: T -> Key) {
    SortedBy(xs, key) && Elems(xs) == s
  }

  ghost predicate InjectiveOn<T(!new)>(key: T -> Key, s: set<T>) {
    forall x, y :: x in s && y in s && key(x) == key(y) ==> x == y
  }

  /** A set has at most one sorted listing, whatever order its elements arrived in. */
  lemma {:induction false} ListsUnique<T>(xs: seq<T>, ys: seq<T>, s: set<T>, key: T -> Key)
    requires Lists(xs, s, key) && Lists(ys, s, key)
    ensures xs == ys
  {
    assert ys != [] ==> ys[0] in Elems(ys);
    if xs != [] {
      assert xs[0] in Elems(xs);
      var i :| 0 <= i < |ys| && ys[i] == xs[0];
      var j :| 0 <= j < |xs| && xs[j] == ys[0];
      assert xs[0] == ys[0];
      TailLists(xs, s, key);
      TailLists(ys, s, key);
      ListsUnique(xs[1..], ys[1..], s - {xs[0]}, key);
      assert xs == [xs[0]] + xs[1..] && ys == [ys[0]] + ys[1..];
    }
  }

  lemma TailLists<T>(xs: seq<T>, s: set<T>, key: T -> Key)
    requires xs != [] && Lists(xs, s, key)
    ensures Lists(xs[1..], s - {xs[0]}, key)
  {
    forall x ensures x in Elems(xs[1..]) <==> x in s - {xs[0]} {
      if x in xs[1..] {
        var i :| 0 <= i < |xs[1..]| && xs[1..][i] == x;
        assert KeyLt(key(xs[0]), key(xs[i + 1]));
        assert x in Elems(xs);
      }
      if x in s - {xs[0]} {
        assert x in Elems(xs);
        var i :| 0 <= i < |xs| && xs[i] == x;
        assert xs[1..][i - 1] == x;
      }
    }
  }

  /** Insertion of `x` in front of the first element whose key is larger. */
  function Insert<T>(xs: seq<T>, x: T, key: T -> Key): seq<T> {
    if xs == [] then [x]
    else if KeyLt(key(x), key(xs[0])) then [x] + xs
    else [xs[0]] + Insert(xs[1..], x, key)
  }

  lemma {:induction false} InsertLists<T>(xs: seq<T>, s: set<T>, x: T, key: T -> Key)
    requires Lists(xs, s, key)
    requires forall y :: y in s ==> key(y) != key(x)
    ensures Lists(Insert(xs, x, key), s + {x}, key)
  {
    var r := Insert(xs, x, key);
    if xs == [] {
    } else {
      assert xs[0] in Elems(xs);
      if KeyLt(key(x), key(xs[0])) {
        assert Elems(r) == Elems(xs) + {x};
      } else {
        TailLists(xs, s, key);
        InsertLists(xs[1..], s - {xs[0]}, x, key);
        var t := Insert(xs[1..], x, key);
        forall j | 0 <= j < |t| ensures KeyLt(key(xs[0]), key(t[j])) {
          assert t[j] in Elems(t);
          if t[j] != x {
            assert t[j] in Elems(xs[1..]);
            var i :| 0 <= i < |xs[1..]| && xs[1..][i] == t[j];
            assert KeyLt(key(xs[0]), key(xs[i + 1]));
          }
        }
        assert Elems(r) == Elems(t) + {xs[0]};
      }
    }
  }

  /** The one sorted listing of `s`. */
  ghost function Sorted<T(!new)>(s: set<T>, key: T -> Key): (xs: seq<T>)
    requires InjectiveOn(key, s)
    ensures Lists(xs, s, key)
  {
    if s == {} then []
    else
      var x :| x in s;
      InsertLists(Sorted(s - {x}, key), s - {x}, x, key);
      assert s - {x} + {x} == s;
      Insert(Sorted(s - {x}, key), x, key)
  }

  /** Sorts the elements of `s`, taken in any order, into the one listing. */
  method SortSet<T(!new)>(s: set<T>, key: T -> Key) returns (xs: seq<T>)
    requires InjectiveOn(key, s)
    ensures xs == Sorted(s, key)
  {
    xs := [];
    var todo := s;
    while todo != {}
      invariant todo <= s
      invariant Lists(xs, s - todo, key)
      decreases |todo|
    {
      var x := Pick(todo);
      InsertLists(xs, s - todo, x, key);
      xs := Insert(xs, x, key);
      assert s - todo + {x} == s - (todo - {x});
      todo := todo - {x};
    }
    assert s - todo == s;
    ListsUnique(xs, Sorted(s, key), s, key);
  }

  function IdKey(id: int): Key { (0, id) }

  /** A set of ids in ascending order. */
  ghost function SortedIds(s: set<int>): (xs: seq<int>)
    ensures Lists(xs, s, IdKey)
  {
    Sorted(s, IdKey)
  }
}
