/** `sorted(items, key=...)` on identifiers, and lists told apart by a key. */
module Sorting {
  import opened Prelude
  import opened Facts

  /** A sort key: one identifier, or a pair of them compared in order. */
  datatype Key = Key(first: Uuid, second: Uuid)

  predicate Before(a: Key, b: Key) {
    a.first < b.first || (a.first == b.first && a.second < b.second)
  }

  function Insert<T>(x: T, xs: seq<T>, key: T -> Key): seq<T> {
    if xs == [] || !Before(key(xs[0]), key(x)) then [x] + xs
    else [xs[0]] + Insert(x, xs[1..], key)
  }

  /** The stable sort. */
  function Sort<T>(xs: seq<T>, key: T -> Key): seq<T> {
    if xs == [] then [] else Insert(xs[0], Sort(xs[1..], key), key)
  }

  ghost predicate Ordered<T>(xs: seq<T>, key: T -> Key) {
    forall i, j :: 0 <= i < j < |xs| ==> !Before(key(xs[j]), key(xs[i]))
  }

  /** No two places carry the same key. */
  ghost predicate Distinct<T>(xs: seq<T>, key: T -> Key) {
    forall i, j :: 0 <= i < j < |xs| ==> key(xs[i]) != key(xs[j])
  }

  lemma {:induction false} InsertKeeps<T>(x: T, xs: seq<T>, key: T -> Key)
    ensures multiset(Insert(x, xs, key)) == multiset(xs) + multiset{x}
  {
    if xs != [] && Before(key(xs[0]), key(x)) {
      InsertKeeps(x, xs[1..], key);
      assert xs == [xs[0]] + xs[1..];
    }
  }

  lemma {:induction false} InsertOrders<T>(x: T, xs: seq<T>, key: T -> Key)
    requires Ordered(xs, key)
    ensures Ordered(Insert(x, xs, key), key)
    ensures forall y :: y in Insert(x, xs, key) ==> y == x || y in xs
  {
    if xs != [] && Before(key(xs[0]), key(x)) {
      var rest := Insert(x, xs[1..], key);
      InsertOrders(x, xs[1..], key);
      forall j | 0 <= j < |rest| ensures !Before(key(rest[j]), key(xs[0])) {
        assert rest[j] in rest;
      }
    }
  }

  /** Sorting permutes and orders. */
  lemma {:induction false} SortSorts<T>(xs: seq<T>, key: T -> Key)
    ensures multiset(Sort(xs, key)) == multiset(xs)
    ensures Ordered(Sort(xs, key), key)
  {
    if xs != [] {
      SortSorts(xs[1..], key);
      InsertKeeps(xs[0], Sort(xs[1..], key), key);
      InsertOrders(xs[0], Sort(xs[1..], key), key);
      assert xs == [xs[0]] + xs[1..];
    }
  }

  /** A list already in order is its own sort. */
  lemma {:induction false} SortOfOrdered<T>(xs: seq<T>, key: T -> Key)
    requires Ordered(xs, key)
    ensures Sort(xs, key) == xs
  {
    if xs != [] {
      SortOfOrdered(xs[1..], key);
      assert |xs| > 1 ==> xs[1..][0] == xs[1];
    }
  }

  function WithKey<T>(key: T -> Key, k: Key): T -> bool {
    (x: T) => key(x) == k
  }

  lemma DistinctPermuted<T(!new)>(xs: seq<T>, ys: seq<T>, key: T -> Key)
    requires multiset(xs) == multiset(ys)
    requires Distinct(xs, key)
    ensures Distinct(ys, key)
  {
    forall i, j | 0 <= i < j < |ys| ensures key(ys[i]) != key(ys[j]) {
      var p := WithKey(key, key(ys[i]));
      FilterPair(xs, p);
      FilterPair(ys, p);
      FilterPermutation(xs, ys, p);
      PermutationMembers(Filter(xs, p), Filter(ys, p));
      assert p(ys[i]);
    }
  }

  /** The first place of an ordered list of distinct keys is the one no member comes before. */
  lemma FirstIsLeast<T>(xs: seq<T>, x: T, key: T -> Key)
    requires Ordered(xs, key) && Distinct(xs, key)
    requires x in xs && forall y :: y in xs ==> !Before(key(y), key(x))
    ensures xs[0] == x
  {
    var i :| 0 <= i < |xs| && xs[i] == x;
    assert xs[0] in xs;
  }

  lemma DropFirst<T(!new)>(xs: seq<T>, ys: seq<T>)
    requires xs != [] && ys != [] && xs[0] == ys[0]
    requires multiset(xs) == multiset(ys)
    ensures multiset(xs[1..]) == multiset(ys[1..])
  {
    assert xs == [xs[0]] + xs[1..] && ys == [ys[0]] + ys[1..];
    assert multiset(xs[1..]) == multiset(xs) - multiset{xs[0]};
    assert multiset(ys[1..]) == multiset(ys) - multiset{ys[0]};
  }

  /** Two orders of the same list, ascending by distinct keys, are the same order. */
  lemma {:induction false} OrderedIsUnique<T(!new)>(xs: seq<T>, ys: seq<T>, key: T -> Key)
    requires multiset(xs) == multiset(ys)
    requires Ordered(xs, key) && Ordered(ys, key)
    requires Distinct(xs, key) && Distinct(ys, key)
    ensures xs == ys
  {
    PermutationMembers(xs, ys);
    if xs != [] {
      forall y | y in ys ensures !Before(key(y), key(xs[0])) {
        var i :| 0 <= i < |xs| && xs[i] == y;
      }
      FirstIsLeast(ys, xs[0], key);
      DropFirst(xs, ys);
      OrderedIsUnique(xs[1..], ys[1..], key);
      assert xs == [xs[0]] + xs[1..] && ys == [ys[0]] + ys[1..];
    }
  }

  /** With distinct keys the sorted list does not depend on the order it came in. */
  lemma SortForgetsOrder<T(!new)>(xs: seq<T>, ys: seq<T>, key: T -> Key)
    requires multiset(xs) == multiset(ys)
    requires Distinct(xs, key)
    ensures Sort(xs, key) == Sort(ys, key)
  {
    SortSorts(xs, key);
    SortSorts(ys, key);
    DistinctPermuted(xs, Sort(xs, key), key);
    DistinctPermuted(xs, Sort(ys, key), key);
    OrderedIsUnique(Sort(xs, key), Sort(ys, key), key);
  }

  function Keys<T(==)>(xs: seq<T>, key: T -> Key): set<Key> {
    set x | x in xs :: key(x)
  }

  /** A list has distinct keys when its rest does and its first key is new. */
  lemma DistinctFirst<T(!new)>(xs: seq<T>, key: T -> Key)
    requires xs != []
    ensures Distinct(xs, key) <==> Distinct(xs[1..], key) && key(xs[0]) !in Keys(xs[1..], key)
  {
    var rest := xs[1..];
    if Distinct(xs, key) {
      forall x | x in rest ensures key(x) != key(xs[0]) {
        var j :| 0 <= j < |rest| && rest[j] == x;
        assert xs[j + 1] == x;
      }
    }
    if Distinct(rest, key) && key(xs[0]) !in Keys(rest, key) {
      forall i, j | 0 <= i < j < |xs| ensures key(xs[i]) != key(xs[j]) {
        assert xs[j] == rest[j - 1] && xs[j] in rest;
        assert i > 0 ==> xs[i] == rest[i - 1];
      }
    }
  }

  /** Keys are distinct exactly when the set of keys is as large as the list. */
  lemma {:induction false} DistinctIsSize<T(!new)>(xs: seq<T>, key: T -> Key)
    ensures |Keys(xs, key)| <= |xs|
    ensures Distinct(xs, key) <==> |Keys(xs, key)| == |xs|
  {
    if xs != [] {
      var others := Keys(xs[1..], key);
      DistinctIsSize(xs[1..], key);
      DistinctFirst(xs, key);
      assert xs == [xs[0]] + xs[1..];
      assert Keys(xs, key) == others + {key(xs[0])};
    }
  }
}
