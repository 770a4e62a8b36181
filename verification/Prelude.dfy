/** Lists, comprehensions and outcomes shared by every module.

    A Python list is a `seq`. A comprehension `[x for x in xs if p(x)]` is
    `Filter(xs, p)`; the predicates passed to it are named functions that return
    a function value, so that one comprehension is one term.
 */
module Prelude {

  /** `None` is also the outcome of a constructor or parser that raises `ValueError`. */
  datatype Option<+T> = None | Some(value: T) {
    predicate IsFailure() {
      None?
    }

    function PropagateFailure<U>(): Option<U>
      requires None?
    {
      None
    }

    function Extract(): T
      requires Some?
    {
      value
    }
  }

  datatype Result<+T, +E> = Ok(value: T) | Err(error: E)

  function Filter<T(!new)>(xs: seq<T>, p: T -> bool): (r: seq<T>)
    ensures forall x :: x in r <==> x in xs && p(x)
    ensures |r| <= |xs|
  {
    if xs == [] then []
    else if p(xs[0]) then [xs[0]] + Filter(xs[1..], p)
    else Filter(xs[1..], p)
  }

  lemma {:induction false} FilterAppend<T(!new)>(xs: seq<T>, ys: seq<T>, p: T -> bool)
    ensures Filter(xs + ys, p) == Filter(xs, p) + Filter(ys, p)
  {
    if xs == [] {
      assert xs + ys == ys;
    } else {
      assert (xs + ys)[0] == xs[0] && (xs + ys)[1..] == xs[1..] + ys;
      FilterAppend(xs[1..], ys, p);
    }
  }

  lemma {:induction false} FilterNone<T(!new)>(xs: seq<T>, p: T -> bool)
    requires forall x :: x in xs ==> !p(x)
    ensures Filter(xs, p) == []
  {
    if xs != [] {
      FilterNone(xs[1..], p);
    }
  }

  lemma {:induction false} FilterAll<T(!new)>(xs: seq<T>, p: T -> bool)
    requires forall x :: x in xs ==> p(x)
    ensures Filter(xs, p) == xs
  {
    if xs != [] {
      FilterAll(xs[1..], p);
    }
  }

  /** Appending an element the comprehension does not select changes nothing. */
  lemma FilterAppendMiss<T(!new)>(xs: seq<T>, ys: seq<T>, p: T -> bool)
    requires forall y :: y in ys ==> !p(y)
    ensures Filter(xs + ys, p) == Filter(xs, p)
  {
    FilterAppend(xs, ys, p);
    FilterNone(ys, p);
  }

  /** Replacing one place changes at most one place of the comprehension. */
  lemma FilterUpdate<T(!new)>(xs: seq<T>, i: nat, x: T, p: T -> bool)
    requires i < |xs|
    ensures Filter(xs[i := x], p) == Filter(xs[..i], p) + (if p(x) then [x] else []) + Filter(xs[i + 1..], p)
  {
    assert xs[i := x] == xs[..i] + ([x] + xs[i + 1..]);
    FilterAppend(xs[..i], [x] + xs[i + 1..], p);
    FilterAppend([x], xs[i + 1..], p);
  }

  lemma {:induction false} FilterSame<T(!new)>(xs: seq<T>, p: T -> bool, q: T -> bool)
    requires forall x :: x in xs ==> p(x) == q(x)
    ensures Filter(xs, p) == Filter(xs, q)
  {
    if xs != [] {
      FilterSame(xs[1..], p, q);
    }
  }

  /** A comprehension over a comprehension is one comprehension over the conjunction. */
  lemma {:induction false} FilterTwice<T(!new)>(xs: seq<T>, p: T -> bool, q: T -> bool, both: T -> bool)
    requires forall x :: x in xs ==> both(x) == (p(x) && q(x))
    ensures Filter(Filter(xs, p), q) == Filter(xs, both)
  {
    if xs != [] {
      FilterTwice(xs[1..], p, q, both);
    }
  }

  lemma {:induction false} FilterCount<T(!new)>(xs: seq<T>, p: T -> bool, x: T)
    ensures multiset(Filter(xs, p))[x] == if p(x) then multiset(xs)[x] else 0
  {
    if xs != [] {
      assert xs == [xs[0]] + xs[1..];
      FilterCount(xs[1..], p, x);
    }
  }

  lemma FilterPermutation<T(!new)>(xs: seq<T>, ys: seq<T>, p: T -> bool)
    requires multiset(xs) == multiset(ys)
    ensures multiset(Filter(xs, p)) == multiset(Filter(ys, p))
  {
    forall x ensures multiset(Filter(xs, p))[x] == multiset(Filter(ys, p))[x] {
      FilterCount(xs, p, x);
      FilterCount(ys, p, x);
    }
  }

  lemma PermutationMembers<T(!new)>(xs: seq<T>, ys: seq<T>)
    requires multiset(xs) == multiset(ys)
    ensures |xs| == |ys|
    ensures forall x :: x in xs <==> x in ys
  {
    assert |multiset(xs)| == |multiset(ys)|;
    forall x ensures x in xs <==> x in ys {
      assert x in xs <==> x in multiset(xs);
      assert x in ys <==> x in multiset(ys);
    }
  }

  /** Two different places of `xs` satisfy `p` exactly when the comprehension has two members. */
  ghost predicate HasPair<T(!new)>(xs: seq<T>, p: T -> bool) {
    exists i, j :: 0 <= i < j < |xs| && p(xs[i]) && p(xs[j])
  }

  lemma {:induction false} FilterPair<T(!new)>(xs: seq<T>, p: T -> bool)
    ensures HasPair(xs, p) <==> |Filter(xs, p)| >= 2
  {
    if xs != [] {
      FilterPair(xs[1..], p);
      var rest := xs[1..];
      if HasPair(rest, p) {
        var i, j :| 0 <= i < j < |rest| && p(rest[i]) && p(rest[j]);
        assert xs[i + 1] == rest[i] && xs[j + 1] == rest[j];
        assert p(xs[i + 1]) && p(xs[j + 1]);
      }
      if p(xs[0]) && Filter(rest, p) != [] {
        assert Filter(rest, p)[0] in Filter(rest, p);
        var j :| 0 <= j < |rest| && rest[j] == Filter(rest, p)[0];
        assert p(xs[0]) && p(xs[j + 1]);
      }
      if HasPair(xs, p) {
        var i, j :| 0 <= i < j < |xs| && p(xs[i]) && p(xs[j]);
        assert rest[j - 1] == xs[j];
        assert rest[j - 1] in Filter(rest, p);
        if i > 0 {
          assert rest[i - 1] == xs[i];
        }
      }
    }
  }

  /** `[f(x) for x in xs]`. */
  function MapAll<T, U>(xs: seq<T>, f: T -> U): (r: seq<U>)
    ensures |r| == |xs| && forall i :: 0 <= i < |xs| ==> r[i] == f(xs[i])
  {
    if xs == [] then [] else [f(xs[0])] + MapAll(xs[1..], f)
  }

  /** The same with a constructor that may raise: one failure fails the list. */
  ghost function TryAll<T, U>(xs: seq<T>, make: T -> Option<U>): (r: Option<seq<U>>)
    ensures r.Some? ==> |r.value| == |xs| && forall i :: 0 <= i < |xs| ==> make(xs[i]) == Some(r.value[i])
  {
    if xs == [] then Some([])
    else
      var first :- make(xs[0]);
      var rest :- TryAll(xs[1..], make);
      Some([first] + rest)
  }

  lemma {:induction false} TryAllIs<T, U>(xs: seq<T>, make: T -> Option<U>, ys: seq<U>)
    requires |ys| == |xs| && forall i :: 0 <= i < |xs| ==> make(xs[i]) == Some(ys[i])
    ensures TryAll(xs, make) == Some(ys)
  {
    if xs != [] {
      TryAllIs(xs[1..], make, ys[1..]);
      assert ys == [ys[0]] + ys[1..];
    }
  }

  /** The loop that appends one constructed item at a time. */
  method BuildAll<T, U>(xs: seq<T>, make: T -> Option<U>) returns (r: Option<seq<U>>)
    ensures r == TryAll(xs, make)
  {
    var built: seq<U> := [];
    for i := 0 to |xs|
      invariant |built| == i
      invariant forall k :: 0 <= k < i ==> make(xs[k]) == Some(built[k])
    {
      var item := make(xs[i]);
      if item.None? {
        return None;
      }
      built := built + [item.value];
    }
    TryAllIs(xs, make, built);
    r := Some(built);
  }

  /** A constructor that undoes `f` on each item undoes it on the list. */
  lemma TryAllUndoes<T, U>(xs: seq<T>, f: T -> U, make: U -> Option<T>)
    requires forall x :: x in xs ==> make(f(x)) == Some(x)
    ensures TryAll(MapAll(xs, f), make) == Some(xs)
  {
    TryAllIs(MapAll(xs, f), make, xs);
  }

  function Yields<T, U(==)>(f: T -> U, y: U): T -> bool {
    (x: T) => f(x) == y
  }

  lemma {:induction false} MapAllCount<T(!new), U>(xs: seq<T>, f: T -> U, y: U)
    ensures multiset(MapAll(xs, f))[y] == |Filter(xs, Yields(f, y))|
  {
    if xs != [] {
      MapAllCount(xs[1..], f, y);
      assert MapAll(xs, f) == [f(xs[0])] + MapAll(xs[1..], f);
    }
  }

  lemma MapAllPermutation<T(!new), U(!new)>(xs: seq<T>, ys: seq<T>, f: T -> U)
    requires multiset(xs) == multiset(ys)
    ensures multiset(MapAll(xs, f)) == multiset(MapAll(ys, f))
  {
    forall y ensures multiset(MapAll(xs, f))[y] == multiset(MapAll(ys, f))[y] {
      MapAllCount(xs, f, y);
      MapAllCount(ys, f, y);
      FilterPermutation(xs, ys, Yields(f, y));
      PermutationMembers(Filter(xs, Yields(f, y)), Filter(ys, Yields(f, y)));
    }
  }

  /** Exactly one place of `xs` satisfies `p`, and it is place `i`. */
  ghost predicate OnlyAt<T(!new)>(xs: seq<T>, p: T -> bool, i: nat) {
    i < |xs| && p(xs[i]) && forall j :: 0 <= j < |xs| && p(xs[j]) ==> j == i
  }

  lemma FilterOnly<T(!new)>(xs: seq<T>, p: T -> bool, i: nat)
    requires OnlyAt(xs, p, i)
    ensures Filter(xs, p) == [xs[i]]
  {
    assert xs == xs[..i] + ([xs[i]] + xs[i + 1..]);
    FilterAppend(xs[..i], [xs[i]] + xs[i + 1..], p);
    FilterAppend([xs[i]], xs[i + 1..], p);
    forall x | x in xs[..i] ensures !p(x) {
      var j :| 0 <= j < i && xs[j] == x;
    }
    forall x | x in xs[i + 1..] ensures !p(x) {
      var j :| i < j < |xs| && xs[j] == x;
    }
    FilterNone(xs[..i], p);
    FilterNone(xs[i + 1..], p);
  }

  lemma OnlyOne<T(!new)>(xs: seq<T>, p: T -> bool) returns (i: nat)
    requires |Filter(xs, p)| == 1
    ensures OnlyAt(xs, p, i)
  {
    assert Filter(xs, p)[0] in Filter(xs, p);
    i :| 0 <= i < |xs| && xs[i] == Filter(xs, p)[0];
    FilterPair(xs, p);
    assert !HasPair(xs, p);
  }

  /** A comprehension has one member exactly when one place satisfies it. */
  lemma OneMember<T(!new)>(xs: seq<T>, p: T -> bool)
    ensures |Filter(xs, p)| == 1 <==> exists i: nat :: OnlyAt(xs, p, i)
  {
    if |Filter(xs, p)| == 1 {
      var i := OnlyOne(xs, p);
    }
    if i: nat :| OnlyAt(xs, p, i) {
      FilterOnly(xs, p, i);
    }
  }

  /** `sorted(set)`: ascending, each member once. */
  ghost predicate Ascending(xs: seq<int>) {
    forall i, j :: 0 <= i < j < |xs| ==> xs[i] < xs[j]
  }

  method SortedMembers(members: set<int>) returns (xs: seq<int>)
    ensures Ascending(xs)
    ensures forall x :: x in xs <==> x in members
    ensures |xs| == |members|
  {
    xs := [];
    var rest := members;
    while rest != {}
      invariant rest <= members
      invariant Ascending(xs)
      invariant forall x :: x in members <==> x in xs || x in rest
      invariant forall x, y :: x in xs && y in rest ==> x < y
      invariant |xs| + |rest| == |members|
      decreases rest
    {
      var least := Least(rest);
      forall i | 0 <= i < |xs| ensures xs[i] < least {
        assert xs[i] in xs;
      }
      xs := xs + [least];
      rest := rest - {least};
    }
  }

  method Least(members: set<int>) returns (least: int)
    requires members != {}
    ensures least in members
    ensures forall x :: x in members ==> least <= x
  {
    least := Pick(members);
    var rest := members - {least};
    while rest != {}
      invariant rest <= members
      invariant least in members
      invariant forall x :: x in members ==> x in rest || least <= x
      decreases rest
    {
      var x := Pick(rest);
      if x < least {
        least := x;
      }
      rest := rest - {x};
    }
  }

  /** Some member; iteration over a Python set fixes no order. */
  method Pick<T(==)>(members: set<T>) returns (x: T)
    requires members != {}
    ensures x in members
  {
    x :| x in members;
  }

  lemma Witness<T>(members: set<T>) returns (x: T)
    requires members != {}
    ensures x in members
  {
    x :| x in members;
  }

  lemma {:induction false} SubsetSize<T>(a: set<T>, b: set<T>)
    requires a <= b
    ensures |a| <= |b|
    decreases a
  {
    if a != {} {
      var x := Witness(a);
      SubsetSize(a - {x}, b - {x});
    }
  }

  ghost function Image<T, U>(s: set<T>, f: T -> U): set<U> {
    set x | x in s :: f(x)
  }

  lemma {:induction false} ImageSize<T, U>(s: set<T>, f: T -> U)
    ensures |Image(s, f)| <= |s|
    ensures (forall x, y :: x in s && y in s && f(x) == f(y) ==> x == y) ==> |Image(s, f)| == |s|
    decreases s
  {
    if s != {} {
      var x := Witness(s);
      ImageSize(s - {x}, f);
      assert Image(s, f) == Image(s - {x}, f) + {f(x)};
    }
  }

  /** A list without repetition has as many places as members. */
  lemma {:induction false} DistinctSize<T(!new)>(xs: seq<T>)
    requires forall i, j :: 0 <= i < j < |xs| ==> xs[i] != xs[j]
    ensures |set x | x in xs| == |xs|
  {
    if xs != [] {
      var rest := xs[1..];
      DistinctSize(rest);
      assert (set x | x in xs) == (set x | x in rest) + {xs[0]};
      assert xs[0] !in rest;
    }
  }
}
