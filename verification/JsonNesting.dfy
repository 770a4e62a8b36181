/** The nesting check on a parsed JSON body: an explicit stack in place of recursion. */
module JsonNesting {
  import opened Prelude

  /** A parsed JSON value; member names play no part in nesting. */
  datatype Payload =
    | Scalar
    | Array(items: seq<Payload>)
    | Object(values: seq<Payload>)
  {
    predicate IsContainer() {
      !Scalar?
    }

    function Children(): seq<Payload>
      requires IsContainer()
    {
      if Array? then items else values
    }
  }

  const MAX_DEPTH: nat := 128

  function Max(a: nat, b: nat): nat {
    if a < b then b else a
  }

  /** How many containers enclose one another on the deepest path, this value included. */
  function Height(p: Payload): nat
    decreases p, 1
  {
    match p
    case Scalar => 0
    case Array(items) => 1 + Tallest(items)
    case Object(values) => 1 + Tallest(values)
  }

  function Tallest(ps: seq<Payload>): nat
    decreases ps, 0
  {
    if ps == [] then 0 else Max(Height(ps[0]), Tallest(ps[1..]))
  }

  /** The number of values in a tree. */
  function Size(p: Payload): (n: nat)
    ensures n >= 1
    decreases p, 1
  {
    match p
    case Scalar => 1
    case Array(items) => 1 + Sizes(items)
    case Object(values) => 1 + Sizes(values)
  }

  function Sizes(ps: seq<Payload>): nat
    decreases ps, 0
  {
    if ps == [] then 0 else Size(ps[0]) + Sizes(ps[1..])
  }

  datatype Visit = Visit(value: Payload, depth: nat)

  function Pending(stack: seq<Visit>): nat {
    if stack == [] then 0 else Size(stack[0].value) + Pending(stack[1..])
  }

  /** Everything still to be visited keeps its containers within the limit. */
  ghost predicate Shallow(stack: seq<Visit>) {
    forall v :: v in stack ==> v.value.IsContainer() ==> v.depth + Height(v.value) <= MAX_DEPTH + 1
  }

  lemma {:induction false} PendingPush(stack: seq<Visit>, v: Visit)
    ensures Pending(stack + [v]) == Pending(stack) + Size(v.value)
  {
    if stack == [] {
      assert [] + [v] == [v];
    } else {
      assert (stack + [v])[1..] == stack[1..] + [v];
      PendingPush(stack[1..], v);
    }
  }

  lemma {:induction false} SizesSplit(ps: seq<Payload>, i: nat)
    requires i < |ps|
    ensures Sizes(ps[i..]) == Size(ps[i]) + Sizes(ps[i + 1..])
  {
    assert ps[i..][1..] == ps[i + 1..];
  }

  /** A bound holds of the tallest exactly when it holds of each. */
  lemma {:induction false} TallestIs(ps: seq<Payload>, bound: nat)
    ensures Tallest(ps) <= bound <==> forall p :: p in ps ==> Height(p) <= bound
  {
    if ps != [] {
      TallestIs(ps[1..], bound);
      assert ps == [ps[0]] + ps[1..];
      assert ps[0] in ps;
    }
  }

  /** The children of a visited container, one level deeper, are shallow exactly when the container is. */
  lemma ChildrenShallow(p: Payload, depth: nat)
    requires p.IsContainer() && depth <= MAX_DEPTH
    ensures (depth + Height(p) <= MAX_DEPTH + 1 <==>
             forall c :: c in p.Children() ==> c.IsContainer() ==> depth + 1 + Height(c) <= MAX_DEPTH + 1)
  {
    TallestIs(p.Children(), MAX_DEPTH - depth);
    assert Height(p) == 1 + Tallest(p.Children());
  }

  /** The check terminates on every tree, and accepts exactly when no container lies more than 128 levels below the
      root. */
  method RequireBoundedNesting(payload: Payload) returns (ok: bool)
    ensures ok <==> Height(payload) <= MAX_DEPTH + 1
  {
    var stack := [Visit(payload, 0)];
    while stack != []
      invariant Height(payload) <= MAX_DEPTH + 1 <==> Shallow(stack)
      decreases Pending(stack)
    {
      var top := stack[|stack| - 1];
      ghost var before := stack;
      stack := stack[..|stack| - 1];
      assert before == stack + [top];
      PendingPush(stack, top);
      assert Shallow(before) <==> Shallow(stack) && Shallow([top]);
      if top.value.IsContainer() {
        if top.depth > MAX_DEPTH {
          assert !Shallow([top]);
          return false;
        }
        ChildrenShallow(top.value, top.depth);
        ghost var rest := stack;
        stack := PushAll(stack, top.value.Children(), top.depth + 1);
        assert Shallow(stack) <==> Shallow(rest) && Shallow([top]);
      }
    }
    ok := true;
  }

  /** Push the children in order. */
  method PushAll(stack: seq<Visit>, children: seq<Payload>, depth: nat) returns (r: seq<Visit>)
    ensures Pending(r) == Pending(stack) + Sizes(children)
    ensures (Shallow(r) <==>
             Shallow(stack) && forall c :: c in children ==> c.IsContainer() ==> depth + Height(c) <= MAX_DEPTH + 1)
  {
    r := stack;
    for i := 0 to |children|
      invariant Pending(r) + Sizes(children[i..]) == Pending(stack) + Sizes(children)
      invariant (Shallow(r) <==>
                 Shallow(stack) &&
                 forall k :: 0 <= k < i ==> children[k].IsContainer() ==> depth + Height(children[k]) <= MAX_DEPTH + 1)
    {
      PendingPush(r, Visit(children[i], depth));
      SizesSplit(children, i);
      r := r + [Visit(children[i], depth)];
    }
  }

  /** The items one by one are reorderings of each other. */
  ghost predicate Pairwise(ps: seq<Payload>, qs: seq<Payload>)
    decreases ps, 0
  {
    |ps| == |qs| && forall i :: 0 <= i < |ps| ==> Reordered(ps[i], qs[i])
  }

  /** The same tree with the items and members of any of its containers, at any level, in another order. */
  ghost predicate Reordered(p: Payload, q: Payload)
    decreases p, 1
  {
    match p
    case Scalar => q.Scalar?
    case Array(items) => q.Array? && exists order :: multiset(order) == multiset(q.items) && Pairwise(items, order)
    case Object(values) => q.Object? && exists order :: multiset(order) == multiset(q.values) && Pairwise(values, order)
  }

  lemma TallestForgetsOrder(ps: seq<Payload>, qs: seq<Payload>)
    requires multiset(ps) == multiset(qs)
    ensures Tallest(ps) == Tallest(qs)
  {
    PermutationMembers(ps, qs);
    TallestIs(ps, Tallest(qs));
    TallestIs(qs, Tallest(qs));
    TallestIs(qs, Tallest(ps));
    TallestIs(ps, Tallest(ps));
  }

  lemma {:induction false} TallestPairwise(ps: seq<Payload>, qs: seq<Payload>)
    requires Pairwise(ps, qs)
    ensures Tallest(ps) == Tallest(qs)
    decreases ps, 0
  {
    if ps != [] {
      HeightForgetsOrder(ps[0], qs[0]);
      TallestPairwise(ps[1..], qs[1..]);
    }
  }

  /** Depth does not depend on the order of items or members, at any level. */
  lemma {:induction false} HeightForgetsOrder(p: Payload, q: Payload)
    requires Reordered(p, q)
    ensures Height(p) == Height(q)
    decreases p, 1
  {
    match p
    case Scalar =>
    case Array(items) =>
      var order :| multiset(order) == multiset(q.items) && Pairwise(items, order);
      TallestPairwise(items, order);
      TallestForgetsOrder(order, q.items);
    case Object(values) =>
      var order :| multiset(order) == multiset(q.values) && Pairwise(values, order);
      TallestPairwise(values, order);
      TallestForgetsOrder(order, q.values);
  }

  /** `n` containers, each an item or member of the one before, starting here. */
  ghost predicate HasChain(p: Payload, n: nat)
    decreases n
  {
    n == 0
    || match p
       case Scalar => false
       case Array(items) => n == 1 || exists c :: c in items && HasChain(c, n - 1)
       case Object(values) => n == 1 || exists c :: c in values && HasChain(c, n - 1)
  }

  /** The height is the length of the longest chain of nested containers. */
  lemma {:induction false} HeightIsLongestChain(p: Payload, n: nat)
    ensures HasChain(p, n) <==> Height(p) >= n
    decreases n
  {
    if n > 1 && p.IsContainer() {
      var children := p.Children();
      forall c | c in children ensures HasChain(c, n - 1) <==> Height(c) >= n - 1 {
        HeightIsLongestChain(c, n - 1);
      }
      TallestIs(children, n - 2);
      assert Height(p) == 1 + Tallest(children);
    }
  }

  /** The check refuses exactly the bodies in which 130 containers are nested one in the other. */
  lemma RefusedInFull(payload: Payload, n: nat)
    requires n == 130
    ensures Height(payload) > MAX_DEPTH + 1 <==> HasChain(payload, n)
  {
    HeightIsLongestChain(payload, n);
  }
}
