/**
 What a pop makes of the heap: each chain of left children o, 2o, 4o, ... is put in order by itself.
 */
module LeftChains {
  import opened Bits
  import opened Heaps

  // ----- Chains of left children -----

  /** The requests at the nodes j, 2j, 4j, ... */
  function Chain(h: seq<Request>, j: nat): (s: seq<Request>)
    requires j >= 1
    decreases |h| - j
  {
    if j > |h| then [] else [h[j - 1]] + Chain(h, 2 * j)
  }

  /** The node at the top of the chain of j: it is no left child. */
  function Root(j: nat): (o: nat)
    requires j >= 1
    ensures 1 <= o <= j && o % 2 == 1
  {
    if j % 2 == 0 then Root(j / 2) else j
  }

  lemma RootOfDouble(j: nat)
    requires j >= 1
    ensures Root(2 * j) == Root(j)
  {
  }

  /** How far j is below the top of its chain. */
  function Depth(j: nat): nat
    requires j >= 1
  {
    if j % 2 == 0 then Depth(j / 2) + 1 else 0
  }

  /** last is one of j, 2j, 4j, ... */
  predicate Reaches(j: nat, last: nat)
    requires j >= 1
    decreases last - j
  {
    j == last || (j < last && Reaches(2 * j, last))
  }

  predicate Ascending(s: seq<Request>) {
    forall i, j :: 0 <= i < j < |s| ==> s[i].priority <= s[j].priority
  }

  /** Each node of the chain from j on is not less than the one before. */
  predicate ChainSorted(h: seq<Request>, j: nat)
    requires j >= 1
    decreases |h| - j
  {
    2 * j <= |h| ==> Node(h, j) <= Node(h, 2 * j) && ChainSorted(h, 2 * j)
  }

  predicate SameFrom(h: seq<Request>, r: seq<Request>, j: nat)
    requires j >= 1
  {
    |r| == |h| && forall k {:trigger r[k]} :: 0 <= k < |h| && k + 1 >= j && Root(k + 1) == Root(j) ==> r[k] == h[k]
  }

  predicate SameOutside(h: seq<Request>, r: seq<Request>, o: nat) {
    |r| == |h| && forall k {:trigger r[k]} :: 0 <= k < |h| && Root(k + 1) != o ==> r[k] == h[k]
  }

  ghost predicate SameChain(h: seq<Request>, r: seq<Request>, o: nat)
    requires o >= 1
  {
    multiset(Chain(h, o)) == multiset(Chain(r, o))
  }

  /** Every whole chain holds the same requests in h and in r. */
  ghost predicate SameChains(h: seq<Request>, r: seq<Request>) {
    |r| == |h| && forall o {:trigger SameChain(h, r, o)} :: o % 2 == 1 && o >= 1 ==> SameChain(h, r, o)
  }

  /** The nodes not greater than t whose number has at most s ones: the chains of such numbers are whole. */
  ghost function Group(h: seq<Request>, t: int, s: nat): set<nat> {
    set x: nat | 1 <= x <= |h| && Node(h, x) <= t && Ones(x) <= s
  }

  ghost predicate SameCount(h: seq<Request>, r: seq<Request>, t: int, s: nat) {
    |Group(h, t, s)| == |Group(r, t, s)|
  }

  /** r is h with the requests of each chain rearranged. */
  ghost predicate Rearranged(h: seq<Request>, r: seq<Request>) {
    SameChains(h, r) && forall t: int, s: nat :: SameCount(h, r, t, s)
  }

  lemma RearrangedThen(h: seq<Request>, g: seq<Request>, r: seq<Request>)
    requires Rearranged(h, g) && Rearranged(g, r)
    ensures Rearranged(h, r)
  {
    forall o | o % 2 == 1 && o >= 1 ensures SameChain(h, r, o) {
      assert SameChain(h, g, o) && SameChain(g, r, o);
    }
    forall t: int, s: nat ensures SameCount(h, r, t, s) {
      assert SameCount(h, g, t, s) && SameCount(g, r, t, s);
    }
  }

  /** Every whole chain is in order. */
  ghost predicate ChainsAscend(h: seq<Request>) {
    forall o {:trigger Chain(h, o)} :: o % 2 == 1 && o >= 1 ==> Ascending(Chain(h, o))
  }

  lemma {:induction false} ChainSame(h: seq<Request>, r: seq<Request>, j: nat)
    requires j >= 1 && SameFrom(h, r, j)
    ensures Chain(r, j) == Chain(h, j) && (ChainSorted(h, j) ==> ChainSorted(r, j))
    decreases |h| - j
  {
    if j <= |h| {
      assert r[j - 1] == h[j - 1];
      RootOfDouble(j);
      ChainSame(h, r, 2 * j);
      if 2 * j <= |h| {
        assert r[2 * j - 1] == h[2 * j - 1];
      }
    }
  }

  lemma {:induction false} SortedAscends(h: seq<Request>, j: nat)
    requires j >= 1 && ChainSorted(h, j)
    ensures Ascending(Chain(h, j))
    decreases |h| - j
  {
    if 2 * j <= |h| {
      SortedAscends(h, 2 * j);
      var s := Chain(h, 2 * j);
      assert Chain(h, j) == [h[j - 1]] + s && s[0] == h[2 * j - 1];
    }
  }

  lemma SwapSpares(h: seq<Request>, p: nat, j: nat)
    requires 1 <= p && 2 * p <= |h| && j > 2 * p
    ensures SameFrom(h, Swapped(h, p, 2 * p), j)
    ensures SameOutside(h, Swapped(h, p, 2 * p), Root(p))
    ensures forall k :: 0 <= k < p - 1 ==> Swapped(h, p, 2 * p)[k] == h[k]
  {
    RootOfDouble(p);
  }

  lemma ChainFirst(h: seq<Request>, j: nat, k: nat)
    requires 1 <= j <= |h| && k == 2 * j
    ensures multiset(Chain(h, j)) == multiset{h[j - 1]} + multiset(Chain(h, k))
  {
  }

  lemma SwapBelow(h: seq<Request>, p: nat)
    requires 1 <= p && 2 * p <= |h|
    ensures var r := Swapped(h, p, 2 * p);
            Chain(r, 4 * p) == Chain(h, 4 * p) && (ChainSorted(h, 4 * p) ==> ChainSorted(r, 4 * p))
  {
    SwapSpares(h, p, 4 * p);
    ChainSame(h, Swapped(h, p, 2 * p), 4 * p);
  }

  lemma SwapInChain(h: seq<Request>, r: seq<Request>, p: nat, q: nat, s: nat)
    requires 1 <= p && q == 2 * p && s == 2 * q && q <= |h| == |r|
    requires r[p - 1] == h[q - 1] && r[q - 1] == h[p - 1] && Chain(r, s) == Chain(h, s)
    ensures SameChain(h, r, p)
  {
    ChainFirst(h, p, q);
    ChainFirst(h, q, s);
    ChainFirst(r, p, q);
    ChainFirst(r, q, s);
    Transposed(h[p - 1], h[q - 1], multiset(Chain(h, p)), multiset(Chain(h, q)),
               multiset(Chain(r, p)), multiset(Chain(r, q)), multiset(Chain(h, s)));
  }

  lemma Transposed(x: Request, y: Request, a: multiset<Request>, a1: multiset<Request>,
                   b: multiset<Request>, b1: multiset<Request>, m: multiset<Request>)
    requires a == multiset{x} + a1 && a1 == multiset{y} + m
    requires b == multiset{y} + b1 && b1 == multiset{x} + m
    ensures a == b
  {
  }

  /** Exchanging a node with its left child permutes the chain of both. */
  lemma {:induction false} SwapKeepsChain(h: seq<Request>, r: seq<Request>, p: nat, j: nat)
    requires 1 <= p && 2 * p <= |h| && r == Swapped(h, p, 2 * p) && j >= 1 && j != 2 * p
    ensures SameChain(h, r, j)
    decreases |h| - j
  {
    if j == p {
      SwapBelow(h, p);
      SwapInChain(h, r, p, 2 * p, 4 * p);
    } else if j <= |h| {
      SwapKeepsChain(h, r, p, 2 * j);
      assert r[j - 1] == h[j - 1];
      ChainFirst(h, j, 2 * j);
      ChainFirst(r, j, 2 * j);
    }
  }

  lemma ReplacedSize(a: set<nat>, b: set<nat>, p: nat, q: nat)
    requires p in a && q !in a && p !in b && q in b
    requires forall x :: x != p && x != q ==> (x in a <==> x in b)
    ensures |a| == |b|
  {
    var c := a - {p};
    assert b - {q} == c;
    assert |c| == |a| - 1;
    assert |b - {q}| == |b| - 1;
  }

  lemma ExchangedSize(a: set<nat>, b: set<nat>, p: nat, q: nat)
    requires forall x :: x != p && x != q ==> (x in a <==> x in b)
    requires (p in b <==> q in a) && (q in b <==> p in a)
    ensures |a| == |b|
  {
    if p in a && q !in a {
      ReplacedSize(a, b, p, q);
    } else if p !in a && q in a {
      ReplacedSize(a, b, q, p);
    } else {
      assert forall x :: x in a <==> x in b;
      assert b == a;
    }
  }

  lemma SwapKeepsCount(h: seq<Request>, r: seq<Request>, p: nat, q: nat, t: int, s: nat)
    requires 1 <= p && q == 2 * p <= |h| && r == Swapped(h, p, q)
    ensures SameCount(h, r, t, s)
  {
    forall x: nat | 1 <= x <= |h| ensures Node(r, x) == if x == p then Node(h, q) else if x == q then Node(h, p) else Node(h, x) {
      SwappedNode(h, p, q, x);
    }
    assert Ones(q) == Ones(p);
    ExchangedSize(Group(h, t, s), Group(r, t, s), p, q);
  }

  lemma SwapRearranges(h: seq<Request>, p: nat)
    requires 1 <= p && 2 * p <= |h|
    ensures Rearranged(h, Swapped(h, p, 2 * p))
  {
    var r := Swapped(h, p, 2 * p);
    forall o | o % 2 == 1 && o >= 1 ensures SameChain(h, r, o) {
      SwapKeepsChain(h, r, p, o);
    }
    forall t: int, s: nat ensures SameCount(h, r, t, s) {
      SwapKeepsCount(h, r, p, 2 * p, t, s);
    }
  }

  // ----- Sorting the chains -----

  /** Node p is moved down the chain, as far as last. */
  function Bubble(h: seq<Request>, p: nat, last: nat): (r: seq<Request>)
    requires 1 <= p && 2 * p <= last <= |h|
    ensures |r| == |h| && multiset(r) == multiset(h)
    decreases last - p
  {
    if Node(h, p) < Node(h, 2 * p) then h
    else
      SwappedIsPermuted(h, p, 2 * p);
      var h' := Swapped(h, p, 2 * p);
      if 4 * p <= last then Bubble(h', 2 * p, last) else h'
  }

  /** The ancestors of the left child i are moved down, up to the first that is a right child. */
  function Climb(h: seq<Request>, j: nat, i: nat): (r: seq<Request>)
    requires j % 2 == 0 && 2 <= j <= i <= |h|
    ensures |r| == |h| && multiset(r) == multiset(h)
    decreases j
  {
    var h' := Bubble(h, Parent(j), i);
    if Parent(j) % 2 == 0 then Climb(h', Parent(j), i) else h'
  }

  /** From every left child from i on. */
  function Sweep(h: seq<Request>, i: nat): (r: seq<Request>)
    requires i % 2 == 0 && i >= 2
    ensures |r| == |h| && multiset(r) == multiset(h)
    decreases if i <= |h| then |h| - i + 1 else 0
  {
    if i > |h| then h else Sweep(Climb(h, i, i), i + 2)
  }

  /** The first left child in the second half. */
  function FirstLeaf(n: nat): (i: nat)
    ensures i % 2 == 0 && i >= 2 && i * 2 > n
    ensures i <= n / 2 + 2 && (i == n / 2 + 2 ==> (n / 2) % 2 == 0)
  {
    OrOne(Parent(n));
    Or(Parent(n), 1) + 1
  }

  lemma OrOne(x: nat)
    ensures Or(x, 1) == if x % 2 == 1 then x else x + 1
  {
    OrWithZero(x / 2);
  }

  lemma {:induction false} OrWithZero(x: nat)
    ensures Or(x, 0) == x
  {
    if x > 0 {
      OrWithZero(x / 2);
    }
  }

  /** r is h with the chain from p put in order. */
  ghost predicate SortedAt(h: seq<Request>, r: seq<Request>, p: nat)
    requires 1 <= p && 2 * p <= |h|
  {
    && SameOutside(h, r, Root(p)) && Rearranged(h, r)
    && ChainSorted(r, p) && (Node(r, p) == Node(h, p) || Node(r, p) == Node(h, 2 * p))
    && (forall k {:trigger r[k]} :: 0 <= k < p - 1 ==> r[k] == h[k])
  }

  /** r is h after the first exchange at p. */
  ghost predicate Sunk(h: seq<Request>, r: seq<Request>, p: nat)
    requires 1 <= p && 2 * p <= |h|
  {
    && SameOutside(h, r, Root(p)) && Rearranged(h, r)
    && (forall k {:trigger r[k]} :: 0 <= k < p - 1 ==> r[k] == h[k])
    && Node(r, p) == Node(h, 2 * p) <= Node(r, 2 * p)
    && (4 * p <= |h| ==> ChainSorted(r, 4 * p) && Node(r, p) <= Node(r, 4 * p))
  }

  lemma BubbleStep(h: seq<Request>, p: nat)
    requires 1 <= p && 2 * p <= |h| && ChainSorted(h, 2 * p) && Node(h, p) >= Node(h, 2 * p)
    ensures Sunk(h, Swapped(h, p, 2 * p), p)
  {
    SwapSpares(h, p, 4 * p);
    SwapRearranges(h, p);
    SunkBelow(h, Swapped(h, p, 2 * p), p, 2 * p, 4 * p);
  }

  lemma SunkBelow(h: seq<Request>, r: seq<Request>, p: nat, q: nat, j: nat)
    requires 1 <= p && q == 2 * p <= |h| && j == 4 * p && r == Swapped(h, p, q)
    requires ChainSorted(h, q) && Node(h, p) >= Node(h, q)
    ensures Node(r, p) == Node(h, q) <= Node(r, q)
    ensures j <= |h| ==> ChainSorted(r, j) && Node(r, p) <= Node(r, j)
  {
    SwapBelow(h, p);
    SwappedNode(h, p, q, p);
    SwappedNode(h, p, q, q);
    if j <= |h| {
      SwappedNode(h, p, q, j);
    }
  }

  lemma BubbleThen(h: seq<Request>, g: seq<Request>, r: seq<Request>, p: nat)
    requires 1 <= p && 4 * p <= |h| && Sunk(h, g, p) && SortedAt(g, r, 2 * p)
    ensures SortedAt(h, r, p)
  {
    RootOfDouble(p);
    RearrangedThen(h, g, r);
    assert r[p - 1] == g[p - 1];
  }

  /** If the chain below p is in order, moving p down puts the chain from p in order. */
  lemma {:induction false} BubbleSorts(h: seq<Request>, p: nat, last: nat)
    requires 1 <= p && 2 * p <= last <= |h| < 2 * last && Reaches(2 * p, last) && ChainSorted(h, 2 * p)
    ensures SortedAt(h, Bubble(h, p, last), p)
    decreases last - p
  {
    if Node(h, p) >= Node(h, 2 * p) {
      var h' := Swapped(h, p, 2 * p);
      BubbleStep(h, p);
      if 4 * p <= last {
        BubbleSorts(h', 2 * p, last);
        BubbleThen(h, h', Bubble(h', 2 * p, last), p);
      }
    }
  }

  /** The climb from the last left child of a chain puts the chain in order. */
  lemma {:induction false} ClimbSorts(h: seq<Request>, j: nat, i: nat)
    requires j % 2 == 0 && 2 <= j <= i <= |h| < 2 * i && Reaches(j, i) && ChainSorted(h, j)
    ensures ChainSorted(Climb(h, j, i), Root(j))
    ensures SameOutside(h, Climb(h, j, i), Root(j)) && Rearranged(h, Climb(h, j, i))
    decreases j
  {
    var p := Parent(j);
    var h' := Bubble(h, p, i);
    BubbleSorts(h, p, i);
    assert Root(j) == Root(p);
    if p % 2 == 0 {
      ClimbSorts(h', p, i);
      RearrangedThen(h, h', Climb(h', p, i));
    }
  }

  predicate WholeSorted(h: seq<Request>, l: nat)
    requires l >= 1
  {
    ChainSorted(h, Root(l))
  }

  /** The chains that end before node i are in order. */
  ghost predicate SortedBefore(h: seq<Request>, i: nat) {
    forall l {:trigger WholeSorted(h, l)} :: 1 <= l <= |h| && l < i && |h| < 2 * l ==> WholeSorted(h, l)
  }

  lemma SweepStarts(h: seq<Request>)
    ensures SortedBefore(h, FirstLeaf(|h|))
  {
  }

  lemma SweepStep(h: seq<Request>, i: nat)
    requires i % 2 == 0 && 2 <= i <= |h| < 2 * i && SortedBefore(h, i)
    ensures SortedBefore(Climb(h, i, i), i + 2) && Rearranged(h, Climb(h, i, i))
  {
    var r := Climb(h, i, i);
    ClimbSorts(h, i, i);
    forall l | 1 <= l <= |r| && l < i + 2 && |r| < 2 * l ensures WholeSorted(r, l) {
      if l == i + 1 {
        assert Root(l) == l;
      } else if Root(l) != Root(i) {
        assert WholeSorted(h, l);
        StaysSorted(h, r, l, Root(i));
      }
    }
  }

  lemma StaysSorted(h: seq<Request>, r: seq<Request>, l: nat, o: nat)
    requires l >= 1 && Root(l) != o && WholeSorted(h, l) && SameOutside(h, r, o)
    ensures WholeSorted(r, l)
  {
    RootOfRoot(l);
    ChainSame(h, r, Root(l));
  }

  lemma {:induction false} RootOfRoot(j: nat)
    requires j >= 1
    ensures Root(Root(j)) == Root(j)
  {
  }

  lemma {:induction false} SweepSorts(h: seq<Request>, i: nat)
    requires i % 2 == 0 && i >= 2 && |h| < 2 * i && SortedBefore(h, i)
    ensures Rearranged(h, Sweep(h, i)) && SortedBefore(Sweep(h, i), |h| + 1)
    decreases if i <= |h| then |h| - i + 1 else 0
  {
    if i <= |h| {
      SweepStep(h, i);
      SweepSorts(Climb(h, i, i), i + 2);
      RearrangedThen(h, Climb(h, i, i), Sweep(h, i));
    }
  }

  /** The last node of the chain of j. */
  lemma {:induction false} ChainEnd(j: nat, n: nat) returns (l: nat)
    requires 1 <= j <= n
    ensures j <= l <= n < 2 * l && Root(l) == Root(j)
    decreases n - j
  {
    if 2 * j > n {
      l := j;
    } else {
      l := ChainEnd(2 * j, n);
    }
  }

  /** The sweep puts every chain of left children in order, and moves no request to another chain. */
  lemma SweepSortsChains(h: seq<Request>)
    ensures ChainsAscend(Sweep(h, FirstLeaf(|h|))) && Rearranged(h, Sweep(h, FirstLeaf(|h|)))
  {
    var r := Sweep(h, FirstLeaf(|h|));
    SweepStarts(h);
    SweepSorts(h, FirstLeaf(|h|));
    forall o | o % 2 == 1 && o >= 1 ensures Ascending(Chain(r, o)) {
      if o <= |r| {
        var l := ChainEnd(o, |r|);
        assert WholeSorted(r, l);
        SortedAscends(r, o);
      }
    }
  }

  // ----- Places in a chain -----

  /** The chain through p, from its place on, is the chain from p. */
  lemma {:induction false} ChainThrough(h: seq<Request>, p: nat)
    requires 1 <= p <= |h|
    ensures Depth(p) < |Chain(h, Root(p))| && Chain(h, Root(p))[Depth(p)..] == Chain(h, p)
    decreases p
  {
    if p % 2 == 0 {
      ChainThrough(h, p / 2);
      assert Root(p) == Root(p / 2) && Depth(p) == Depth(p / 2) + 1;
      NextPlace(h, p / 2, p, Chain(h, Root(p)), Depth(p / 2));
    }
  }

  lemma NextPlace(h: seq<Request>, p: nat, q: nat, s: seq<Request>, d: nat)
    requires 1 <= p && q == 2 * p <= |h| && d < |s| && s[d..] == Chain(h, p)
    ensures d + 1 < |s| && s[d + 1..] == Chain(h, q)
  {
    assert Chain(h, p) == [h[p - 1]] + Chain(h, q);
    assert s[d + 1..] == s[d..][1..];
    assert Chain(h, q) != [];
  }

  lemma NodeInChain(h: seq<Request>, p: nat)
    requires 1 <= p <= |h|
    ensures Depth(p) < |Chain(h, Root(p))| && Chain(h, Root(p))[Depth(p)] == h[p - 1]
  {
    ChainThrough(h, p);
    assert Chain(h, Root(p))[Depth(p)] == Chain(h, Root(p))[Depth(p)..][0];
  }

  /** Where the chains are in order, so is every left child. */
  lemma LeftChildOrdered(h: seq<Request>, c: nat)
    requires ChainsAscend(h) && c % 2 == 0
    ensures Ordered(h, c)
  {
    if 2 <= c <= |h| {
      NodeInChain(h, c);
      NodeInChain(h, c / 2);
      assert Ascending(Chain(h, Root(c)));
    }
  }

  /** What is left of h when its root is popped. */
  function Popped(h: seq<Request>): (r: seq<Request>)
    requires h != []
    ensures multiset(r) == multiset(h) - multiset{h[0]} && |r| == |h| - 1
  {
    assert h == [h[0]] + h[1..];
    Sweep(h[1..], FirstLeaf(|h| - 1))
  }

  lemma PoppedRearranges(h: seq<Request>)
    requires h != []
    ensures Rearranged(h[1..], Popped(h)) && ChainsAscend(Popped(h))
  {
    SweepSortsChains(h[1..]);
  }
}
