/**
 When a pop leaves a heap.
 */
module PoppedHeaps {
  import opened Bits
  import opened Heaps
  import opened LeftChains

  function CountAtMost(s: seq<Request>, t: int): (n: nat)
    ensures n <= |s|
  {
    if s == [] then 0 else (if s[0].priority <= t then 1 else 0) + CountAtMost(s[1..], t)
  }

  /**
   Each request of the chain from the right child c finds enough requests not greater than it in the chain of
   its parent to fill that as far as the parent.
   */
  predicate ChainFits(h: seq<Request>, c: nat)
    requires c >= 2
  {
    forall e {:trigger e in Chain(h, c)} :: e in Chain(h, c) ==>
      CountAtMost(Chain(h, Root(Parent(c))), e.priority) > Depth(Parent(c))
  }

  ghost predicate RightChainsFit(h: seq<Request>) {
    forall c {:trigger ChainFits(h, c)} :: c % 2 == 1 && 3 <= c <= |h| ==> ChainFits(h, c)
  }

  // ----- Counting -----

  lemma {:induction false} CountWithout(s: seq<Request>, k: nat, t: int)
    requires k < |s|
    ensures CountAtMost(s, t) == CountAtMost(s[..k] + s[k + 1..], t) + if s[k].priority <= t then 1 else 0
  {
    if k == 0 {
      assert s[..0] + s[1..] == s[1..];
    } else {
      CountWithout(s[1..], k - 1, t);
      assert (s[..k] + s[k + 1..])[1..] == s[1..][..k - 1] + s[1..][k..];
    }
  }

  lemma RemovedFrom(s: seq<Request>, u: seq<Request>, k: nat)
    requires s != [] && k < |u| && u[k] == s[0] && multiset(s) == multiset(u)
    ensures multiset(s[1..]) == multiset(u[..k] + u[k + 1..])
  {
    WithoutOne(s, 0);
    WithoutOne(u, k);
    assert s[..0] + s[1..] == s[1..];
  }

  lemma WithoutOne(u: seq<Request>, k: nat)
    requires k < |u|
    ensures multiset(u[..k] + u[k + 1..]) == multiset(u) - multiset{u[k]}
  {
    assert u == u[..k] + [u[k]] + u[k + 1..];
  }

  lemma {:induction false} CountPermuted(s: seq<Request>, u: seq<Request>, t: int)
    requires multiset(s) == multiset(u)
    ensures CountAtMost(s, t) == CountAtMost(u, t)
  {
    if s == [] {
      assert |multiset(u)| == 0;
    } else {
      assert s[0] in multiset(u);
      var k :| 0 <= k < |u| && u[k] == s[0];
      RemovedFrom(s, u, k);
      CountWithout(u, k, t);
      CountPermuted(s[1..], u[..k] + u[k + 1..], t);
    }
  }

  lemma {:induction false} CountNone(s: seq<Request>, t: int)
    requires forall i :: 0 <= i < |s| ==> s[i].priority > t
    ensures CountAtMost(s, t) == 0
  {
    if s != [] {
      CountNone(s[1..], t);
    }
  }

  /** In an ascending sequence element d is at most t if and only if more than d elements are. */
  lemma {:induction false} CountAscending(s: seq<Request>, d: nat, t: int)
    requires Ascending(s) && d < |s|
    ensures s[d].priority <= t <==> CountAtMost(s, t) > d
  {
    if s[0].priority > t {
      CountNone(s, t);
    } else if d > 0 {
      CountAscending(s[1..], d - 1, t);
    }
  }

  // ----- The exact condition -----

  /** Where the chains ascend, node p is at most t if and only if enough of its chain is. */
  lemma NodeAtMost(h: seq<Request>, r: seq<Request>, p: nat, t: int)
    requires Rearranged(h, r) && ChainsAscend(r) && 1 <= p <= |r|
    ensures Node(r, p) <= t <==> CountAtMost(Chain(h, Root(p)), t) > Depth(p)
  {
    NodeInChain(r, p);
    assert Ascending(Chain(r, Root(p)));
    CountAscending(Chain(r, Root(p)), Depth(p), t);
    assert SameChain(h, r, Root(p));
    CountPermuted(Chain(h, Root(p)), Chain(r, Root(p)), t);
  }

  lemma ChainMembers(h: seq<Request>, r: seq<Request>, c: nat, e: Request)
    requires Rearranged(h, r) && c % 2 == 1
    ensures e in Chain(h, c) <==> e in Chain(r, c)
  {
    assert SameChain(h, r, c);
    assert e in Chain(h, c) <==> e in multiset(Chain(h, c));
    assert e in Chain(r, c) <==> e in multiset(Chain(r, c));
  }

  lemma RightChildExactly(h: seq<Request>, r: seq<Request>, c: nat)
    requires Rearranged(h, r) && ChainsAscend(r) && c % 2 == 1 && 3 <= c <= |r|
    ensures Ordered(r, c) <==> ChainFits(h, c)
  {
    var s, p := Chain(r, c), Parent(c);
    assert Ascending(s) && s[0] == r[c - 1];
    ChainMembers(h, r, c, s[0]);
    NodeAtMost(h, r, p, s[0].priority);
    forall e | e in Chain(h, c) && Ordered(r, c)
      ensures CountAtMost(Chain(h, Root(p)), e.priority) > Depth(p)
    {
      ChainMembers(h, r, c, e);
      NodeAtMost(h, r, p, e.priority);
    }
  }

  /** A pop leaves a heap if and only if the chains of right children fit those of their parents. */
  lemma PopLeavesHeapExactly(h: seq<Request>)
    requires h != []
    ensures IsHeap(Popped(h)) <==> RightChainsFit(h[1..])
  {
    var r := Popped(h);
    PoppedRearranges(h);
    forall c | c % 2 == 1 && 3 <= c <= |r| ensures Ordered(r, c) <==> ChainFits(h[1..], c) {
      RightChildExactly(h[1..], r, c);
    }
    forall c | 2 <= c <= |r| && c % 2 == 0 ensures Ordered(r, c) {
      LeftChildOrdered(r, c);
    }
    if RightChainsFit(h[1..]) {
      forall c | 2 <= c <= |r| && Parent(c) >= 1 ensures Ordered(r, c) {
        assert c % 2 == 1 ==> ChainFits(h[1..], c);
      }
    }
  }

  // ----- By size -----

  lemma SmallHeapFits(h: seq<Request>)
    requires IsHeap(h) && 1 <= |h| <= 5
    ensures RightChainsFit(h[1..])
  {
    var g := h[1..];
    forall c | c % 2 == 1 && 3 <= c <= |g| ensures ChainFits(g, c) {
      assert c == 3 && Ordered(h, 4) && g[0] == h[1] && g[2] == h[3];
      assert Chain(g, 3) == [g[2]];
      assert Chain(g, 1)[0] == g[0];
    }
  }

  /** The heap of n requests that a pop does not leave a heap. */
  function Unlucky(n: nat): (h: seq<Request>)
    requires n >= 6
    ensures |h| == n
  {
    var ps := [0, 3, 1, 4, 5, 2];
    seq(n, i requires 0 <= i < n => Request(if i < 6 then ps[i] else i, 0))
  }

  lemma UnluckyIsHeap(n: nat)
    requires n >= 6
    ensures IsHeap(Unlucky(n))
  {
    forall c | 2 <= c <= n ensures Ordered(Unlucky(n), c) {
    }
  }

  lemma {:induction false} LaterIsMore(g: seq<Request>, j: nat)
    requires j >= 3 && forall i :: 2 <= i < |g| && i != 4 ==> g[i].priority > 2
    requires Root(j) == 1
    ensures CountAtMost(Chain(g, j), 2) == 0
    decreases |g| - j
  {
    if j <= |g| {
      RootOfDouble(j);
      LaterIsMore(g, 2 * j);
    }
  }

  lemma UnluckyDoesNotFit(n: nat)
    requires n >= 6
    ensures !RightChainsFit(Unlucky(n)[1..])
  {
    var g := Unlucky(n)[1..];
    assert g[0].priority == 3 && g[1].priority == 1 && g[4].priority == 2;
    LaterIsMore(g, 4);
    assert Chain(g, 2) == [g[1]] + Chain(g, 4);
    assert Chain(g, 1) == [g[0]] + Chain(g, 2);
    assert CountAtMost(Chain(g, 1), 2) == 1;
    assert Chain(g, 5)[0] == g[4];
    assert g[4] in Chain(g, 5);
    assert Root(1) == 1 && Root(2) == 1 && Depth(1) == 0 && Depth(2) == 1;
    assert Parent(5) == 2;
    assert !ChainFits(g, 5);
  }

  /** Every heap of n requests is left a heap by a pop if and only if there are at most five. */
  lemma PopKeepsHeapsExactly(n: nat)
    requires n >= 1
    ensures (forall h: seq<Request> {:trigger Popped(h)} :: |h| == n && IsHeap(h) ==> IsHeap(Popped(h))) <==> n <= 5
  {
    if n <= 5 {
      forall h: seq<Request> {:trigger Popped(h)} | |h| == n && IsHeap(h) ensures IsHeap(Popped(h)) {
        SmallHeapFits(h);
        PopLeavesHeapExactly(h);
      }
    } else {
      UnluckyIsHeap(n);
      UnluckyDoesNotFit(n);
      PopLeavesHeapExactly(Unlucky(n));
    }
  }
}
