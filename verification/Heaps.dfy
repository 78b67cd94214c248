/**
 Binary heaps as sequences: node i, counted from 1, is element i - 1.
 */
module Heaps {

  datatype Request = Request(priority: int, payload: nat)

  function Parent(i: nat): nat {
    i / 2
  }

  function Node(h: seq<Request>, i: nat): int
    requires 1 <= i <= |h|
  {
    h[i - 1].priority
  }

  /** Node c is not less than its parent. */
  predicate Ordered(h: seq<Request>, c: nat) {
    2 <= c <= |h| ==> Node(h, Parent(c)) <= Node(h, c)
  }

  /** The children of the nodes from low on are in order, but for those of node x. */
  predicate OrderedBut(h: seq<Request>, low: nat, x: nat) {
    forall c {:trigger Ordered(h, c)} :: 2 <= c <= |h| && Parent(c) >= low && Parent(c) != x ==> Ordered(h, c)
  }

  /** The children of the nodes from low on are in order. */
  predicate HeapFrom(h: seq<Request>, low: nat) {
    forall c {:trigger Ordered(h, c)} :: 2 <= c <= |h| && Parent(c) >= low ==> Ordered(h, c)
  }

  predicate IsHeap(h: seq<Request>) {
    HeapFrom(h, 1)
  }

  /** The children of x are not less than the parent of x, if that is from low on. */
  predicate GrandchildrenOrdered(h: seq<Request>, low: nat, x: nat) {
    1 <= Parent(x) && low <= Parent(x) ==>
      (2 * x <= |h| ==> Node(h, Parent(x)) <= Node(h, 2 * x))
      && (2 * x + 1 <= |h| ==> Node(h, Parent(x)) <= Node(h, 2 * x + 1))
  }

  function Swapped(h: seq<Request>, a: nat, b: nat): (r: seq<Request>)
    requires 1 <= a <= |h| && 1 <= b <= |h|
    ensures |r| == |h|
  {
    h[a - 1 := h[b - 1]][b - 1 := h[a - 1]]
  }

  lemma SwappedIsPermuted(h: seq<Request>, a: nat, b: nat)
    requires 1 <= a <= |h| && 1 <= b <= |h|
    ensures multiset(Swapped(h, a, b)) == multiset(h)
  {
  }

  lemma SwappedNode(h: seq<Request>, a: nat, b: nat, c: nat)
    requires 1 <= a <= |h| && 1 <= b <= |h| && 1 <= c <= |h|
    ensures Node(Swapped(h, a, b), c) == if c == a then Node(h, b) else if c == b then Node(h, a) else Node(h, c)
  {
  }

  // ----- Sifting down -----

  /** Below the nodes from low on only the children of x may be out of order. */
  predicate Sinking(h: seq<Request>, low: nat, x: nat) {
    1 <= low <= x && OrderedBut(h, low, x) && GrandchildrenOrdered(h, low, x)
  }

  lemma SinkStarts(h: seq<Request>, x: nat)
    requires 1 <= x && HeapFrom(h, x + 1)
    ensures Sinking(h, x, x)
  {
  }

  /** If x has no child that is less, nothing is out of order. */
  lemma SinkEnds(h: seq<Request>, low: nat, x: nat)
    requires Sinking(h, low, x)
    requires (2 * x <= |h| ==> Node(h, x) <= Node(h, 2 * x)) && (2 * x + 1 <= |h| ==> Node(h, x) <= Node(h, 2 * x + 1))
    ensures HeapFrom(h, low)
  {
    forall c | 2 <= c <= |h| && Parent(c) >= low ensures Ordered(h, c) {
      assert Parent(c) == x ==> c == 2 * x || c == 2 * x + 1;
    }
  }

  /** Otherwise x changes places with its least child s. */
  lemma SinkStep(h: seq<Request>, low: nat, x: nat, s: nat)
    requires Sinking(h, low, x) && (s == 2 * x || s == 2 * x + 1) && s <= |h|
    requires Node(h, s) < Node(h, x)
    requires 2 * x <= |h| ==> Node(h, s) <= Node(h, 2 * x)
    requires 2 * x + 1 <= |h| ==> Node(h, s) <= Node(h, 2 * x + 1)
    ensures Sinking(Swapped(h, x, s), low, s)
  {
    var h' := Swapped(h, x, s);
    forall c | 2 <= c <= |h'| && Parent(c) >= low && Parent(c) != s ensures Ordered(h', c) {
      SwappedNode(h, x, s, c);
      SwappedNode(h, x, s, Parent(c));
      assert Parent(c) == x ==> c == 2 * x || c == 2 * x + 1;
      assert Parent(c) != x ==> Ordered(h, c);
    }
    forall c | (c == 2 * s || c == 2 * s + 1) && c <= |h| ensures Node(h', x) <= Node(h', c) {
      SwappedNode(h, x, s, c);
      SwappedNode(h, x, s, x);
      assert Parent(c) == s;
      assert Ordered(h, c);
    }
  }

  /** If x has one child, the last node, one exchange at most is needed. */
  lemma SinkLast(h: seq<Request>, low: nat, x: nat)
    requires Sinking(h, low, x) && 2 * x == |h|
    ensures HeapFrom(if Node(h, 2 * x) < Node(h, x) then Swapped(h, x, 2 * x) else h, low)
  {
    if Node(h, 2 * x) < Node(h, x) {
      SinkStep(h, low, x, 2 * x);
      SinkEnds(Swapped(h, x, 2 * x), low, 2 * x);
    } else {
      SinkEnds(h, low, x);
    }
  }

  function LesserChild(h: seq<Request>, x: nat): (s: nat)
    requires 1 <= x && 2 * x + 1 <= |h|
  {
    if Node(h, 2 * x) < Node(h, 2 * x + 1) then 2 * x else 2 * x + 1
  }

  lemma SinkTwo(h: seq<Request>, low: nat, x: nat)
    requires Sinking(h, low, x) && 2 * x + 1 <= |h|
    ensures var s := LesserChild(h, x);
            if Node(h, s) < Node(h, x) then Sinking(Swapped(h, x, s), low, s) else HeapFrom(h, low)
  {
    var s := LesserChild(h, x);
    if Node(h, s) < Node(h, x) {
      SinkStep(h, low, x, s);
    } else {
      SinkEnds(h, low, x);
    }
  }

  // ----- Sifting up -----

  /** Only node x may be less than its parent; its children are not less than that either. */
  predicate Rising(h: seq<Request>, x: nat) {
    && 1 <= x <= |h|
    && (forall c {:trigger Ordered(h, c)} :: 2 <= c <= |h| && c != x ==> Ordered(h, c))
    && GrandchildrenOrdered(h, 1, x)
  }

  lemma RiseStarts(h: seq<Request>, r: Request)
    requires IsHeap(h)
    ensures Rising(h + [r], |h| + 1)
  {
    var h' := h + [r];
    forall c | 2 <= c <= |h'| && c != |h'| ensures Ordered(h', c) {
      assert Ordered(h, c);
    }
  }

  lemma RiseEnds(h: seq<Request>, x: nat)
    requires Rising(h, x) && Ordered(h, x)
    ensures IsHeap(h)
  {
  }

  lemma RiseStep(h: seq<Request>, x: nat)
    requires Rising(h, x) && x >= 2 && Node(h, x) < Node(h, Parent(x))
    ensures Rising(Swapped(h, x, Parent(x)), Parent(x))
  {
    var p := Parent(x);
    var h' := Swapped(h, x, p);
    forall c | 2 <= c <= |h'| && c != p ensures Ordered(h', c) {
      SwappedNode(h, x, p, c);
      SwappedNode(h, x, p, Parent(c));
      assert c != x ==> Ordered(h, c);
      assert Parent(c) == x ==> c == 2 * x || c == 2 * x + 1;
    }
    if p >= 2 {
      assert Ordered(h, p);
      forall c | (c == 2 * p || c == 2 * p + 1) && c <= |h| ensures Node(h', Parent(p)) <= Node(h', c) {
        SwappedNode(h, x, p, c);
        SwappedNode(h, x, p, Parent(p));
        assert Parent(c) == p && (c != x ==> Ordered(h, c));
      }
    }
  }

  /** Node x is moved up while it is less than its parent. */
  function Lifted(h: seq<Request>, x: nat): (r: seq<Request>)
    requires 1 <= x <= |h|
    ensures |r| == |h| && multiset(r) == multiset(h)
    decreases x
  {
    if x >= 2 && Node(h, x) < Node(h, Parent(x)) then
      SwappedIsPermuted(h, x, Parent(x));
      Lifted(Swapped(h, x, Parent(x)), Parent(x))
    else h
  }

  lemma {:induction false} LiftedHeap(h: seq<Request>, x: nat)
    requires Rising(h, x)
    ensures IsHeap(Lifted(h, x))
    decreases x
  {
    if x >= 2 && Node(h, x) < Node(h, Parent(x)) {
      RiseStep(h, x);
      LiftedHeap(Swapped(h, x, Parent(x)), Parent(x));
    } else {
      RiseEnds(h, x);
    }
  }

  // ----- What a heap is for -----

  lemma {:induction false} RootIsLeast(h: seq<Request>, c: nat)
    requires IsHeap(h) && 1 <= c <= |h|
    ensures Node(h, 1) <= Node(h, c)
    decreases c
  {
    if c > 1 {
      RootIsLeast(h, Parent(c));
      assert Ordered(h, c);
    }
  }

  /** i is c or an ancestor of it. */
  predicate Descends(c: nat, i: nat) {
    c == i || (c > i && Descends(Parent(c), i))
  }

  /** Every node below i is not less than its parent. */
  predicate SubtreeOrdered(h: seq<Request>, i: nat) {
    forall c {:trigger Descends(c, i)} :: 1 <= c <= |h| && c != i && Descends(c, i) ==> Ordered(h, c)
  }

  lemma {:induction false} AllDescend(c: nat)
    requires c >= 1
    ensures Descends(c, 1)
    decreases c
  {
    if c > 1 {
      AllDescend(Parent(c));
    }
  }

  /** What descends from i is i, or descends from a child of i. */
  lemma {:induction false} DescendsByChild(c: nat, i: nat)
    requires 1 <= i
    ensures Descends(c, i) <==> c == i || Descends(c, 2 * i) || Descends(c, 2 * i + 1)
    decreases c
  {
    if c > i {
      DescendsByChild(Parent(c), i);
      assert Parent(c) == i <==> c == 2 * i || c == 2 * i + 1;
    }
  }

  lemma SubtreeByChildren(h: seq<Request>, i: nat)
    requires 1 <= i
    ensures SubtreeOrdered(h, i) <==>
            Ordered(h, 2 * i) && Ordered(h, 2 * i + 1) && SubtreeOrdered(h, 2 * i) && SubtreeOrdered(h, 2 * i + 1)
  {
    forall c: nat
      ensures Descends(c, i) <==> c == i || Descends(c, 2 * i) || Descends(c, 2 * i + 1)
      ensures Descends(c, 2 * i) || Descends(c, 2 * i + 1) ==> c != i
    {
      DescendsByChild(c, i);
      if Descends(c, 2 * i) {
        DescendsIsLater(c, 2 * i);
      } else if Descends(c, 2 * i + 1) {
        DescendsIsLater(c, 2 * i + 1);
      }
    }
    assert Descends(2 * i, 2 * i) && Descends(2 * i + 1, 2 * i + 1);
    assert Descends(2 * i, i) && Descends(2 * i + 1, i);
    if Ordered(h, 2 * i) && Ordered(h, 2 * i + 1) && SubtreeOrdered(h, 2 * i) && SubtreeOrdered(h, 2 * i + 1) {
      forall c | 1 <= c <= |h| && c != i && Descends(c, i) ensures Ordered(h, c) {
        assert Descends(c, 2 * i) || Descends(c, 2 * i + 1);
      }
    }
    if SubtreeOrdered(h, i) {
      forall c | 1 <= c <= |h| && c != 2 * i && Descends(c, 2 * i) ensures Ordered(h, c) {
        assert Descends(c, i);
      }
      forall c | 1 <= c <= |h| && c != 2 * i + 1 && Descends(c, 2 * i + 1) ensures Ordered(h, c) {
        assert Descends(c, i);
      }
    }
  }

  lemma {:induction false} DescendsIsLater(c: nat, i: nat)
    requires Descends(c, i)
    ensures c >= i
    decreases c
  {
    if c != i {
      DescendsIsLater(Parent(c), i);
    }
  }

  lemma LeafOrdered(h: seq<Request>, i: nat)
    requires 1 <= i && 2 * i > |h|
    ensures SubtreeOrdered(h, i)
  {
    forall c: nat ensures Descends(c, i) && c != i ==> c > |h| {
      if Descends(c, i) && c != i {
        DescendsIsLater(Parent(c), i);
      }
    }
  }

  lemma SubtreeTest(h: seq<Request>, i: nat)
    requires 1 <= i && 2 * i <= |h|
    ensures SubtreeOrdered(h, i) <==>
            Node(h, i) <= Node(h, 2 * i)
            && (2 * i < |h| ==> Node(h, i) <= Node(h, 2 * i + 1)
                                && SubtreeOrdered(h, 2 * i) && SubtreeOrdered(h, 2 * i + 1))
  {
    SubtreeByChildren(h, i);
    if 2 * i == |h| {
      LeafOrdered(h, 2 * i);
      LeafOrdered(h, 2 * i + 1);
    }
  }

  lemma WholeIsSubtree(h: seq<Request>)
    ensures IsHeap(h) <==> SubtreeOrdered(h, 1)
  {
    forall c | 1 <= c <= |h| ensures Descends(c, 1) {
      AllDescend(c);
    }
    if SubtreeOrdered(h, 1) {
      forall c | 2 <= c <= |h| ensures Ordered(h, c) {
        assert Descends(c, 1);
      }
    }
  }
}
