/**
 The order in which the queue serves its requests: least first, whether or not they form a heap.
 */
module LeastFirst {
  import opened Bits
  import opened Heaps
  import opened LeftChains
  import opened Ranks

  /** The nodes not greater than t. */
  ghost function Small(h: seq<Request>, t: int): (z: set<nat>)
    ensures 0 !in z
  {
    set x: nat | 1 <= x <= |h| && Node(h, x) <= t
  }

  /** What every operation keeps: the requests up to any priority are supported. */
  ghost predicate Ready(h: seq<Request>) {
    forall t: int {:trigger Small(h, t)} :: Supported(Small(h, t))
  }

  lemma EmptyIsReady()
    ensures Ready([])
  {
    HeapIsReady([]);
  }

  lemma HeapIsReady(h: seq<Request>)
    requires IsHeap(h)
    ensures Ready(h)
  {
    forall t: int {:trigger Small(h, t)} ensures Supported(Small(h, t)) {
      forall x | x in Small(h, t) && x >= 2 ensures HasParent(Small(h, t), x) {
        assert Ordered(h, x);
      }
      HeapIsSupported(Small(h, t));
    }
  }

  /** The root is least. */
  lemma RootServes(h: seq<Request>, x: nat)
    requires Ready(h) && 1 <= x <= |h|
    ensures Node(h, 1) <= Node(h, x)
  {
    SupportedHasRoot(Small(h, Node(h, x)), x);
  }

  // ----- Inserting -----

  /** Node x is being lifted. */
  ghost predicate Lifting(h: seq<Request>, x: nat)
    requires 1 <= x <= |h|
  {
    forall t: int {:trigger Small(h, t)} ::
      if Node(h, x) <= t then LiftReady(Small(h, t) - {x}, x) else Supported(Small(h, t))
  }

  lemma LiftingStep(h: seq<Request>, x: nat)
    requires 2 <= x <= |h| && Lifting(h, x) && Node(h, x) < Node(h, Parent(x))
    ensures Lifting(Swapped(h, x, Parent(x)), Parent(x))
  {
    var p := Parent(x);
    var r := Swapped(h, x, p);
    forall t: int {:trigger Small(r, t)}
      ensures if Node(r, p) <= t then LiftReady(Small(r, t) - {p}, p) else Supported(Small(r, t))
    {
      SmallSwapped(h, r, x, p, t);
      if Node(h, x) <= t {
        LiftStep(Small(h, t) - {x}, x, p, Small(r, t) - {p});
      }
    }
  }

  lemma SmallSwapped(h: seq<Request>, r: seq<Request>, x: nat, p: nat, t: int)
    requires 1 <= p < x <= |h| && Node(h, x) < Node(h, p) && r == Swapped(h, x, p)
    ensures if Node(h, x) <= t then
              p in Small(r, t) &&
              Small(r, t) - {p} == if p in Small(h, t) then Small(h, t) - {x} - {p} + {x} else Small(h, t) - {x}
            else Small(r, t) == Small(h, t)
  {
    forall y: nat | 1 <= y <= |h| ensures Node(r, y) == if y == x then Node(h, p) else if y == p then Node(h, x) else Node(h, y) {
      SwappedNode(h, x, p, y);
    }
  }

  lemma {:induction false} LiftedIsReady(h: seq<Request>, x: nat)
    requires 1 <= x <= |h| && Lifting(h, x)
    ensures Ready(Lifted(h, x))
    decreases x
  {
    if x >= 2 && Node(h, x) < Node(h, Parent(x)) {
      LiftingStep(h, x);
      LiftedIsReady(Swapped(h, x, Parent(x)), Parent(x));
    } else {
      forall t: int {:trigger Small(h, t)} ensures Supported(Small(h, t)) {
        if Node(h, x) <= t {
          assert x >= 2 ==> x / 2 in Small(h, t) - {x};
          LiftEnds(Small(h, t) - {x}, x, Small(h, t));
        }
      }
    }
  }

  function Inserted(h: seq<Request>, r: Request): (h': seq<Request>)
    ensures multiset(h') == multiset(h) + multiset{r}
  {
    Lifted(h + [r], |h| + 1)
  }

  lemma SmallGrown(h: seq<Request>, r: Request, t: int)
    ensures |h| + 1 !in Small(h, t)
    ensures Small(h + [r], t) == if r.priority <= t then Small(h, t) + {|h| + 1} else Small(h, t)
  {
    forall x: nat | 1 <= x <= |h| + 1 ensures Node(h + [r], x) == if x == |h| + 1 then r.priority else Node(h, x) {
    }
  }

  lemma InsertKeepsReady(h: seq<Request>, r: Request)
    requires Ready(h)
    ensures Ready(Inserted(h, r))
  {
    var g, q := h + [r], |h| + 1;
    forall t: int {:trigger Small(g, t)}
      ensures if r.priority <= t then LiftReady(Small(g, t) - {q}, q) else Supported(Small(g, t))
    {
      SmallGrown(h, r, t);
      if r.priority <= t {
        assert Small(g, t) - {q} == Small(h, t);
      }
    }
    LiftedIsReady(g, q);
  }

  /** Inserting keeps what the queue relies on, and heap order where there is one. */
  lemma InsertKeeps(h: seq<Request>, r: Request)
    ensures Ready(h) ==> Ready(Inserted(h, r))
    ensures IsHeap(h) ==> IsHeap(Inserted(h, r))
  {
    if Ready(h) {
      InsertKeepsReady(h, r);
    }
    if IsHeap(h) {
      RiseStarts(h, r);
      LiftedHeap(h + [r], |h| + 1);
    }
  }

  // ----- Popping -----

  lemma {:induction false} PredecessorsSize(a: set<nat>, b: set<nat>)
    requires forall x: nat :: x in a ==> x + 1 in b
    requires forall x: nat :: x in b ==> x >= 1 && x - 1 in a
    ensures |a| == |b|
    decreases |a|
  {
    if x :| x in a {
      PredecessorsSize(a - {x}, b - {x + 1});
    } else {
      assert b == {};
    }
  }

  /** The nodes of a given rank, by the number they have after the shift. */
  lemma ShiftedCount(h: seq<Request>, t: int, s: nat)
    requires h != []
    ensures |Group(h[1..], t, s)| == |WithRank(Small(h, t), s)|
  {
    assert forall x: nat :: 1 <= x < |h| ==> Node(h[1..], x) == Node(h, x + 1);
    PredecessorsSize(Group(h[1..], t, s), WithRank(Small(h, t), s));
  }

  lemma {:induction false} OnesAtMost(x: nat)
    ensures Ones(x) <= x
  {
    if x > 0 {
      OnesAtMost(x / 2);
    }
  }

  lemma {:induction false} OnesOfRoot(j: nat)
    requires j >= 1
    ensures Ones(Root(j)) == Ones(j)
  {
    if j % 2 == 0 {
      OnesOfRoot(j / 2);
    }
  }

  /** A pop takes the request of node x to the chain through x - 1; the top of that chain has one rank less. */
  lemma RankFalls(x: nat)
    requires x >= 2
    ensures Rank(Root(x - 1)) + 1 == Rank(x)
  {
    OnesOfRoot(x - 1);
    RankOfOdd(Root(x - 1));
  }

  lemma SmallIsLeftClosed(r: seq<Request>, t: int)
    requires ChainsAscend(r)
    ensures LeftClosed(Small(r, t))
  {
    forall x | x in Small(r, t) && x % 2 == 0 ensures HasParent(Small(r, t), x) {
      LeftChildOrdered(r, x);
    }
  }

  lemma PoppedCount(h: seq<Request>, t: int, s: nat)
    requires h != []
    ensures |WithOnes(Small(Popped(h), t), s)| == |WithRank(Small(h, t), s)|
  {
    PoppedRearranges(h);
    assert WithOnes(Small(Popped(h), t), s) == Group(Popped(h), t, s);
    assert SameCount(h[1..], Popped(h), t, s);
    ShiftedCount(h, t, s);
  }

  lemma AllRanks(h: seq<Request>, t: int)
    requires h != []
    ensures WithRank(Small(h, t), |h| - 1) == Small(h, t) - {1}
  {
    forall x | x in Small(h, t) && x >= 2 ensures Rank(x) <= |h| - 1 {
      OnesAtMost(x - 1);
    }
  }

  lemma PoppedIsShifted(h: seq<Request>, t: int)
    requires h != []
    ensures Shifted(Small(h, t), Small(Popped(h), t))
  {
    PoppedRearranges(h);
    SmallIsLeftClosed(Popped(h), t);
    forall s: nat ensures |WithOnes(Small(Popped(h), t), s)| == |WithRank(Small(h, t), s)| {
      PoppedCount(h, t, s);
    }
    PoppedSize(h, t);
  }

  lemma PoppedSize(h: seq<Request>, t: int)
    requires h != []
    ensures |Small(Popped(h), t)| == |Small(h, t) - {1}|
  {
    var s := |h| - 1;
    PoppedCount(h, t, s);
    AllRanks(h, t);
    forall x | x in Small(Popped(h), t) ensures Ones(x) <= s {
      OnesAtMost(x);
    }
    assert WithOnes(Small(Popped(h), t), s) == Small(Popped(h), t);
  }

  lemma PopKeepsReady(h: seq<Request>)
    requires Ready(h) && h != []
    ensures Ready(Popped(h))
  {
    forall t: int {:trigger Small(Popped(h), t)} ensures Supported(Small(Popped(h), t)) {
      PoppedIsShifted(h, t);
      PopKeeps(Small(h, t), Small(Popped(h), t));
    }
  }

  // ----- Whole runs -----

  datatype Operation = Insertion(request: Request) | Removal

  /** The requests taken, in order. Nothing is taken from an empty queue. */
  function Taken(h: seq<Request>, ops: seq<Operation>): seq<Request>
    decreases |ops|
  {
    if ops == [] then []
    else match ops[0]
      case Insertion(r) => Taken(Inserted(h, r), ops[1..])
      case Removal => if h == [] then Taken(h, ops[1..]) else [h[0]] + Taken(Popped(h), ops[1..])
  }

  predicate IsLeast(r: Request, m: multiset<Request>) {
    r in m && forall x :: x in m ==> r.priority <= x.priority
  }

  /** What is taken from a bag of requests of which each removal takes a least one. */
  predicate LeastTaken(m: multiset<Request>, ops: seq<Operation>, taken: seq<Request>)
    decreases |ops|
  {
    if ops == [] then taken == []
    else match ops[0]
      case Insertion(r) => LeastTaken(m + multiset{r}, ops[1..], taken)
      case Removal =>
        if m == multiset{} then LeastTaken(m, ops[1..], taken)
        else taken != [] && IsLeast(taken[0], m) && LeastTaken(m - multiset{taken[0]}, ops[1..], taken[1..])
  }

  lemma RootIsLeastOf(h: seq<Request>)
    requires Ready(h) && h != []
    ensures IsLeast(h[0], multiset(h))
  {
    forall r | r in multiset(h) ensures h[0].priority <= r.priority {
      var i :| 0 <= i < |h| && h[i] == r;
      RootServes(h, i + 1);
    }
  }

  /** A pop takes a least request, and the next one will too. */
  lemma PopServes(h: seq<Request>)
    requires Ready(h) && h != []
    ensures IsLeast(h[0], multiset(h)) && Ready(Popped(h))
  {
    RootIsLeastOf(h);
    PopKeepsReady(h);
  }

  /** In every run each removal takes a least request of those in the queue. */
  lemma {:induction false} RunTakesLeast(h: seq<Request>, ops: seq<Operation>)
    requires Ready(h)
    ensures LeastTaken(multiset(h), ops, Taken(h, ops))
    decreases |ops|
  {
    if ops != [] {
      match ops[0]
      case Insertion(r) =>
        InsertKeepsReady(h, r);
        RunTakesLeast(Inserted(h, r), ops[1..]);
      case Removal =>
        if h == [] {
          RunTakesLeast(h, ops[1..]);
        } else {
          RootIsLeastOf(h);
          PopKeepsReady(h);
          RunTakesLeast(Popped(h), ops[1..]);
          var rest := Taken(Popped(h), ops[1..]);
          assert ([h[0]] + rest)[1..] == rest;
        }
    }
  }

  /** All requests, popped one after the other. */
  function Drained(h: seq<Request>): (s: seq<Request>)
    ensures multiset(s) == multiset(h)
    decreases |h|
  {
    if h == [] then []
    else
      assert h[0] in multiset(h);
      [h[0]] + Drained(Popped(h))
  }

  lemma AscendsFrom(r: Request, s: seq<Request>, m: multiset<Request>)
    requires Ascending(s) && multiset(s) <= m && IsLeast(r, m)
    ensures Ascending([r] + s)
  {
    forall i | 0 <= i < |s| ensures r.priority <= s[i].priority {
      assert s[i] in multiset(s);
    }
  }

  lemma {:induction false} DrainedAscends(h: seq<Request>)
    requires Ready(h)
    ensures Ascending(Drained(h))
    decreases |h|
  {
    if h != [] {
      PopKeepsReady(h);
      RootIsLeastOf(h);
      DrainedAscends(Popped(h));
      AscendsFrom(h[0], Drained(Popped(h)), multiset(h));
    }
  }
}
