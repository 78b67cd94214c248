/**
 The priority queue of requests: a binary heap in a circular array.
 */
module PriorityQueue {
  import opened Bits
  import opened Heaps
  import opened LeftChains
  import opened LeastFirst
  import opened PoppedHeaps

  // ----- The circular array -----

  function SlotOf(head: nat, i: nat, size: nat): (b: nat)
    requires size > 0
    ensures b < size
  {
    Masked(head + i, size)
  }

  /** The n requests after head. */
  function ViewOf(a: seq<Request>, head: nat, n: nat): (h: seq<Request>)
    requires |a| > 0
    ensures |h| == n && forall i :: 0 <= i < n ==> h[i] == a[SlotOf(head, i + 1, |a|)]
  {
    seq(n, i requires 0 <= i < n => a[SlotOf(head, i + 1, |a|)])
  }

  lemma SlotIsRemainder(head: nat, i: nat, size: nat)
    requires IsPow2(size)
    ensures SlotOf(head, i, size) == Remainder(head + i, size)
  {
    var k: nat :| size == Pow2(k);
    AndMask(head + i, k);
  }

  lemma SlotsDiffer(head: nat, i: nat, j: nat, size: nat)
    requires IsPow2(size) && i < j < i + size
    ensures SlotOf(head, i, size) != SlotOf(head, j, size)
  {
    SlotIsRemainder(head, i, size);
    SlotIsRemainder(head, j, size);
    if SlotOf(head, i, size) == SlotOf(head, j, size) {
      var q := SameRemainder(head + i, head + j, size);
      NoMultipleBelow(j - i, size, q);
    }
  }

  /** The place after the last request of a full queue is that of its first. */
  lemma FullQueueWraps(head: nat, size: nat)
    requires IsPow2(size)
    ensures SlotOf(head, size + 1, size) == SlotOf(head, 1, size)
  {
    SlotIsRemainder(head, size + 1, size);
    SlotIsRemainder(head, 1, size);
    assert head + (size + 1) - size == head + 1;
  }

  lemma ViewUpdated(a: seq<Request>, head: nat, n: nat, i: nat, r: Request)
    requires IsPow2(|a|) && 1 <= i <= n <= |a|
    ensures ViewOf(a[SlotOf(head, i, |a|) := r], head, n) == ViewOf(a, head, n)[i - 1 := r]
  {
    var a' := a[SlotOf(head, i, |a|) := r];
    forall j | 0 <= j < n ensures ViewOf(a', head, n)[j] == ViewOf(a, head, n)[i - 1 := r][j] {
      if j + 1 < i {
        SlotsDiffer(head, j + 1, i, |a|);
      } else if i < j + 1 {
        SlotsDiffer(head, i, j + 1, |a|);
      }
    }
  }

  lemma ViewGrown(a: seq<Request>, head: nat, n: nat)
    requires |a| > 0
    ensures ViewOf(a, head, n) == ViewOf(a, head, n + 1)[..n]
  {
  }

  lemma ViewPopped(a: seq<Request>, head: nat, n: nat)
    requires IsPow2(|a|) && n > 0
    ensures ViewOf(a, SlotOf(head, 1, |a|), n - 1) == ViewOf(a, head, n)[1..]
  {
    forall i | 0 <= i < n - 1 
      ensures ViewOf(a, SlotOf(head, 1, |a|), n - 1)[i] == ViewOf(a, head, n)[1..][i]
    {
      SlotOfSlot(head, i + 1, |a|);
    }
  }

  lemma SlotOfSlot(head: nat, i: nat, size: nat)
    requires IsPow2(size)
    ensures SlotOf(SlotOf(head, 1, size), i, size) == SlotOf(head, i + 1, size)
  {
    var x := head + 1;
    SlotIsRemainder(head, 1, size);
    SlotIsRemainder(SlotOf(head, 1, size), i, size);
    SlotIsRemainder(head, i + 1, size);
    assert x + i == head + (i + 1);
    RemainderAdd(x, i, size);
  }

  // ----- The queue -----

  class Queue {
    var indexMask: nat
    var queueHeadIndex: nat
    var queueSize: nat
    var entryArray: array<Request>

    ghost predicate Valid()
      reads this, entryArray
    {
      entryArray.Length == indexMask + 1 && IsPow2(entryArray.Length) && queueSize <= entryArray.Length
    }

    ghost function View(): (h: seq<Request>)
      reads this, entryArray
      requires Valid()
      ensures |h| == queueSize
    {
      ViewOf(entryArray[..], queueHeadIndex, queueSize)
    }

    constructor (maxSize: nat, blank: Request)
      ensures Valid() && View() == [] && Ready(View()) && entryArray.Length == BitCeil(maxSize) && fresh(entryArray)
      ensures IsPow2(entryArray.Length) && maxSize <= entryArray.Length
    {
      var actualArraySize := BitCeil(maxSize);
      var k := BitCeilIsPow2(maxSize, 0);
      EmptyIsReady();
      indexMask := actualArraySize - 1;
      queueHeadIndex, queueSize := 0, 0;
      entryArray := new Request[actualArraySize](i => blank);
    }

    method Lookup(i: nat) returns (r: Request)
      requires Valid() && 1 <= i <= queueSize
      ensures r == View()[i - 1]
    {
      r := entryArray[And(queueHeadIndex + i, indexMask)];
    }

    method Exchange(a: nat, b: nat)
      requires Valid() && 1 <= a <= queueSize && 1 <= b <= queueSize
      modifies entryArray
      ensures Valid() && View() == Swapped(old(View()), a, b) && multiset(View()) == multiset(old(View()))
    {
      SwappedIsPermuted(View(), a, b);
      var x := Lookup(a);
      var y := Lookup(b);
      ghost var was := entryArray[..];
      ViewUpdated(was, queueHeadIndex, queueSize, a, y);
      Store(a, y);
      Store(b, x);
    }

    /** Puts r in place of request i. */
    method Store(i: nat, r: Request)
      requires Valid() && 1 <= i <= queueSize
      modifies entryArray
      ensures Valid() && View() == old(View())[i - 1 := r]
    {
      ghost var was := entryArray[..];
      ViewUpdated(was, queueHeadIndex, queueSize, i, r);
      entryArray[And(queueHeadIndex + i, indexMask)] := r;
      assert entryArray[..] == was[SlotOf(queueHeadIndex, i, |was|) := r];
    }

    /** Moves node i down to where it belongs; low is the first node below which the rest is in order. */
    method Heapify(i: nat, ghost low: nat)
      requires Valid() && Sinking(View(), low, i)
      modifies entryArray
      ensures Valid() && HeapFrom(View(), low) && multiset(View()) == multiset(old(View()))
      decreases queueSize - i
    {
      ghost var h := View();
      var l, r := 2 * i, 2 * i + 1;
      if l > queueSize {
        SinkEnds(h, low, i);
        return;
      }
      var iEntry := Lookup(i);
      var lEntry := Lookup(l);
      if r > queueSize {
        SinkLast(h, low, i);
        if lEntry.priority < iEntry.priority {
          Exchange(i, l);
        }
        return;
      }
      var rEntry := Lookup(r);
      var s := if lEntry.priority < rEntry.priority then l else r;
      var sEntry := if lEntry.priority < rEntry.priority then lEntry else rEntry;
      SinkTwo(h, low, i);
      if sEntry.priority < iEntry.priority {
        Exchange(i, s);
        Heapify(s, low);
      }
    }

    /** Makes a heap of any contents. */
    method BuildHeap()
      requires Valid()
      modifies entryArray
      ensures Valid() && IsHeap(View()) && Ready(View()) && multiset(View()) == multiset(old(View()))
    {
      var i := Parent(queueSize);
      while i > 0
        invariant Valid() && HeapFrom(View(), i + 1) && multiset(View()) == multiset(old(View()))
      {
        SinkStarts(View(), i);
        Heapify(i, i);
        i := i - 1;
      }
      HeapIsReady(View());
    }

    method RebalanceAfterInsert()
      requires Valid() && queueSize > 0
      modifies entryArray
      ensures Valid() && View() == Lifted(old(View()), queueSize)
      ensures multiset(View()) == multiset(old(View()))
    {
      var node := queueSize;
      var i := Parent(queueSize);
      while i > 0
        invariant Valid() && 1 <= node <= queueSize && i == Parent(node)
        invariant Lifted(View(), node) == Lifted(old(View()), queueSize)
      {
        var nodeEntry := Lookup(node);
        var papi := Lookup(i);
        if nodeEntry.priority >= papi.priority {
          break;
        }
        Exchange(node, i);
        node := i;
        i := Parent(i);
      }
    }

    /**
     Adds a request to a queue that is not full. The requests stay ready to be taken least first, and a heap
     stays a heap.
     */
    method Insert(request: Request)
      requires Valid() && queueSize < entryArray.Length
      modifies this`queueSize, entryArray
      ensures Valid() && View() == Inserted(old(View()), request) && queueSize == old(queueSize) + 1
      ensures multiset(View()) == multiset(old(View())) + multiset{request}
      ensures Ready(old(View())) ==> Ready(View())
      ensures IsHeap(old(View())) ==> IsHeap(View())
    {
      ghost var h := View();
      Append(request);
      RebalanceAfterInsert();
      InsertKeeps(h, request);
    }

    /** Puts a request after the last. */
    method Append(request: Request)
      requires Valid() && queueSize < entryArray.Length
      modifies this`queueSize, entryArray
      ensures Valid() && View() == old(View()) + [request] && queueSize == old(queueSize) + 1
    {
      ViewGrown(entryArray[..], queueHeadIndex, queueSize);
      queueSize := queueSize + 1;
      Store(queueSize, request);
    }

    method Peek() returns (r: Request)
      requires Valid() && queueSize > 0
      ensures r == View()[0]
    {
      r := Lookup(1);
    }

    /** Moves the parent of j down the chain of left children, as far as last. */
    method BubbleDown(j: nat, last: nat)
      requires Valid() && j % 2 == 0 && 2 <= j <= last <= queueSize
      modifies entryArray
      ensures Valid() && View() == Bubble(old(View()), Parent(j), last)
    {
      var p, node := Parent(j), j;
      var done := false;
      while !done
        invariant Valid() && (!done ==> 1 <= p && node == 2 * p <= last)
        invariant (if done then View() else Bubble(View(), p, last)) == Bubble(old(View()), Parent(j), last)
        decreases if done then 0 else 1, last - p
      {
        var pEntry := Lookup(p);
        var cEntry := Lookup(node);
        if pEntry.priority < cEntry.priority {
          done := true;
        } else {
          Exchange(p, node);
          p := node;
          node := 2 * node;
          done := node > last;
        }
      }
    }

    /** Puts every chain of left children in order. */
    method RebalanceAfterPop()
      requires Valid()
      modifies entryArray
      ensures Valid() && View() == Sweep(old(View()), FirstLeaf(queueSize))
      ensures ChainsAscend(View()) && Rearranged(old(View()), View())
    {
      SweepSortsChains(View());
      var i := Parent(queueSize);
      i := Or(i, 1);
      i := i + 1;
      assert i == FirstLeaf(queueSize);
      assert i % 2 == 0;
      assert i * 2 > queueSize;
      SweepFrom(i);
    }

    method SweepFrom(start: nat)
      requires Valid() && start % 2 == 0 && start >= 2
      modifies entryArray
      ensures Valid() && View() == Sweep(old(View()), start)
    {
      var i := start;
      while i <= queueSize
        invariant Valid() && i % 2 == 0 && i >= 2
        invariant Sweep(View(), i) == Sweep(old(View()), start)
      {
        ClimbFrom(i);
        i := i + 2;
      }
    }

    method ClimbFrom(i: nat)
      requires Valid() && i % 2 == 0 && 2 <= i <= queueSize
      modifies entryArray
      ensures Valid() && View() == Climb(old(View()), i, i)
    {
      var j := i;
      BubbleDown(j, i);
      j := Parent(j);
      while j % 2 == 0
        invariant Valid() && 1 <= j <= i
        invariant (if j % 2 == 0 then Climb(View(), j, i) else View()) == Climb(old(View()), i, i)
        decreases j
      {
        BubbleDown(j, i);
        j := Parent(j);
      }
    }

    /**
     Takes the first request: a least one, if the requests are ready, which they then stay. What is left is a
     heap exactly when the chains of right children fit.
     */
    method Pop() returns (request: Request)
      requires Valid() && queueSize > 0
      modifies this`queueHeadIndex, this`queueSize, entryArray
      ensures Valid() && request == old(View())[0] && View() == Popped(old(View()))
      ensures multiset(View()) == multiset(old(View())) - multiset{request}
      ensures Ready(old(View())) ==> IsLeast(request, multiset(old(View()))) && Ready(View())
      ensures IsHeap(View()) <==> RightChainsFit(old(View())[1..])
    {
      ghost var h := View();
      request := Peek();
      DropFirst();
      RebalanceAfterPop();
      if Ready(h) {
        PopServes(h);
      }
      PopLeavesHeapExactly(h);
    }

    method DropFirst()
      requires Valid() && queueSize > 0
      modifies this`queueHeadIndex, this`queueSize
      ensures Valid() && View() == old(View())[1..]
    {
      ViewPopped(entryArray[..], queueHeadIndex, queueSize);
      queueHeadIndex := And(queueHeadIndex + 1, indexMask);
      queueSize := queueSize - 1;
    }

    method IsValidHeapSubtree(i: nat) returns (valid: bool)
      requires Valid() && i >= 1
      ensures valid <==> SubtreeOrdered(View(), i)
      decreases queueSize - i
    {
      if i * 2 > queueSize {
        LeafOrdered(View(), i);
        return true;
      }
      SubtreeTest(View(), i);
      var l, r := 2 * i, 2 * i + 1;
      var node := Lookup(i);
      var lNode := Lookup(l);
      var result := node.priority <= lNode.priority;
      if l == queueSize {
        return result;
      }
      var rNode := Lookup(r);
      valid := result && node.priority <= rNode.priority;
      if valid {
        valid := IsValidHeapSubtree(l);
        if valid {
          valid := IsValidHeapSubtree(r);
        }
      }
    }

    method IsValidHeap() returns (valid: bool)
      requires Valid()
      ensures valid <==> IsHeap(View())
    {
      WholeIsSubtree(View());
      valid := IsValidHeapSubtree(1);
    }
  }
}
