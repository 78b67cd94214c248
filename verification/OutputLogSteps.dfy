/**
 Every step of the output log keeps the invariant.
 */
module OutputLogSteps {
  import opened Bits
  import opened OutputLog
  import opened OutputLogInvariant

  /** Whatever the threads do next stays within the buffers, and never needs the link of null. */
  lemma InvIsSafe(s: State, op: Op)
    requires Inv(s) && Enabled(s, op)
    ensures Safe(s, op)
  {
    match op
    case OpPeek =>
      assert PoolAt(s.next, s.pool, s.role, s.mark);
    case OpPop | OpRetry =>
      assert PoolAt(s.next, s.pool, s.role, s.mark);
    case OpLink =>
      assert QueueAt(s.next, s.log, s.role, |s.log|);
    case OpFetch =>
      assert QueueAt(s.next, s.log, s.role, s.got);
    case OpPrintByte =>
      assert TextAt(s.bytes, s.data, s.log, s.got);
    case _ =>
  }

  // ----- The producer -----

  lemma WriteKeeps(s: State, b: byte)
    requires Inv(s) && Enabled(s, OpWrite(b))
    ensures Inv(Write(s, b))
  {
    var s' := Write(s, b);
    forall i | 1 <= i <= |s.log| && s.got <= i ensures TextAt(s'.bytes, s'.data, s'.log, i) {
      assert TextAt(s.bytes, s.data, s.log, i) && QueueAt(s.next, s.log, s.role, i);
    }
  }

  lemma MeasureKeeps(s: State)
    requires Inv(s) && s.p.Writing?
    ensures Inv(Measure(s))
  {
    var s' := Measure(s);
    forall i | 1 <= i <= |s.log| && s.got <= i ensures TextAt(s'.bytes, s'.data, s'.log, i) {
      assert TextAt(s.bytes, s.data, s.log, i) && QueueAt(s.next, s.log, s.role, i);
    }
  }

  lemma AcquireTokenKeeps(s: State)
    requires Inv(s) && s.p.Measured? && s.sem > 0
    ensures Inv(AcquireToken(s))
  {
  }

  lemma LoadHeadKeeps(s: State)
    requires Inv(s) && s.p.Token?
    ensures Inv(LoadHead(s))
  {
  }

  lemma PeekKeeps(s: State)
    requires Inv(s) && s.p.Loaded? && Safe(s, OpPeek)
    ensures Inv(Peek(s))
  {
    assert PoolAt(s.next, s.pool, s.role, s.mark);
  }

  lemma RetryKeeps(s: State)
    requires Inv(s) && s.p.Peeked? && Safe(s, OpRetry)
    ensures Inv(Retry(s))
  {
  }

  /** As long as the producer looks at it, a buffer stays where it is in the pool: the link that was read is
      the true one when the exchange succeeds. */
  lemma PopIsOfTop(s: State)
    requires Inv(s) && s.p.Peeked? && s.head == s.p.h
    ensures s.pool != [] && s.mark == |s.pool| - 1 && s.p.h < |s.next| && s.p.m == s.next[s.p.h]
  {
    assert PoolAt(s.next, s.pool, s.role, s.mark) && PoolAt(s.next, s.pool, s.role, |s.pool| - 1);
  }

  lemma PopKeeps(s: State)
    requires Inv(s) && s.p.Peeked? && Safe(s, OpPop)
    ensures Inv(Pop(s))
  {
    if s.head != s.p.h {
      RetryKeeps(s);
    } else {
      PopIsOfTop(s);
      PopKeepsRest(s);
    }
  }

  lemma PopKeepsRest(s: State)
    requires Inv(s) && s.p.Peeked? && s.head == s.p.h && Safe(s, OpPop) && s.mark == |s.pool| - 1
    ensures Inv(Pop(s))
  {
    var s' := Pop(s);
    assert PoolAt(s.next, s.pool, s.role, s.mark);
    forall k | 0 <= k < |s'.pool| ensures PoolAt(s'.next, s'.pool, s'.role, k) {
      assert PoolAt(s.next, s.pool, s.role, k);
      assert s'.pool[..k] == s.pool[..k];
    }
    forall i | s.got <= i <= |s.log| ensures QueueAt(s'.next, s'.log, s'.role, i) {
      assert QueueAt(s.next, s.log, s.role, i);
    }
    RolesPop(s);
  }

  lemma RolesPop(s: State)
    requires Inv(s) && s.p.Peeked? && s.head == s.p.h && Safe(s, OpPop) && s.mark == |s.pool| - 1
    ensures RoleInv(Pop(s))
  {
    var s' := Pop(s);
    forall b | 0 <= b < |s.role| ensures RightRole(s', b) {
      assert RightRole(s, b);
    }
    AllRightRoles(s');
  }

  lemma SwapKeeps(s: State)
    requires Inv(s) && s.p.Popped? && Safe(s, OpSwap)
    ensures Inv(Swap(s))
  {
    var s' := Swap(s);
    forall k | 0 <= k < |s'.pool| ensures PoolAt(s'.next, s'.pool, s'.role, k) {
      assert PoolAt(s.next, s.pool, s.role, k);
    }
    forall i | s.got <= i <= |s.log| ensures QueueAt(s'.next, s'.log, s'.role, i) {
      assert QueueAt(s.next, s.log, s.role, i);
    }
    forall b | 0 <= b < |s.role| ensures RightRole(s', b) {
      assert RightRole(s, b);
    }
    AllRightRoles(s');
  }

  /** A link is written only to the end of the queue, never to a buffer of the pool. */
  lemma LinkHitsEnd(s: State)
    requires Inv(s) && s.p.Swapped?
    ensures s.tail < |s.role| && s.role[s.tail] == Queued(|s.log|)
  {
    assert QueueAt(s.next, s.log, s.role, |s.log|);
  }

  lemma LinkKeeps(s: State)
    requires Inv(s) && s.p.Swapped? && Safe(s, OpLink)
    ensures Inv(Link(s))
  {
    LinkHitsEnd(s);
    LinkKeepsPool(s);
    LinkKeepsQueue(s);
    LinkKeepsTexts(s);
    LinkKeepsRoles(s);
    var s' := Link(s);
    assert s'.log[..Printed(s)] == s.log[..Printed(s)];
  }

  lemma LinkKeepsPool(s: State)
    requires Inv(s) && s.p.Swapped? && Safe(s, OpLink) && s.role[s.tail] == Queued(|s.log|)
    ensures var s' := Link(s); PoolInv(s'.next, s'.head, s'.pool, s'.role)
  {
    var s' := Link(s);
    forall k | 0 <= k < |s'.pool| ensures PoolAt(s'.next, s'.pool, s'.role, k) {
      assert PoolAt(s.next, s.pool, s.role, k);
    }
  }

  lemma LinkKeepsQueue(s: State)
    requires Inv(s) && s.p.Swapped? && Safe(s, OpLink) && s.role[s.tail] == Queued(|s.log|)
    ensures var s' := Link(s); QueueInv(s'.next, s'.log, s'.got, s'.role)
  {
    var s' := Link(s);
    forall i | s.got <= i <= |s'.log| ensures QueueAt(s'.next, s'.log, s'.role, i) {
      assert i <= |s.log| ==> QueueAt(s.next, s.log, s.role, i) && SlotAt(s'.log, i) == SlotAt(s.log, i);
    }
  }

  lemma LinkKeepsRoles(s: State)
    requires Inv(s) && s.p.Swapped? && Safe(s, OpLink)
    ensures RoleInv(Link(s))
  {
    var s' := Link(s);
    forall b | 0 <= b < |s.role| ensures RightRole(s', b) {
      assert RightRole(s, b);
    }
    AllRightRoles(s');
  }

  lemma LinkKeepsTexts(s: State)
    requires Inv(s) && s.p.Swapped? && Safe(s, OpLink)
    ensures TextInv(Link(s))
  {
    var s' := Link(s);
    assert s'.log[..|s.log|] == s.log;
    forall i | 1 <= i <= |s'.log| && s.got <= i ensures TextAt(s'.bytes, s'.data, s'.log, i) {
      assert i <= |s.log| ==> TextAt(s.bytes, s.data, s.log, i);
    }
  }

  lemma MoveTailKeeps(s: State)
    requires Inv(s) && s.p.Linked?
    ensures Inv(MoveTail(s))
  {
  }

  lemma AnnounceKeeps(s: State)
    requires Inv(s) && s.p.Tailed?
    ensures Inv(Announce(s))
  {
  }

  // ----- The consumer -----

  lemma TakeOverKeeps(s: State)
    requires Inv(s) && s.c.Waiting?
    ensures Inv(TakeOver(s))
  {
  }

  lemma ClaimKeeps(s: State)
    requires Inv(s) && s.c.Waiting? && s.sc > 0
    ensures Inv(Claim(s))
  {
  }

  /** What was counted is linked: the consumer fetches the next of the queue. */
  lemma FetchIsNext(s: State)
    requires Inv(s) && s.c.Claimed? && Safe(s, OpFetch)
    ensures s.got < |s.log| && s.next[s.prev] == s.log[s.got].buffer && s.role[s.prev] == Queued(s.got)
  {
    assert QueueAt(s.next, s.log, s.role, s.got);
  }

  lemma FetchKeeps(s: State)
    requires Inv(s) && s.c.Claimed? && Safe(s, OpFetch)
    ensures Inv(Fetch(s))
  {
    FetchIsNext(s);
    var s' := Fetch(s);
    forall k | 0 <= k < |s'.pool| ensures PoolAt(s'.next, s'.pool, s'.role, k) {
      assert PoolAt(s.next, s.pool, s.role, k);
    }
    forall i | s'.got <= i <= |s.log| ensures QueueAt(s'.next, s'.log, s'.role, i) {
      assert QueueAt(s.next, s.log, s.role, i);
    }
    forall b | 0 <= b < |s.role| ensures RightRole(s', b) {
      assert RightRole(s, b);
    }
    AllRightRoles(s');
  }

  lemma ReadHeadKeeps(s: State)
    requires Inv(s) && s.c.Fetched?
    ensures Inv(ReadHead(s))
  {
  }

  lemma SetLinkKeeps(s: State)
    requires Inv(s) && s.c.HeadRead? && Safe(s, OpSetLink)
    ensures Inv(SetLink(s))
  {
    var s' := SetLink(s);
    forall k | 0 <= k < |s'.pool| ensures PoolAt(s'.next, s'.pool, s'.role, k) {
      assert PoolAt(s.next, s.pool, s.role, k);
    }
    forall i | s.got <= i <= |s.log| ensures QueueAt(s'.next, s'.log, s'.role, i) {
      assert QueueAt(s.next, s.log, s.role, i);
    }
  }

  lemma ReadAgainKeeps(s: State)
    requires Inv(s) && s.c.LinkSet?
    ensures Inv(ReadAgain(s))
  {
  }

  lemma PushKeeps(s: State)
    requires Inv(s) && s.c.LinkSet? && Safe(s, OpPush)
    ensures Inv(Push(s))
  {
    if s.head != s.c.c {
      ReadAgainKeeps(s);
    } else {
      PushKeepsRest(s);
    }
  }

  lemma PushKeepsRest(s: State)
    requires Inv(s) && s.c.LinkSet? && Safe(s, OpPush) && s.head == s.c.c
    ensures Inv(Push(s))
  {
    var s' := Push(s);
    forall k | 0 <= k < |s'.pool| ensures PoolAt(s'.next, s'.pool, s'.role, k) {
      assert k < |s.pool| ==> PoolAt(s.next, s.pool, s.role, k);
      assert s'.pool[..k] == s.pool[..k];
    }
    forall i | s.got <= i <= |s.log| ensures QueueAt(s'.next, s'.log, s'.role, i) {
      assert QueueAt(s.next, s.log, s.role, i);
    }
    forall b | 0 <= b < |s.role| ensures RightRole(s', b) {
      assert RightRole(s, b);
    }
    AllRightRoles(s');
    assert HasToken(s.p) && !s.p.Token? ==> s'.pool[..s.mark] == s.pool[..s.mark];
  }

  lemma ReleaseTokenKeeps(s: State)
    requires Inv(s) && s.c.Pushed?
    ensures Inv(ReleaseToken(s))
  {
    assert s.log[s.got - 1].text[..0] == [];
  }

  lemma PrintByteKeeps(s: State)
    requires Inv(s) && Enabled(s, OpPrintByte) && Safe(s, OpPrintByte)
    ensures Inv(PrintByte(s))
  {
    assert TextAt(s.bytes, s.data, s.log, s.got);
    var text, k := s.log[s.got - 1].text, s.c.k;
    assert text[..k + 1] == text[..k] + [text[k]];
    assert Flatten(s.log[..s.got - 1]) + text[..k + 1] == Flatten(s.log[..s.got - 1]) + text[..k] + [text[k]];
  }

  lemma FinishKeeps(s: State)
    requires Inv(s) && Enabled(s, OpFinish)
    ensures Inv(Finish(s))
  {
    assert TextAt(s.bytes, s.data, s.log, s.got);
    var text := s.log[s.got - 1].text;
    assert text[..s.c.k] == text;
    assert s.log[..s.got][..s.got - 1] == s.log[..s.got - 1];
  }
}
