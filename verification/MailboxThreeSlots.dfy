/**
 With two slots besides the dummy the free stack stays right, however many clients there are: either all is well,
 or the consumer has stopped at a link to no slot and both slots stay queued.
 */
module MailboxThreeSlots {
  import opened Mailbox
  import opened MailboxInvariant
  import opened MailboxSteps
  import opened MailboxConsumer
  import opened MailboxTheorems
  import opened MailboxSoleSender
  import opened MailboxProperties

  /** What a thread has peeked at is still so, if the slot it would pop is free. */
  predicate PeekAt(p: Pc, next: seq<nat>, role: seq<Role>) {
    p.Peeked? && p.top < |role| && p.top < |next| && role[p.top].Free? ==> p.below == next[p.top]
  }

  predicate PeeksStand(pc: seq<Pc>, next: seq<nat>, role: seq<Role>) {
    forall t {:trigger pc[t]} :: 0 <= t < |pc| ==> PeekAt(pc[t], next, role)
  }

  predicate NoneRecycles(pc: seq<Pc>) {
    forall t :: 0 <= t < |pc| ==> !pc[t].Recycling?
  }

  /** Nothing has been received, and the link from the dummy is not written. */
  predicate FirstUnlinked(s: State) {
    s.received == [] && (s.log == [] || LinkPending(s.log[0], 0, s.pc))
  }

  predicate Tight(s: State) {
    && |s.next| == 3
    && PeeksStand(s.pc, s.next, s.role)
    && (s.received == [] ==> NoneRecycles(s.pc))
    && (FirstUnlinked(s) ==> s.next[2] == 3)
  }

  // ----- The consumer stops -----

  predicate Sending(p: Pc) {
    p.Idle? || p.Exchanged? || p.Linked?
  }

  /** The consumer waits for a slot that does not exist; the free stack is empty, and nobody can recycle. */
  predicate Stuck(s: State) {
    && Shaped(s) && |s.next| == 3 && s.top == 2 && s.sem == 0
    && s.pc[0] == Fetched(3)
    && (forall t :: 1 <= t < |s.pc| ==> Sending(s.pc[t]))
    && (forall x :: 0 <= x < 3 ==> !s.flags[x].ready)
  }

  lemma StuckStays(s: State, t: nat, op: Op)
    requires Stuck(s) && Enabled(s, t, op)
    ensures Stuck(Step(s, t, op))
  {
  }

  /** Only the slots 0 and 1 are ever anything but the dummy. */
  lemma TwoSlots(s: State, x: nat)
    requires Inv(s) && |s.next| == 3 && x < 3 && !s.role[x].Retired?
    ensures x == 0 || x == 1
  {
  }

  lemma RequestSlot(s: State, i: nat)
    requires Inv(s) && |s.next| == 3 && i < |s.log| && Live(s.log[i], i, ProgressOf(s), s.given)
    ensures s.log[i].slot < 2 && s.role[s.log[i].slot] == Message(i)
  {
    assert RequestAt(s.log[i], i, ProgressOf(s), s.given, s.role, s.flags, s.kind, s.latest, s.recycled[i]);
  }

  /** The last request received still has its slot, so at most one more is in the queue. */
  lemma OneUnreceived(s: State)
    requires Inv(s) && |s.next| == 3 && s.received != []
    ensures |s.log| <= |s.received| + 1
  {
    var r := |s.received|;
    RequestSlot(s, r - 1);
    if |s.log| >= r + 2 {
      RequestSlot(s, r);
      RequestSlot(s, r + 1);
    }
  }

  /** A fetch that overtakes its link is the first, and finds both slots queued. */
  lemma OvertakenLink(s: State)
    requires Inv(s) && |s.next| == 3 && s.pc[0].Claimed? && !LinkWritten(s)
    ensures s.received == [] && |s.log| == 2 && FirstUnlinked(s)
  {
    var r := |s.received|;
    CounterIsBounded(s);
    if LinkPending(s.log[r], r, s.pc) {
      TotalUpdate(Unannounced, s.pc, s.log[r].sender, Waiting);
    }
    if r > 0 {
      OneUnreceived(s);
    }
  }

  lemma BothQueued(s: State)
    requires Inv(s) && |s.next| == 3 && s.received == [] && |s.log| == 2
    ensures s.free == [] && s.role[0].Message? && s.role[1].Message?
  {
    RequestSlot(s, 0);
    RequestSlot(s, 1);
    if s.free != [] {
      assert s.role[s.free[0]] == Free(0);
      TwoSlots(s, s.free[0]);
    }
  }

  lemma BothQueuedSending(s: State, t: nat)
    requires Inv(s) && Tight(s) && s.received == [] && |s.log| == 2 && 1 <= t < |s.pc|
    ensures Sending(s.pc[t])
  {
    BothQueued(s);
    TotalUpdate(Tokens, s.pc, t, Waiting);
    assert OwnerAt(t, s.pc[t], s.next, s.role, s.flags, s.kind);
    if s.pc[t].Acquired? || s.pc[t].Filled? {
      TwoSlots(s, s.pc[t].x);
    }
  }

  lemma NoneReady(s: State, x: nat)
    requires Inv(s) && |s.next| == 3 && s.received == [] && |s.log| == 2 && s.pc[0].Claimed? && x < 3
    ensures !s.flags[x].ready
  {
    BothQueued(s);
    if x < 2 {
      var i := s.role[x].i;
      assert RequestAt(s.log[i], i, ProgressOf(s), s.given, s.role, s.flags, s.kind, s.latest, s.recycled[i]);
    }
  }

  lemma FetchStops(s: State)
    requires Inv(s) && Tight(s) && s.pc[0].Claimed? && !LinkWritten(s)
    ensures Stuck(Fetch(s))
  {
    OvertakenLink(s);
    BothQueued(s);
    forall t | 1 <= t < |s.pc| ensures Sending(s.pc[t]) {
      BothQueuedSending(s, t);
    }
    forall x | 0 <= x < 3 ensures !s.flags[x].ready {
      NoneReady(s, x);
    }
  }

  // ----- Otherwise all is well -----

  /** While a slot is being recycled the free stack is empty, once a request has been received. */
  lemma RecyclingMeansEmpty(s: State, u: nat)
    requires Inv(s) && |s.next| == 3 && s.received != [] && u < |s.pc| && OwnedBy(s.pc[u]) >= 0
    ensures s.free == []
  {
    RequestSlot(s, |s.received| - 1);
    assert OwnerAt(u, s.pc[u], s.next, s.role, s.flags, s.kind);
    if s.free != [] {
      assert s.role[s.free[0]] == Free(0);
      TwoSlots(s, s.free[0]);
      TwoSlots(s, OwnedBy(s.pc[u]));
    }
  }

  /** So nobody has peeked while another pushes. */
  lemma NonePeeksAtPush(s: State, t: nat, u: nat)
    requires Inv(s) && Tight(s) && t < |s.pc| && u < |s.pc| && s.pc[u].Recycling? && !s.pc[u].stage.Release?
    ensures !s.pc[t].Peeked?
  {
    RecyclingMeansEmpty(s, u);
    TotalUpdate(Tokens, s.pc, t, Waiting);
  }

  /** Only a push makes a slot free. */
  predicate FreesNothing(s: State, s': State) {
    && |s'.role| == |s.role| && |s'.next| == |s.next|
    && forall x :: 0 <= x < |s.role| && s'.role[x].Free? ==> s.role[x].Free?
  }

  lemma StepFreesNothing(s: State, t: nat, op: Op)
    requires Enabled(s, t, op) && !op.OpPush?
    ensures FreesNothing(s, Step(s, t, op))
  {
  }

  lemma PopFreesNothing(s: State, t: nat)
    requires Enabled(s, t, OpPop)
    ensures FreesNothing(s, PopSlot(s, t)) && PopSlot(s, t).next == s.next
  {
  }

  lemma OtherPeekStands(s: State, t: nat, op: Op, s': State, u: nat)
    requires Inv(s) && Tight(s) && Enabled(s, t, op) && s' == Step(s, t, op) && u < |s.pc| && u != t
    ensures PeekAt(s.pc[u], s'.next, s'.role)
  {
    assert PeekAt(s.pc[u], s.next, s.role);
    if op.OpPush? {
      NonePeeksAtPush(s, u, t);
    } else if op.OpPop? {
      PopFreesNothing(s, t);
    } else {
      StepFreesNothing(s, t, op);
      OthersLeaveFreeSlots(s, t, op);
    }
  }

  lemma OwnPeekStands(s: State, t: nat, op: Op)
    requires Enabled(s, t, op)
    ensures PeekAt(Step(s, t, op).pc[t], Step(s, t, op).next, Step(s, t, op).role)
  {
  }

  lemma PeeksStandAfter(s: State, t: nat, op: Op, s': State)
    requires Inv(s) && Tight(s) && Enabled(s, t, op) && s' == Step(s, t, op)
    ensures PeeksStand(s'.pc, s'.next, s'.role)
  {
    StepHasShape(s, t, op);
    forall u | 0 <= u < |s'.pc| ensures PeekAt(s'.pc[u], s'.next, s'.role) {
      if u == t {
        OwnPeekStands(s, t, op);
      } else {
        OtherPeekStands(s, t, op, s', u);
      }
    }
  }

  /** Nothing is recycled before something is received: no request is ready. */
  lemma NoneRecyclesAfter(s: State, t: nat, op: Op, s': State)
    requires Inv(s) && NoneRecycles(s.pc) && Enabled(s, t, op) && StepShape(s, t, op, s') && s' == Step(s, t, op)
    requires s.received == [] == s'.received
    ensures NoneRecycles(s'.pc)
  {
    if op.OpDiscard? {
      HandleStaysGood(s, op.i);
    }
  }

  lemma ReceivedStays(s: State, t: nat, op: Op)
    requires Enabled(s, t, op)
    ensures s.received <= Step(s, t, op).received
  {
  }

  lemma FirstUnlinkedBefore(s: State, t: nat, op: Op, s': State)
    requires Enabled(s, t, op) && StepShape(s, t, op, s') && s' == Step(s, t, op) && FirstUnlinked(s')
    ensures FirstUnlinked(s)
  {
    if s.log != [] {
      assert s'.log[0] == s.log[0];
    }
  }

  lemma OnlyLinksWrite(s: State, t: nat, op: Op)
    requires Enabled(s, t, op) && !op.OpLink? && !op.OpRecycleLink?
    ensures Step(s, t, op).next == s.next
  {
  }

  /** The link from the dummy is written by the first sender only. */
  lemma LinkElsewhere(s: State, t: nat)
    requires Inv(s) && Tight(s) && Enabled(s, t, OpLink) && FirstUnlinked(Link(s, t))
    ensures s.pc[t].p != 2
  {
    var i := s.pc[t].i;
    assert SenderAt(t, s.pc[t], s.log, |s.received|, Dummy(s.next));
    if i > 0 {
      RequestSlot(s, i - 1);
    }
  }

  lemma DummyLinkStays(s: State, t: nat, op: Op, s': State)
    requires Inv(s) && Tight(s) && Enabled(s, t, op) && StepShape(s, t, op, s') && s' == Step(s, t, op)
    requires FirstUnlinked(s') && |s'.next| == 3
    ensures s'.next[2] == 3
  {
    FirstUnlinkedBefore(s, t, op, s');
    if op.OpLink? {
      LinkElsewhere(s, t);
    } else {
      OnlyLinksWrite(s, t, op);
    }
  }

  lemma TightDisciplined(s: State, t: nat, op: Op)
    requires Inv(s) && Tight(s) && Enabled(s, t, op) && (op.OpFetch? ==> LinkWritten(s))
    ensures Disciplined(s, t, op)
  {
    if op.OpPop? {
      assert PeekAt(s.pc[t], s.next, s.role);
      TokenMeansSlot(s, t);
    }
  }

  lemma SlotsStay(s: State, t: nat, op: Op)
    requires Enabled(s, t, op)
    ensures |Step(s, t, op).next| == |s.next|
  {
  }

  lemma StaysTight(s: State, t: nat, op: Op, s': State)
    requires Inv(s) && Tight(s) && Enabled(s, t, op) && s' == Step(s, t, op)
    ensures Tight(s')
  {
    SlotsStay(s, t, op);
    StepHasShape(s, t, op);
    PeeksStandAfter(s, t, op, s');
    ReceivedStays(s, t, op);
    if s'.received == [] {
      NoneRecyclesAfter(s, t, op, s');
    }
    if FirstUnlinked(s') {
      DummyLinkStays(s, t, op, s');
    }
  }

  lemma TightStep(s: State, t: nat, op: Op, s': State)
    requires Inv(s) && Tight(s) && Enabled(s, t, op) && s' == Step(s, t, op)
    ensures (Inv(s') && Tight(s')) || Stuck(s')
  {
    if op.OpFetch? && !LinkWritten(s) {
      FetchStops(s);
    } else {
      TightDisciplined(s, t, op);
      StepKeeps(s, t, op);
      StaysTight(s, t, op, s');
    }
  }

  /** With two slots besides the dummy, every run ends well or with the consumer stopped. */
  lemma {:induction false} ThreeSlotsEnd(s: State, moves: seq<Move>)
    requires (Inv(s) && Tight(s)) || Stuck(s)
    requires IsRun(s, moves)
    ensures Inv(StateAfter(s, moves)) || Stuck(StateAfter(s, moves))
    decreases |moves|
  {
    if moves != [] {
      var t, op := moves[0].thread, moves[0].op;
      if Stuck(s) {
        StuckStays(s, t, op);
      } else {
        TightStep(s, t, op, Step(s, t, op));
      }
      ThreeSlotsEnd(Step(s, t, op), moves[1..]);
    }
  }
}
