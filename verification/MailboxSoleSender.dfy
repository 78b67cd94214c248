/**
 With one sending thread and any number of discarding threads, no run needs an assumption:
 every pop installs the true successor and the consumer never overtakes a link.
 */
module MailboxSoleSender {
  import opened Mailbox
  import opened MailboxInvariant
  import opened MailboxSteps
  import opened MailboxConsumer
  import opened MailboxTheorems

  /** What the sender has read of the free stack is still so. */
  predicate ReadsStand(s: State, t0: nat) {
    && t0 < |s.pc|
    && match s.pc[t0]
       case Loaded(top) => top < |s.role| && s.role[top].Free?
       case Peeked(top, below) => top < |s.role| && top < |s.next| && s.role[top].Free? && below == s.next[top]
       case _ => true
  }

  /** Thread t0 is the only one that has ever sent. */
  predicate Sole(s: State, t0: nat) {
    && 0 < t0 < |s.pc|
    && ReadsStand(s, t0)
    && (forall t :: 1 <= t < |s.pc| && t != t0 ==> s.pc[t].Idle? || s.pc[t].Recycling?)
    && (forall i :: 0 <= i < |s.log| ==> s.log[i].sender == t0)
  }

  /** Slots in the free stack keep their link and their place until they are popped. */
  predicate FreeSlotsStay(s: State, s': State) {
    && |s.role| == |s'.role| == |s.next| == |s'.next|
    && (forall x :: 0 <= x < |s.role| && s.role[x].Free? ==> s'.role[x] == s.role[x] && s'.next[x] == s.next[x])
  }

  lemma SenderLeavesFreeSlots(s: State, t: nat, op: Op)
    requires Inv(s) && Enabled(s, t, op) && !InRecycling(op) && !InConsumer(op) && !op.OpPop? && !op.OpDiscard?
    ensures FreeSlotsStay(s, Step(s, t, op))
  {
    assert OwnerAt(t, s.pc[t], s.next, s.role, s.flags, s.kind);
    if op.OpLink? {
      assert SenderAt(t, s.pc[t], s.log, |s.received|, Dummy(s.next));
      LinkPlaces(s, t);
    }
  }

  lemma DiscardLeavesFreeSlots(s: State, t: nat, i: nat)
    requires Inv(s) && 0 < t < |s.pc| && s.pc[t].Idle? && i in s.handles
    ensures FreeSlotsStay(s, Discard(s, t, i))
  {
    assert RequestAt(s.log[i], i, ProgressOf(s), s.given, s.role, s.flags, s.kind, s.latest, s.recycled[i]);
  }

  lemma RecyclerLeavesFreeSlots(s: State, t: nat, op: Op)
    requires Inv(s) && Enabled(s, t, op) && InRecycling(op)
    ensures FreeSlotsStay(s, Step(s, t, op))
  {
    assert OwnerAt(t, s.pc[t], s.next, s.role, s.flags, s.kind);
  }

  lemma UnlockLeavesFreeSlots(s: State)
    requires SlotsInv(s) && ConsumerInv(s.pc[0], s.prev, s.received, s.log, Dummy(s.next)) && s.pc[0].Locked?
    ensures FreeSlotsStay(s, Unlock(s))
  {
    var r := |s.received|;
    assert r > 1 ==> RequestAt(s.log[r - 2], r - 2, ProgressOf(s), s.given, s.role, s.flags, s.kind, s.latest, s.recycled[r - 2]);
  }

  lemma ConsumerLeavesFreeSlots(s: State, t: nat, op: Op)
    requires Inv(s) && Enabled(s, t, op) && InConsumer(op)
    ensures FreeSlotsStay(s, Step(s, t, op))
  {
    match op
    case OpUnlock => UnlockLeavesFreeSlots(s);
    case OpAct => ActSlots(s);
    case _ =>
  }

  /** The counter speaks of linked requests only: the sole sender's unannounced request is the last. */
  lemma SoleFetchFindsLink(s: State, t0: nat)
    requires Inv(s) && Sole(s, t0) && s.pc[0].Claimed?
    ensures LinkWritten(s)
  {
    var r := |s.received|;
    assert SenderAt(t0, s.pc[t0], s.log, r, Dummy(s.next));
    TotalUpdate(Unannounced, s.pc, t0, s.pc[t0]);
    assert |s.log| > r + 1 ==> s.log[r + 1].sender == t0;
  }

  lemma SoleStepDisciplined(s: State, t0: nat, t: nat, op: Op)
    requires Inv(s) && Sole(s, t0) && Enabled(s, t, op)
    ensures Disciplined(s, t, op)
  {
    if op.OpFetch? {
      SoleFetchFindsLink(s, t0);
    }
  }

  lemma OthersLeaveFreeSlots(s: State, t: nat, op: Op)
    requires Inv(s) && Enabled(s, t, op) && !op.OpPop?
    ensures FreeSlotsStay(s, Step(s, t, op))
  {
    if InRecycling(op) {
      RecyclerLeavesFreeSlots(s, t, op);
    } else if InConsumer(op) {
      ConsumerLeavesFreeSlots(s, t, op);
    } else if op.OpDiscard? {
      DiscardLeavesFreeSlots(s, t, op.i);
    } else {
      SenderLeavesFreeSlots(s, t, op);
    }
  }

  /** What a step may do to the threads and to the order of sends. */
  predicate StepShape(s: State, t: nat, op: Op, s': State)
    requires t < |s.pc|
  {
    && |s'.pc| == |s.pc| && s'.pc == s.pc[t := s'.pc[t]]
    && (!op.OpExchange? ==> s'.log == s.log)
    && (op.OpExchange? ==> |s'.log| == |s.log| + 1 && s'.log[..|s.log|] == s.log && s'.log[|s.log|].sender == t)
    && (op.OpDiscard? || op.OpAnnounce? || InRecycling(op) ==> s'.pc[t].Idle? || s'.pc[t].Recycling? || t == 0)
  }

  lemma StepHasShape(s: State, t: nat, op: Op)
    requires ThreadsInv(s.pc) && Enabled(s, t, op)
    ensures StepShape(s, t, op, Step(s, t, op))
  {
    assert s.pc == s.pc[0 := s.pc[0]];
  }

  /** Steps of threads other than the sender. */
  lemma OthersKeepSole(s: State, t0: nat, t: nat, op: Op)
    requires Inv(s) && Sole(s, t0) && Enabled(s, t, op) && t != t0 && !op.OpAcquireToken?
    ensures Sole(Step(s, t, op), t0)
  {
    var s' := Step(s, t, op);
    assert t > 0 ==> s.pc[t].Idle? || s.pc[t].Recycling?;
    OthersLeaveFreeSlots(s, t, op);
    StepHasShape(s, t, op);
    SoleFromShape(s, t0, t, op, s');
  }

  lemma SoleFromShape(s: State, t0: nat, t: nat, op: Op, s': State)
    requires Sole(s, t0) && t < |s.pc| && t != t0 && FreeSlotsStay(s, s') && StepShape(s, t, op, s')
    requires !op.OpExchange? && (t > 0 ==> op.OpDiscard? || op.OpAnnounce? || InRecycling(op))
    ensures Sole(s', t0)
  {
  }

  /** Steps of the sender itself. */
  lemma SenderKeepsSole(s: State, t0: nat, op: Op)
    requires Inv(s) && Sole(s, t0) && Enabled(s, t0, op)
    ensures Sole(Step(s, t0, op), t0)
  {
    var s' := Step(s, t0, op);
    StepHasShape(s, t0, op);
    SenderReadsStand(s, t0, op);
    forall i | 0 <= i < |s'.log| ensures s'.log[i].sender == t0 {
      assert i < |s.log| ==> s'.log[i] == s'.log[..|s.log|][i];
    }
  }

  lemma ReadsNothing(s: State, t: nat, op: Op)
    requires Enabled(s, t, op) && !op.OpLoadTop? && !op.OpPopFails? && !op.OpPeek?
    ensures !Step(s, t, op).pc[t].Loaded? && !Step(s, t, op).pc[t].Peeked?
  {
  }

  lemma SenderReadsStand(s: State, t0: nat, op: Op)
    requires Inv(s) && ReadsStand(s, t0) && Enabled(s, t0, op)
    ensures ReadsStand(Step(s, t0, op), t0)
  {
    if op.OpLoadTop? || op.OpPopFails? {
      TokenMeansSlot(s, t0);
    } else if !op.OpPeek? {
      ReadsNothing(s, t0, op);
    }
  }

  lemma SoleStepKeeps(s: State, t0: nat, t: nat, op: Op)
    requires Inv(s) && Sole(s, t0) && Enabled(s, t, op) && (op.OpAcquireToken? ==> t == t0)
    ensures Inv(Step(s, t, op)) && Sole(Step(s, t, op), t0)
  {
    SoleStepDisciplined(s, t0, t, op);
    StepKeeps(s, t, op);
    if t == t0 {
      SenderKeepsSole(s, t0, op);
    } else {
      OthersKeepSole(s, t0, t, op);
    }
  }

  /** Only thread t0 starts a send. */
  predicate SentBy(moves: seq<Move>, t0: nat) {
    forall k :: 0 <= k < |moves| && moves[k].op.OpAcquireToken? ==> moves[k].thread == t0
  }

  /** Main result for one sender: the invariant holds along every run, whatever the interleaving. */
  lemma {:induction false} SoleSenderRunKeeps(s: State, t0: nat, moves: seq<Move>)
    requires Inv(s) && Sole(s, t0) && IsRun(s, moves) && SentBy(moves, t0)
    ensures HoldsAlong(s, moves)
    decreases |moves|
  {
    if moves != [] {
      var s' := Step(s, moves[0].thread, moves[0].op);
      SoleStepKeeps(s, t0, moves[0].thread, moves[0].op);
      SentByTail(moves, t0);
      SoleSenderRunKeeps(s', t0, moves[1..]);
    }
  }

  lemma SentByTail(moves: seq<Move>, t0: nat)
    requires moves != [] && SentBy(moves, t0)
    ensures SentBy(moves[1..], t0) && (moves[0].op.OpAcquireToken? ==> moves[0].thread == t0)
  {
  }

  lemma SoleSenderFromStart(slotCount: nat, clients: nat, t0: nat, moves: seq<Move>)
    requires slotCount > 0 && 0 < t0 <= clients
    requires IsRun(Init(slotCount, clients), moves) && SentBy(moves, t0)
    ensures HoldsAlong(Init(slotCount, clients), moves)
  {
    InitHolds(slotCount, clients);
    SoleSenderRunKeeps(Init(slotCount, clients), t0, moves);
  }
}
