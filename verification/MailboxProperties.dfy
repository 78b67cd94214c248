/**
 What the invariant says, in the terms a user of the mailbox would choose.
 */
module MailboxProperties {
  import opened Mailbox
  import opened MailboxInvariant
  import opened MailboxSteps
  import opened MailboxConsumer
  import opened MailboxTheorems
  import opened MailboxSoleSender

  // ----- Every slot is in exactly one place -----

  predicate InStack(s: State, x: nat) {
    x in s.free
  }

  predicate HeldByThread(s: State, x: nat) {
    exists t :: 0 <= t < |s.pc| && OwnedBy(s.pc[t]) == x
  }

  /** The slot of a request in the queue, not received yet. */
  predicate InQueue(s: State, x: nat) {
    exists i :: |s.received| <= i < |s.log| && s.log[i].slot == x
  }

  /** The slot of a request received, and not yet recycled. */
  predicate AwaitsRecycling(s: State, x: nat)
    requires |s.pc| > 0
  {
    exists i :: 0 <= i < |s.log| && i < |s.received| && s.log[i].slot == x && Live(s.log[i], i, ProgressOf(s), s.given)
  }

  function Places(s: State, x: nat): nat
    requires |s.pc| > 0
  {
    (if InStack(s, x) then 1 else 0) + (if HeldByThread(s, x) then 1 else 0)
    + (if InQueue(s, x) then 1 else 0) + (if AwaitsRecycling(s, x) then 1 else 0)
    + (if x == Dummy(s.next) then 1 else 0)
  }

  lemma PlacesFollowRole(s: State, x: nat)
    requires Inv(s) && x < |s.next|
    ensures InStack(s, x) <==> s.role[x].Free?
    ensures HeldByThread(s, x) <==> s.role[x].Owned?
    ensures InQueue(s, x) <==> s.role[x].Message? && s.role[x].i >= |s.received|
    ensures AwaitsRecycling(s, x) <==> s.role[x].Message? && s.role[x].i < |s.received|
    ensures x == Dummy(s.next) <==> s.role[x].Retired?
  {
    if InStack(s, x) {
      var k :| 0 <= k < |s.free| && s.free[k] == x;
      assert s.role[s.free[k]] == Free(k);
    }
    if HeldByThread(s, x) {
      var t :| 0 <= t < |s.pc| && OwnedBy(s.pc[t]) == x;
      assert OwnerAt(t, s.pc[t], s.next, s.role, s.flags, s.kind);
    }
    forall i | 0 <= i < |s.log| && s.log[i].slot == x && Live(s.log[i], i, ProgressOf(s), s.given)
      ensures s.role[x] == Message(i)
    {
      assert RequestAt(s.log[i], i, ProgressOf(s), s.given, s.role, s.flags, s.kind, s.latest, s.recycled[i]);
    }
  }

  lemma EverySlotOnce(s: State, x: nat)
    requires Inv(s) && x < |s.next|
    ensures Places(s, x) == 1
  {
    PlacesFollowRole(s, x);
  }

  /** No two threads, no two positions of the stack and no two live requests share a slot. */
  lemma NothingShared(s: State)
    requires Inv(s)
    ensures forall t, u :: 0 <= t < u < |s.pc| && OwnedBy(s.pc[t]) >= 0 ==> OwnedBy(s.pc[t]) != OwnedBy(s.pc[u])
    ensures forall j, k :: 0 <= j < k < |s.free| ==> s.free[j] != s.free[k]
    ensures forall i, j :: 0 <= i < j < |s.log| && Live(s.log[i], i, ProgressOf(s), s.given) ==> s.log[i].slot != s.log[j].slot
  {
    OwnersDiffer(s.pc, s.next, s.role, s.flags, s.kind);
    forall i, j | 0 <= i < j < |s.log| && Live(s.log[i], i, ProgressOf(s), s.given)
      ensures s.log[i].slot != s.log[j].slot
    {
      NotReusedAfter(s, i, j);
    }
  }

  lemma OwnersDiffer(pc: seq<Pc>, next: seq<nat>, role: seq<Role>, flags: seq<Flags>, kind: seq<nat>)
    requires OwnerInv(pc, next, role, flags, kind)
    ensures forall t, u :: 0 <= t < u < |pc| && OwnedBy(pc[t]) >= 0 ==> OwnedBy(pc[t]) != OwnedBy(pc[u])
  {
    forall t, u | 0 <= t < u < |pc| && OwnedBy(pc[t]) >= 0 ensures OwnedBy(pc[t]) != OwnedBy(pc[u]) {
      assert OwnerAt(t, pc[t], next, role, flags, kind) && OwnerAt(u, pc[u], next, role, flags, kind);
    }
  }

  lemma NotReusedAfter(s: State, i: nat, j: nat)
    requires SlotsInv(s) && i < j < |s.log| && Live(s.log[i], i, ProgressOf(s), s.given)
    ensures s.log[i].slot != s.log[j].slot
  {
    assert RequestAt(s.log[i], i, ProgressOf(s), s.given, s.role, s.flags, s.kind, s.latest, s.recycled[i]);
    assert RequestAt(s.log[j], j, ProgressOf(s), s.given, s.role, s.flags, s.kind, s.latest, s.recycled[j]);
  }

  // ----- The free stack -----

  /** The slot reached from x over n links. */
  function Follow(next: seq<nat>, x: nat, n: nat): nat
    decreases n
  {
    if n == 0 || x >= |next| then x else Follow(next, next[x], n - 1)
  }

  /** The links lead from the top through the whole stack, and end at the marker. */
  lemma {:induction false} StackIsChain(free: seq<nat>, top: nat, next: seq<nat>, role: seq<Role>, flags: seq<Flags>, n: nat)
    requires StackInv(free, top, next, role, flags) && n <= |free| && 0 < |next|
    ensures Follow(next, top, n) == if n < |free| then free[|free| - 1 - n] else Dummy(next)
  {
    ChainFrom(free, top, next, role, flags, |free|, n);
  }

  lemma {:induction false} ChainFrom(free: seq<nat>, top: nat, next: seq<nat>, role: seq<Role>, flags: seq<Flags>, k: nat, n: nat)
    requires StackInv(free, top, next, role, flags) && n <= k <= |free| && 0 < |next|
    ensures Follow(next, if k == 0 then Dummy(next) else free[k - 1], n) == if n < k then free[k - 1 - n] else Dummy(next)
  {
    if n > 0 {
      ChainFrom(free, top, next, role, flags, k - 1, n - 1);
    }
  }

  /** Length of the free stack: free tokens, plus popping threads, plus pushed but unreleased slots. */
  lemma TokensAccountForStack(s: State)
    requires Inv(s)
    ensures |s.free| == s.sem + Total(Tokens, s.pc)
    ensures s.sem > 0 ==> s.free != [] && s.top != Dummy(s.next)
  {
    if s.free != [] {
      assert s.role[s.free[|s.free| - 1]].Free? && s.role[Dummy(s.next)].Retired?;
    }
  }

  // ----- The queue -----

  /** The links lead from the last received request through the next n, in exchange order, if they are written. */
  lemma {:induction false} QueueIsChain(log: seq<Entry>, r: nat, last: nat, next: seq<nat>, pc: seq<Pc>, from: nat, n: nat)
    requires QueueInv(log, r, last, next, pc) && 0 < |next| && r <= from <= |log| - n
    requires forall i :: from <= i < from + n ==> !LinkPending(log[i], i, pc)
    ensures var start := SlotAt(log, from - 1, Dummy(next));
            start >= 0 && Follow(next, start, n) == SlotAt(log, from + n - 1, Dummy(next))
    decreases n
  {
    if n > 0 {
      QueueIsChain(log, r, last, next, pc, from + 1, n - 1);
      assert !LinkPending(log[from], from, pc) && LinkedAt(log, from, next);
    }
  }

  // ----- Links in flight -----

  /** A link that is still to be written goes to a slot that is neither free nor held by a thread. */
  lemma PendingLinkHitsQueue(s: State, t: nat)
    requires Inv(s) && t < |s.pc| && s.pc[t].Exchanged?
    ensures s.pc[t].p < |s.next| && (InQueue(s, s.pc[t].p) || AwaitsRecycling(s, s.pc[t].p) || s.pc[t].p == Dummy(s.next))
    ensures !InStack(s, s.pc[t].p) && !HeldByThread(s, s.pc[t].p)
  {
    assert SenderAt(t, s.pc[t], s.log, |s.received|, Dummy(s.next));
    PredecessorBusy(s, s.pc[t].i);
    PlacesFollowRole(s, s.pc[t].p);
  }

  // ----- Handles and flags -----

  /** Until its handle is discarded, a request of a notify kind keeps its slot, no later request
      uses that slot, and the READY flag a waiter sees there says that this very request was handled. */
  lemma HandleStaysGood(s: State, i: nat)
    requires Inv(s) && i in s.handles
    ensures i < |s.log| && s.log[i].slot < |s.flags|
    ensures Live(s.log[i], i, ProgressOf(s), s.given) && s.recycled[i] == 0
    ensures s.flags[s.log[i].slot].ready <==> i < ProgressOf(s).acted
    ensures forall j :: i < j < |s.log| ==> s.log[j].slot != s.log[i].slot
  {
    assert RequestAt(s.log[i], i, ProgressOf(s), s.given, s.role, s.flags, s.kind, s.latest, s.recycled[i]);
    forall j | i < j < |s.log| ensures s.log[j].slot != s.log[i].slot {
      NotReusedAfter(s, i, j);
    }
  }

  /** Somebody may wait for request i: its kind notifies the sender, and the call that sent it has returned. */
  predicate MayWait(s: State, i: nat)
    requires i < |s.log|
  {
    var t := s.log[i].sender;
    ActionOf(s.log[i].kind).NotifySender? && t < |s.pc| && s.pc[t] != Linked(i) && !(s.pc[t].Exchanged? && s.pc[t].i == i)
  }

  /** Exactly those requests have a handle, held or given up. */
  ghost predicate HandlesExact(s: State) {
    forall i {:trigger MayWait(s, i)} :: 0 <= i < |s.log| ==> (MayWait(s, i) <==> i in s.handles || i in s.given)
  }

  /** A client that is idle can give up any of them that has not been given up. */
  predicate HandlesUsable(s: State) {
    forall t, i {:trigger Enabled(s, t, OpDiscard(i))} ::
      0 < t < |s.pc| && s.pc[t].Idle? && 0 <= i < |s.log| && MayWait(s, i) && i !in s.given ==> Enabled(s, t, OpDiscard(i))
  }

  lemma HandlesExactly(s: State)
    requires Inv(s)
    ensures HandlesExact(s)
  {
    forall i | 0 <= i < |s.log| ensures MayWait(s, i) <==> i in s.handles || i in s.given {
      assert MayWait(s, i) <==> HandedOut(s.log, i, s.pc);
    }
  }

  lemma HandlesAreUsable(s: State)
    requires Inv(s)
    ensures HandlesUsable(s)
  {
    HandlesExactly(s);
    forall t, i | 0 < t < |s.pc| && s.pc[t].Idle? && 0 <= i < |s.log| && MayWait(s, i) && i !in s.given
      ensures Enabled(s, t, OpDiscard(i))
    {
      HandleStaysGood(s, i);
    }
  }

  /** A slot that a sender has popped has fresh flags and is nobody else's. */
  lemma AcquiredIsFresh(s: State, t: nat)
    requires Inv(s) && t < |s.pc| && (s.pc[t].Acquired? || s.pc[t].Filled?)
    ensures s.pc[t].x < |s.flags| && s.flags[s.pc[t].x] == FRESH
    ensures !InStack(s, s.pc[t].x) && !InQueue(s, s.pc[t].x) && !AwaitsRecycling(s, s.pc[t].x)
  {
    assert OwnerAt(t, s.pc[t], s.next, s.role, s.flags, s.kind);
    PlacesFollowRole(s, s.pc[t].x);
  }

  // ----- Recycling -----

  /** A request's slot is recycled once when the request has been handled, given up and the next one
      received; before that it has not been recycled. */
  lemma RecycledExactlyOnce(s: State, i: nat)
    requires Inv(s) && i < |s.log|
    ensures s.recycled[i] ==
              if i < ProgressOf(s).acted && i < ProgressOf(s).unlocked && GivenUp(s.log[i], i, ProgressOf(s), s.given) then 1 else 0
  {
    assert RequestAt(s.log[i], i, ProgressOf(s), s.given, s.role, s.flags, s.kind, s.latest, s.recycled[i]);
  }

  /** In the consumer loop the recycler is the unlock; otherwise it is the sender's discard. */
  lemma RecyclerIsUnlockOrDiscard(s: State, t: nat, op: Op, i: nat)
    requires Inv(s) && Enabled(s, t, op) && i < |s.log|
    requires |Step(s, t, op).recycled| > i && Step(s, t, op).recycled[i] != s.recycled[i]
    ensures op == OpDiscard(i) || (op.OpUnlock? && t == 0 && i == |s.received| - 2)
  {
    match op
    case OpAct => ActSlots(s);
    case OpDiscard(j) => DiscardRecyclesOne(s, t, j, i);
    case OpUnlock => UnlockRecyclesOne(s, i);
    case _ => OthersRecycleNothing(s, t, op);
  }

  lemma DiscardRecyclesOne(s: State, t: nat, j: nat, i: nat)
    requires Enabled(s, t, OpDiscard(j)) && i < |s.log|
    ensures |Discard(s, t, j).recycled| == |s.recycled| && (i != j ==> Discard(s, t, j).recycled[i] == s.recycled[i])
  {
  }

  lemma UnlockRecyclesOne(s: State, i: nat)
    requires Enabled(s, 0, OpUnlock) && i < |s.log|
    ensures |Unlock(s).recycled| == |s.recycled|
    ensures i != |s.received| - 2 ==> Unlock(s).recycled[i] == s.recycled[i]
  {
  }

  lemma OthersRecycleNothing(s: State, t: nat, op: Op)
    requires Enabled(s, t, op) && !op.OpAct? && !op.OpDiscard? && !op.OpUnlock?
    ensures s.recycled <= Step(s, t, op).recycled
  {
  }

  // ----- Order -----

  /** The consumer receives the slots in the order of the exchanges. */
  lemma ReceivedInOrder(s: State)
    requires Inv(s)
    ensures |s.received| <= |s.log| && forall i :: 0 <= i < |s.received| ==> s.received[i] == s.log[i].slot
  {
  }

  /** Slots of the requests from lo up to hi. */
  function SlotsOf(log: seq<Entry>, lo: nat, hi: nat): set<nat>
    requires lo <= hi <= |log|
  {
    if lo == hi then {} else SlotsOf(log, lo, hi - 1) + {log[hi - 1].slot}
  }

  lemma {:induction false} NotAmong(log: seq<Entry>, lo: nat, hi: nat, x: nat)
    requires lo <= hi <= |log| && forall i :: lo <= i < hi ==> log[i].slot != x
    ensures x !in SlotsOf(log, lo, hi)
  {
    if lo < hi {
      NotAmong(log, lo, hi - 1, x);
    }
  }

  lemma {:induction false} AllBelow(log: seq<Entry>, lo: nat, hi: nat, n: nat)
    requires lo <= hi <= |log| && forall i :: lo <= i < hi ==> log[i].slot < n
    ensures forall x :: x in SlotsOf(log, lo, hi) ==> x < n
  {
    if lo < hi {
      AllBelow(log, lo, hi - 1, n);
    }
  }

  lemma {:induction false} DistinctSlotsCount(log: seq<Entry>, lo: nat, hi: nat)
    requires lo <= hi <= |log|
    requires forall i, j :: lo <= i < j < hi ==> log[i].slot != log[j].slot
    ensures |SlotsOf(log, lo, hi)| == hi - lo
  {
    if lo < hi {
      DistinctSlotsCount(log, lo, hi - 1);
      NotAmong(log, lo, hi - 1, log[hi - 1].slot);
    }
  }

  lemma {:induction false} BoundedSet(xs: set<nat>, n: nat)
    requires forall x :: x in xs ==> x < n
    ensures |xs| <= n
  {
    if n == 0 {
      assert xs == {};
    } else {
      BoundedSet(xs - {n - 1}, n - 1);
    }
  }

  /** The message counter never exceeds the number of slots but one, so 32 bits are enough for it. */
  lemma CounterIsBounded(s: State)
    requires Inv(s)
    ensures s.mp + s.sc <= |s.log| - |s.received| <= |s.next| - 1
  {
    var r := |s.received|;
    NothingShared(s);
    forall i | r <= i < |s.log| ensures s.log[i].slot < |s.next| - 1 && Live(s.log[i], i, ProgressOf(s), s.given) {
      assert RequestAt(s.log[i], i, ProgressOf(s), s.given, s.role, s.flags, s.kind, s.latest, s.recycled[i]);
    }
    UnreceivedBounded(s.log, r, |s.next| - 1);
  }

  lemma UnreceivedBounded(log: seq<Entry>, r: nat, n: nat)
    requires r <= |log|
    requires forall i, j :: r <= i < j < |log| ==> log[i].slot != log[j].slot
    requires forall i :: r <= i < |log| ==> log[i].slot < n
    ensures |log| - r <= n
  {
    DistinctSlotsCount(log, r, |log|);
    AllBelow(log, r, |log|, n);
    BoundedSet(SlotsOf(log, r, |log|), n);
  }

  // ----- The counter and the links -----

  /** How many of the requests from lo up to hi are not linked yet. */
  function PendingLinks(log: seq<Entry>, pc: seq<Pc>, lo: nat, hi: nat): nat
    requires lo <= hi <= |log|
  {
    if lo == hi then 0 else PendingLinks(log, pc, lo, hi - 1) + if LinkPending(log[hi - 1], hi - 1, pc) then 1 else 0
  }

  /** Taking a pending sender out of the threads takes exactly its request out of the pending links. */
  lemma {:induction false} PendingLinksWithout(log: seq<Entry>, pc: seq<Pc>, lo: nat, hi: nat, t: nat)
    requires lo <= hi <= |log| && t < |pc| && (pc[t].Exchanged? ==> pc[t].i >= hi)
    ensures PendingLinks(log, pc[t := Idle], lo, hi) == PendingLinks(log, pc, lo, hi)
  {
    if lo < hi {
      PendingLinksWithout(log, pc, lo, hi - 1, t);
    }
  }

  lemma {:induction false} PendingLinksBounded(log: seq<Entry>, pc: seq<Pc>, lo: nat, hi: nat)
    requires lo <= hi <= |log|
    ensures PendingLinks(log, pc, lo, hi) <= Total(Unannounced, pc)
    decreases hi
  {
    if lo < hi {
      if LinkPending(log[hi - 1], hi - 1, pc) {
        var t := log[hi - 1].sender;
        PendingLinksWithout(log, pc, lo, hi - 1, t);
        PendingLinksBounded(log, pc[t := Idle], lo, hi - 1);
        TotalUpdate(Unannounced, pc, t, Idle);
      } else {
        PendingLinksBounded(log, pc, lo, hi - 1);
      }
    }
  }

  /** The message counter never exceeds the number of linked requests that are not yet received. */
  lemma CounterBelowLinked(s: State)
    requires Inv(s)
    ensures s.mp + s.sc <= |s.log| - |s.received| - PendingLinks(s.log, s.pc, |s.received|, |s.log|)
  {
    PendingLinksBounded(s.log, s.pc, |s.received|, |s.log|);
  }

  // ----- No step reaches outside the slots -----

  /** Thread t is where it can do op, whatever slot numbers it has read. */
  predicate Ready(s: State, t: nat, op: Op) {
    && t < |s.pc|
    && var p := s.pc[t];
       match op
       case OpPeek => t > 0 && p.Loaded?
       case OpPop => t > 0 && p.Peeked? && s.top == p.top
       case OpFill(kind) => t > 0 && p.Acquired? && Serviceable(kind)
       case OpExchange => t > 0 && p.Filled?
       case OpLink => t > 0 && p.Exchanged?
       case OpAnnounce => t > 0 && p.Linked?
       case OpDiscard(i) => t > 0 && p.Idle? && i in s.handles
       case OpClear => p.Recycling? && p.stage.Clear?
       case OpRecycleLink => p.Recycling? && p.stage.WriteLink?
       case OpPush => p.Recycling? && p.stage.Swing? && s.top == p.stage.top
       case OpFetch => t == 0 && p.Claimed?
       case OpLock => t == 0 && p.Fetched?
       case OpUnlock => t == 0 && p.Locked?
       case OpAct => t == 0 && p.Handling?
       case _ => Enabled(s, t, op)
  }

  lemma ReadyIsEnabled(s: State, t: nat, op: Op)
    requires Inv(s) && Ready(s, t, op)
    ensures Enabled(s, t, op) && (op.OpPop? ==> s.top != Dummy(s.next))
  {
    assert OwnerAt(t, s.pc[t], s.next, s.role, s.flags, s.kind) && SenderAt(t, s.pc[t], s.log, |s.received|, Dummy(s.next));
    match op
    case OpPop => TokenMeansSlot(s, t);
    case OpLink => PendingLinkHitsQueue(s, t);
    case OpDiscard(i) => HandleStaysGood(s, i);
    case OpFetch | OpLock | OpUnlock | OpAct => ConsumerInside(s);
    case _ =>
  }

  /** The consumer's slot numbers are slots. */
  lemma ConsumerInside(s: State)
    requires SlotsInv(s) && ConsumerInv(s.pc[0], s.prev, s.received, s.log, Dummy(s.next))
    ensures s.pc[0].Claimed? || s.pc[0].Locked? ==> s.prev < |s.next|
    ensures s.pc[0].Fetched? || s.pc[0].Handling? ==> s.pc[0].n < |s.next|
  {
    var r := |s.received|;
    assert r > 0 ==> RequestAt(s.log[r - 1], r - 1, ProgressOf(s), s.given, s.role, s.flags, s.kind, s.latest, s.recycled[r - 1]);
    assert r > 1 ==> RequestAt(s.log[r - 2], r - 2, ProgressOf(s), s.given, s.role, s.flags, s.kind, s.latest, s.recycled[r - 2]);
  }

  // ----- All together, for one sender -----

  lemma {:induction false} HoldsAtEnd(s: State, moves: seq<Move>)
    requires IsRun(s, moves) && HoldsAlong(s, moves)
    ensures Inv(StateAfter(s, moves))
    decreases |moves|
  {
    if moves != [] {
      HoldsAtEnd(Step(s, moves[0].thread, moves[0].op), moves[1..]);
    }
  }

  /** With one sending thread, wherever a run of the mailbox leads: every slot is in one place, what was received
      is what was queued, in order, nothing was recycled twice, no request whose handle is held was recycled, and exactly
      the requests sent of a notify kind have a handle, which can be given up. */
  lemma SoleSenderSafety(slotCount: nat, clients: nat, t0: nat, moves: seq<Move>)
    requires slotCount > 0 && 0 < t0 <= clients
    requires IsRun(Init(slotCount, clients), moves) && SentBy(moves, t0)
    ensures var s := StateAfter(Init(slotCount, clients), moves);
            && Inv(s)
            && (forall x :: 0 <= x < |s.next| ==> Places(s, x) == 1)
            && |s.received| <= |s.log| && (forall i :: 0 <= i < |s.received| ==> s.received[i] == s.log[i].slot)
            && (forall i :: 0 <= i < |s.log| ==> s.recycled[i] <= if i in s.handles then 0 else 1)
            && HandlesExact(s) && HandlesUsable(s)
  {
    SoleSenderFromStart(slotCount, clients, t0, moves);
    HoldsAtEnd(Init(slotCount, clients), moves);
    SafeAt(StateAfter(Init(slotCount, clients), moves));
  }

  lemma SafeAt(s: State)
    requires Inv(s)
    ensures forall x :: 0 <= x < |s.next| ==> Places(s, x) == 1
    ensures |s.received| <= |s.log| && (forall i :: 0 <= i < |s.received| ==> s.received[i] == s.log[i].slot)
    ensures forall i :: 0 <= i < |s.log| ==> s.recycled[i] <= if i in s.handles then 0 else 1
    ensures HandlesExact(s) && HandlesUsable(s)
  {
    HandlesAreUsable(s);
    HandlesExactly(s);
    forall x | 0 <= x < |s.next| ensures Places(s, x) == 1 {
      EverySlotOnce(s, x);
    }
    forall i | 0 <= i < |s.log| ensures s.recycled[i] <= if i in s.handles then 0 else 1 {
      RecycledExactlyOnce(s, i);
      if i in s.handles {
        HandleStaysGood(s, i);
      }
    }
  }
}
