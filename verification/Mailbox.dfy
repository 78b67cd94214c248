/**
 The request mailbox of the Quartz process: a fixed array of slots, a lock-free stack of
 free slots, a multi-producer queue of requests, and the three-flag handshake that decides
 who returns a slot to the stack.  One `nextSlot` field per slot threads both structures.

 The model is a step system.  A step is one atomic operation of one thread, or one plain
 write to a slot that the thread owns.  Thread 0 runs the consumer loop; every other thread
 is a client that may send requests and may discard request handles.
 */
module Mailbox {

  // ----- Handshake flags and the actions of the request handlers -----

  datatype Flags = Flags(ready: bool, discarded: bool, notPreserved: bool)

  /** The flags of a slot that has just been returned to the free stack. */
  const FRESH := Flags(false, false, true)

  datatype Action = DoNothing | NotifySender | Destroy

  const KIND_COUNT := 23
  const KIND_KILL := 1

  /** What the handler in the dispatch table returns for each message kind. */
  function ActionOf(kind: nat): Action {
    if kind == 0 || kind == 2 || kind == 4 || kind == 20 then Destroy
    else if kind == KIND_KILL then DoNothing
    else NotifySender
  }

  /** A kind with an entry in the dispatch table that lets the consumer loop go on. */
  predicate Serviceable(kind: nat) {
    kind < KIND_COUNT && kind != KIND_KILL
  }

  // ----- Program counters -----

  /** Where a thread is inside the recycling routine. */
  datatype Stage = Clear | LoadTop | WriteLink(top: nat) | Swing(top: nat) | Release

  /** Where a thread goes on after the recycling routine. */
  datatype Onward = ToIdle | ToUnlocked(n: nat) | ToWaiting

  datatype Pc =
    // clients
    | Idle
    | Token                              // holds a token of the slot semaphore
    | Loaded(top: nat)                   // has read the head of the free stack
    | Peeked(top: nat, below: nat)       // has also read the link of that slot
    | Acquired(x: nat)                   // has popped slot x
    | Filled(x: nat)                     // has written the message kind into x
    | Exchanged(x: nat, p: nat, i: nat)  // has made x the end of the queue; p was the end
    | Linked(i: nat)                     // has linked its slot behind p
    // consumer
    | Waiting
    | Claimed                            // has taken one from the message counter
    | Fetched(n: nat)                    // has read the link of the previous request
    | Locked(n: nat)                     // has cleared NOT_PRESERVED on n
    | Unlocked(n: nat)                   // has set NOT_PRESERVED on the previous request
    | Handling(n: nat)                   // has made n the previous request
    // both
    | Recycling(x: nat, stage: Stage, after: Onward)

  predicate IsClient(p: Pc) {
    match p
    case Idle | Token | Loaded(_) | Peeked(_, _) | Acquired(_) | Filled(_) | Exchanged(_, _, _) | Linked(_) => true
    case Recycling(_, _, after) => after.ToIdle?
    case _ => false
  }

  predicate IsConsumer(p: Pc) {
    match p
    case Waiting | Claimed | Fetched(_) | Locked(_) | Unlocked(_) | Handling(_) => true
    case Recycling(_, _, after) => !after.ToIdle?
    case _ => false
  }

  function Resume(after: Onward): Pc {
    match after
    case ToIdle => Idle
    case ToUnlocked(n) => Unlocked(n)
    case ToWaiting => Waiting
  }

  // ----- State -----

  /** History: who has a slot.  No step reads it. */
  datatype Role =
    | Free(k: nat)     // k-th slot of the free stack, counted from the bottom
    | Owned(t: nat)    // thread t alone may touch it
    | Message(i: nat)  // it carries the i-th request
    | Retired          // the first dummy of the queue

  /** History: one exchange of the queue's end. */
  datatype Entry = Entry(slot: nat, kind: nat, sender: nat)

  datatype State = State(
    // memory
    sem: nat,            // slotSemaphore
    top: nat,            // nextFreeSlot
    last: nat,           // lastQueuedSlot
    mp: nat,             // queuedMessages: what producers have added
    sc: nat,             // queuedMessages: what the consumer has taken over
    prev: nat,           // previousRequest
    next: seq<nat>,      // nextSlot of each slot
    flags: seq<Flags>,
    kind: seq<nat>,
    // threads
    pc: seq<Pc>,
    // history
    role: seq<Role>,
    free: seq<nat>,      // the free stack, bottom first
    log: seq<Entry>,     // the requests in the order of their exchanges
    latest: seq<int>,    // the last request each slot was used for
    received: seq<nat>,  // the slots the consumer has fetched
    handles: set<nat>,   // requests whose sender still holds the handle
    given: set<nat>,     // requests whose handle was discarded
    recycled: seq<nat>   // how often each request's slot was recycled
  )

  function Init(slotCount: nat, clients: nat): State
    requires slotCount > 0
  {
    State(slotCount - 1, 0, slotCount - 1, 0, 0, slotCount - 1,
          seq(slotCount, i requires 0 <= i => i + 1), seq(slotCount, i => FRESH), seq(slotCount, i => 0),
          [Waiting] + seq(clients, i => Idle),
          seq(slotCount, i requires 0 <= i < slotCount => if i == slotCount - 1 then Retired else Free(slotCount - 2 - i)),
          seq(slotCount - 1, k requires 0 <= k < slotCount - 1 => slotCount - 2 - k), [], seq(slotCount, i => -1), [], {}, {}, [])
  }

  // ----- Steps of the sender: acquire a slot, fill it, enqueue it -----

  function AcquireToken(s: State, t: nat): State
    requires 0 < t < |s.pc| && s.sem > 0
  {
    s.(sem := s.sem - 1, pc := s.pc[t := Token])
  }

  function LoadFreeTop(s: State, t: nat): State
    requires 0 < t < |s.pc|
  {
    s.(pc := s.pc[t := Loaded(s.top)])
  }

  function Peek(s: State, t: nat): State
    requires 0 < t < |s.pc| && s.pc[t].Loaded? && s.pc[t].top < |s.next|
  {
    s.(pc := s.pc[t := Peeked(s.pc[t].top, s.next[s.pc[t].top])])
  }

  /** The compare-exchange that succeeds: the slot read first is still on top. */
  function PopSlot(s: State, t: nat): State
    requires 0 < t < |s.pc| && s.pc[t].Peeked? && s.top == s.pc[t].top < |s.role|
  {
    s.(top := s.pc[t].below, pc := s.pc[t := Acquired(s.top)],
       role := s.role[s.top := Owned(t)], free := if s.free == [] then [] else s.free[..|s.free| - 1])
  }

  function Fill(s: State, t: nat, kind: nat): State
    requires 0 < t < |s.pc| && s.pc[t].Acquired? && s.pc[t].x < |s.kind|
  {
    s.(kind := s.kind[s.pc[t].x := kind], pc := s.pc[t := Filled(s.pc[t].x)])
  }

  function ExchangeLast(s: State, t: nat): State
    requires 0 < t < |s.pc| && s.pc[t].Filled? && s.pc[t].x < |s.kind| == |s.latest| == |s.role|
  {
    var x := s.pc[t].x;
    s.(last := x, pc := s.pc[t := Exchanged(x, s.last, |s.log|)],
       role := s.role[x := Message(|s.log|)], log := s.log + [Entry(x, s.kind[x], t)],
       latest := s.latest[x := |s.log|], recycled := s.recycled + [0])
  }

  function Link(s: State, t: nat): State
    requires 0 < t < |s.pc| && s.pc[t].Exchanged? && s.pc[t].p < |s.next|
  {
    s.(next := s.next[s.pc[t].p := s.pc[t].x], pc := s.pc[t := Linked(s.pc[t].i)])
  }

  /** The counter goes up and the send returns: the sender of a notify kind now holds a handle. */
  function Announce(s: State, t: nat): State
    requires 0 < t < |s.pc| && s.pc[t].Linked? && s.pc[t].i < |s.log|
  {
    var i := s.pc[t].i;
    s.(mp := s.mp + 1, pc := s.pc[t := Idle],
       handles := if ActionOf(s.log[i].kind).NotifySender? then s.handles + {i} else s.handles)
  }

  // ----- Giving up a handle -----

  function Discard(s: State, t: nat, i: nat): State
    requires 0 < t < |s.pc| && i < |s.log|
    requires s.log[i].slot < |s.flags| && s.log[i].slot < |s.role|
  {
    var x := s.log[i].slot;
    var was := s.flags[x];
    var s' := s.(flags := s.flags[x := was.(discarded := true)], handles := s.handles - {i}, given := s.given + {i});
    if was.notPreserved && was.ready then StartRecycling(s', t, x, i, ToIdle) else s'.(pc := s.pc[t := Idle])
  }

  /** Entry into the recycling routine for the slot x of request i (no request for the dummy). */
  function StartRecycling(s: State, t: nat, x: nat, i: int, after: Onward): State
    requires t < |s.pc| && x < |s.role|
  {
    s.(pc := s.pc[t := Recycling(x, Clear, after)], role := s.role[x := Owned(t)],
       recycled := if 0 <= i < |s.recycled| then s.recycled[i := s.recycled[i] + 1] else s.recycled)
  }

  // ----- The recycling routine -----

  function ClearFlags(s: State, t: nat): State
    requires t < |s.pc| && s.pc[t].Recycling? && s.pc[t].x < |s.flags|
  {
    s.(flags := s.flags[s.pc[t].x := FRESH], pc := s.pc[t := s.pc[t].(stage := LoadTop)])
  }

  function RecycleLoadTop(s: State, t: nat): State
    requires t < |s.pc| && s.pc[t].Recycling?
  {
    s.(pc := s.pc[t := s.pc[t].(stage := WriteLink(s.top))])
  }

  function RecycleLink(s: State, t: nat): State
    requires t < |s.pc| && s.pc[t].Recycling? && s.pc[t].stage.WriteLink? && s.pc[t].x < |s.next|
  {
    s.(next := s.next[s.pc[t].x := s.pc[t].stage.top], pc := s.pc[t := s.pc[t].(stage := Swing(s.pc[t].stage.top))])
  }

  function PushSlot(s: State, t: nat): State
    requires t < |s.pc| && s.pc[t].Recycling? && s.pc[t].x < |s.role|
  {
    var x := s.pc[t].x;
    s.(top := x, pc := s.pc[t := s.pc[t].(stage := Release)], role := s.role[x := Free(|s.free|)], free := s.free + [x])
  }

  function ReleaseToken(s: State, t: nat): State
    requires t < |s.pc| && s.pc[t].Recycling?
  {
    s.(sem := s.sem + 1, pc := s.pc[t := Resume(s.pc[t].after)])
  }

  // ----- Steps of the consumer loop -----

  function TakeOver(s: State): State
    requires |s.pc| > 0
  {
    s.(sc := s.sc + s.mp, mp := 0)
  }

  function Claim(s: State): State
    requires |s.pc| > 0 && s.sc > 0
  {
    s.(sc := s.sc - 1, pc := s.pc[0 := Claimed])
  }

  function Fetch(s: State): State
    requires |s.pc| > 0 && s.prev < |s.next|
  {
    var n := s.next[s.prev];
    s.(pc := s.pc[0 := Fetched(n)], received := s.received + [n])
  }

  function Lock(s: State): State
    requires |s.pc| > 0 && s.pc[0].Fetched? && s.pc[0].n < |s.flags|
  {
    var n := s.pc[0].n;
    s.(flags := s.flags[n := s.flags[n].(notPreserved := false)], pc := s.pc[0 := Locked(n)])
  }

  /** The previous request is number |received| - 2; the first time it is the dummy, number -1. */
  function Unlock(s: State): State
    requires |s.pc| > 0 && s.pc[0].Locked? && s.prev < |s.flags| && s.prev < |s.role|
  {
    var n := s.pc[0].n;
    var was := s.flags[s.prev];
    var s' := s.(flags := s.flags[s.prev := was.(notPreserved := true)]);
    if was.ready && was.discarded
    then StartRecycling(s', 0, s.prev, |s.received| - 2, ToUnlocked(n))
    else s'.(pc := s.pc[0 := Unlocked(n)])
  }

  function Advance(s: State): State
    requires |s.pc| > 0 && s.pc[0].Unlocked?
  {
    s.(prev := s.pc[0].n, pc := s.pc[0 := Handling(s.pc[0].n)])
  }

  /** The handler has run; its action is applied to the request. */
  function Act(s: State): State
    requires |s.pc| > 0 && s.pc[0].Handling? && s.pc[0].n < |s.flags|
    requires s.pc[0].n < |s.kind| && s.pc[0].n < |s.role|
  {
    var n := s.pc[0].n;
    var was := s.flags[n];
    var i := |s.received| - 1;
    match ActionOf(s.kind[n])
    case DoNothing => s.(pc := s.pc[0 := Waiting])
    case NotifySender =>
      var s' := s.(flags := s.flags[n := was.(ready := true)]);
      if was.notPreserved && was.discarded then StartRecycling(s', 0, n, i, ToWaiting) else s'.(pc := s.pc[0 := Waiting])
    case Destroy =>
      var s' := s.(flags := s.flags[n := was.(ready := true, discarded := true)]);
      if was.notPreserved then StartRecycling(s', 0, n, i, ToWaiting) else s'.(pc := s.pc[0 := Waiting])
  }

  // ----- The step relation -----

  datatype Op =
    | OpAcquireToken | OpLoadTop | OpPeek | OpPop | OpPopFails | OpFill(kind: nat) | OpExchange | OpLink | OpAnnounce
    | OpDiscard(i: nat)
    | OpClear | OpRecycleLoad | OpRecycleLink | OpPush | OpPushFails | OpRelease
    | OpTakeOver | OpClaim | OpFetch | OpLock | OpUnlock | OpAdvance | OpAct

  /** The memory arrays and the history sequences have matching sizes. */
  predicate Shaped(s: State) {
    && 0 < |s.next| == |s.flags| == |s.kind| == |s.role| == |s.latest|
    && 0 < |s.pc|
    && |s.recycled| == |s.log|
    && |s.received| <= |s.log|
  }

  /** Thread t can do op.  A slot number read from memory must be a slot, as `get_request` asserts. */
  predicate Enabled(s: State, t: nat, op: Op) {
    && Shaped(s)
    && t < |s.pc|
    && var p := s.pc[t];
       match op
       case OpAcquireToken => t > 0 && p.Idle? && s.sem > 0
       case OpLoadTop => t > 0 && p.Token?
       case OpPeek => t > 0 && p.Loaded? && p.top < |s.next|
       case OpPop => t > 0 && p.Peeked? && s.top == p.top < |s.next|
       case OpPopFails => t > 0 && p.Peeked?
       case OpFill(kind) => t > 0 && p.Acquired? && p.x < |s.next| && Serviceable(kind)
       case OpExchange => t > 0 && p.Filled? && p.x < |s.next|
       case OpLink => t > 0 && p.Exchanged? && p.p < |s.next|
       case OpAnnounce => t > 0 && p.Linked? && p.i < |s.log|
       case OpDiscard(i) => t > 0 && p.Idle? && i in s.handles && i < |s.log| && s.log[i].slot < |s.next|
       case OpClear => p.Recycling? && p.stage.Clear? && p.x < |s.next|
       case OpRecycleLoad => p.Recycling? && p.stage.LoadTop?
       case OpRecycleLink => p.Recycling? && p.stage.WriteLink? && p.x < |s.next|
       case OpPush => p.Recycling? && p.stage.Swing? && p.x < |s.next| && s.top == p.stage.top
       case OpPushFails => p.Recycling? && p.stage.Swing?
       case OpRelease => p.Recycling? && p.stage.Release?
       case OpTakeOver => t == 0 && p.Waiting? && s.sc == 0 && s.mp > 0
       case OpClaim => t == 0 && p.Waiting? && s.sc > 0
       case OpFetch => t == 0 && p.Claimed? && s.prev < |s.next|
       case OpLock => t == 0 && p.Fetched? && p.n < |s.next|
       case OpUnlock => t == 0 && p.Locked? && s.prev < |s.next|
       case OpAdvance => t == 0 && p.Unlocked?
       case OpAct => t == 0 && p.Handling? && p.n < |s.next|
  }

  function Step(s: State, t: nat, op: Op): State
    requires Enabled(s, t, op)
  {
    match op
    case OpAcquireToken => AcquireToken(s, t)
    case OpLoadTop => LoadFreeTop(s, t)
    case OpPeek => Peek(s, t)
    case OpPop => PopSlot(s, t)
    case OpPopFails => LoadFreeTop(s, t)
    case OpFill(kind) => Fill(s, t, kind)
    case OpExchange => ExchangeLast(s, t)
    case OpLink => Link(s, t)
    case OpAnnounce => Announce(s, t)
    case OpDiscard(i) => Discard(s, t, i)
    case OpClear => ClearFlags(s, t)
    case OpRecycleLoad => RecycleLoadTop(s, t)
    case OpRecycleLink => RecycleLink(s, t)
    case OpPush => PushSlot(s, t)
    case OpPushFails => RecycleLoadTop(s, t)
    case OpRelease => ReleaseToken(s, t)
    case OpTakeOver => TakeOver(s)
    case OpClaim => Claim(s)
    case OpFetch => Fetch(s)
    case OpLock => Lock(s)
    case OpUnlock => Unlock(s)
    case OpAdvance => Advance(s)
    case OpAct => Act(s)
  }
}
