/**
 The invariant of the mailbox.  Each part names exactly the components it speaks of, so a
 step that leaves those alone keeps the part.
 */
module MailboxInvariant {
  import opened Mailbox

  // ----- How far the consumer has come -----

  /** Requests below `locked` have had NOT_PRESERVED cleared, those below `unlocked` have had it
      set again, and those below `acted` have had their handler's action applied. */
  datatype Progress = Progress(locked: int, unlocked: int, acted: int)

  function ProgressAt(consumer: Pc, r: nat): Progress {
    match consumer
    case Waiting | Claimed => Progress(r, r - 1, r)
    case Fetched(_) => Progress(r - 1, r - 2, r - 1)
    case Locked(_) => Progress(r, r - 2, r - 1)
    case _ => Progress(r, r - 1, r - 1)
  }

  function ProgressOf(s: State): Progress
    requires |s.pc| > 0
  {
    ProgressAt(s.pc[0], |s.received|)
  }

  /** Nobody waits for request i any more. */
  predicate GivenUp(e: Entry, i: nat, g: Progress, given: set<nat>) {
    if ActionOf(e.kind).Destroy? then i < g.acted else i in given
  }

  /** Request i still occupies its slot. */
  predicate Live(e: Entry, i: nat, g: Progress, given: set<nat>) {
    !(i < g.acted && i < g.unlocked && GivenUp(e, i, g, given))
  }

  function FlagsAt(e: Entry, i: nat, g: Progress, given: set<nat>): Flags {
    Flags(i < g.acted, GivenUp(e, i, g, given), !(g.unlocked <= i < g.locked))
  }

  // ----- Threads -----

  predicate ThreadsInv(pc: seq<Pc>) {
    && |pc| > 0
    && IsConsumer(pc[0])
    && (pc[0].Recycling? ==> pc[0].after.ToUnlocked?)
    && (forall t :: 1 <= t < |pc| ==> IsClient(pc[t]))
  }

  // ----- The free stack -----

  /** The number of the first dummy's slot, which also ends the free stack. */
  function Dummy(next: seq<nat>): int {
    |next| - 1
  }

  predicate StackInv(free: seq<nat>, top: nat, next: seq<nat>, role: seq<Role>, flags: seq<Flags>) {
    && |next| == |role| == |flags|
    && top == (if free == [] then Dummy(next) else free[|free| - 1])
    && (forall k :: 0 <= k < |free| ==> free[k] < |next| && role[free[k]] == Free(k) && flags[free[k]] == FRESH)
    && (forall k :: 0 < k < |free| ==> next[free[k]] == free[k - 1])
    && (free != [] ==> next[free[0]] == Dummy(next))
    && (forall x :: 0 <= x < |role| && role[x].Free? ==> role[x].k < |free| && free[role[x].k] == x)
  }

  // ----- Slots owned by one thread -----

  function OwnedBy(p: Pc): int {
    match p
    case Acquired(x) => x
    case Filled(x) => x
    case Recycling(x, stage, _) => if stage.Release? then -1 else x
    case _ => -1
  }

  predicate OwnerAt(t: nat, p: Pc, next: seq<nat>, role: seq<Role>, flags: seq<Flags>, kind: seq<nat>)
    requires |next| == |role| == |flags| == |kind|
  {
    var x := OwnedBy(p);
    && (p.Loaded? || p.Peeked? ==> p.top < |next|)
    && (x >= 0 ==>
      && x < |next|
      && role[x] == Owned(t)
      && ((p.Recycling? && p.stage.Clear?) || flags[x] == FRESH)
      && (p.Filled? ==> Serviceable(kind[x]))
      && (p.Recycling? && p.stage.Swing? ==> next[x] == p.stage.top))
  }

  predicate OwnerInv(pc: seq<Pc>, next: seq<nat>, role: seq<Role>, flags: seq<Flags>, kind: seq<nat>) {
    && |next| == |role| == |flags| == |kind|
    && (forall t :: 0 <= t < |pc| ==> OwnerAt(t, pc[t], next, role, flags, kind))
    && (forall x :: 0 <= x < |role| && role[x].Owned? ==> role[x].t < |pc| && OwnedBy(pc[role[x].t]) == x)
  }

  // ----- Requests -----

  predicate RequestAt(e: Entry, i: nat, g: Progress, given: set<nat>, role: seq<Role>, flags: seq<Flags>,
                      kind: seq<nat>, latest: seq<int>, recycled: nat)
    requires |role| == |flags| == |kind| == |latest|
  {
    && e.slot < |role|
    && Serviceable(e.kind)
    && i <= latest[e.slot]
    && (Live(e, i, g, given) ==>
          && latest[e.slot] == i && role[e.slot] == Message(i)
          && flags[e.slot] == FlagsAt(e, i, g, given) && kind[e.slot] == e.kind)
    && recycled == (if Live(e, i, g, given) then 0 else 1)
  }

  predicate RequestInv(log: seq<Entry>, g: Progress, given: set<nat>, role: seq<Role>, flags: seq<Flags>,
                       kind: seq<nat>, latest: seq<int>, recycled: seq<nat>) {
    && 0 < |role| == |flags| == |kind| == |latest|
    && |recycled| == |log|
    && (forall i :: 0 <= i < |log| ==> RequestAt(log[i], i, g, given, role, flags, kind, latest, recycled[i]))
    && (forall x :: 0 <= x < |role| && role[x].Message? ==> role[x].i < |log| && log[role[x].i].slot == x)
    && (forall x :: 0 <= x < |role| && role[x].Message? ==> Live(log[role[x].i], role[x].i, g, given))
    && (forall x :: 0 <= x < |role| ==> (role[x].Retired? <==> x == |role| - 1))
    && flags[|role| - 1] == FRESH
  }

  // ----- The consumer -----

  /** The slot of request i; number -1 is the dummy. */
  function SlotAt(log: seq<Entry>, i: int, dummy: int): int
    requires i < |log|
  {
    if i < 0 then dummy else log[i].slot
  }

  predicate ConsumerInv(consumer: Pc, prev: nat, received: seq<nat>, log: seq<Entry>, dummy: int) {
    var r := |received|;
    && r <= |log|
    && (forall i :: 0 <= i < r ==> received[i] == log[i].slot)
    && match consumer
       case Waiting | Claimed => prev == SlotAt(log, r - 1, dummy)
       case Handling(n) => r > 0 && n == prev == log[r - 1].slot
       case Fetched(n) => r > 0 && n == log[r - 1].slot && prev == SlotAt(log, r - 2, dummy)
       case Locked(n) => r > 0 && n == log[r - 1].slot && prev == SlotAt(log, r - 2, dummy)
       case Unlocked(n) => r > 0 && n == log[r - 1].slot
       case Recycling(_, _, after) => r > 0 && after == ToUnlocked(log[r - 1].slot)
       case _ => false
  }

  // ----- The queue's links -----

  predicate LinkPending(e: Entry, i: nat, pc: seq<Pc>) {
    e.sender < |pc| && pc[e.sender].Exchanged? && pc[e.sender].i == i
  }

  predicate LinkedAt(log: seq<Entry>, i: nat, next: seq<nat>)
    requires i < |log|
  {
    var p := SlotAt(log, i - 1, Dummy(next));
    0 <= p < |next| && next[p] == log[i].slot
  }

  predicate QueueInv(log: seq<Entry>, r: nat, last: nat, next: seq<nat>, pc: seq<Pc>) {
    && last == SlotAt(log, |log| - 1, Dummy(next))
    && (forall i {:trigger LinkedAt(log, i, next)} {:trigger LinkPending(log[i], i, pc)} :: r <= i < |log| ==>
          LinkedAt(log, i, next) || LinkPending(log[i], i, pc))
  }

  // ----- Senders inside the enqueue routine, and handles -----

  /** A thread inside the enqueue routine is there for its latest request. */
  predicate SenderAt(t: nat, p: Pc, log: seq<Entry>, r: nat, dummy: int) {
    match p
    case Exchanged(x, p, i) => r <= i && Sends(log, i, t) && x == log[i].slot && p == SlotAt(log, i - 1, dummy)
    case Linked(i) => Sends(log, i, t)
    case _ => true
  }

  predicate Sends(log: seq<Entry>, i: nat, t: nat) {
    i < |log| && log[i].sender == t && forall j :: i < j < |log| ==> log[j].sender != t
  }

  /** Thread state p is inside the enqueue routine for request i. */
  predicate SendingFor(p: Pc, i: nat) {
    (p.Exchanged? && p.i == i) || (p.Linked? && p.i == i)
  }

  predicate SenderInv(log: seq<Entry>, r: nat, pc: seq<Pc>, dummy: int) {
    && (forall i :: 0 <= i < |log| ==> 0 < log[i].sender < |pc|)
    && (forall t :: 0 <= t < |pc| ==> SenderAt(t, pc[t], log, r, dummy))
  }

  /** Request i was sent by a call that has returned, and somebody may wait for it. */
  predicate HandedOut(log: seq<Entry>, i: nat, pc: seq<Pc>)
    requires i < |log|
  {
    && ActionOf(log[i].kind).NotifySender?
    && log[i].sender < |pc| && !SendingFor(pc[log[i].sender], i)
  }

  /** Exactly the requests handed out have a handle, held or given up. */
  ghost predicate HandleInv(handles: set<nat>, given: set<nat>, log: seq<Entry>, pc: seq<Pc>) {
    && handles !! given
    && (forall i :: i in handles || i in given ==> i < |log| && HandedOut(log, i, pc))
    && (forall i {:trigger HandedOut(log, i, pc)} :: 0 <= i < |log| && HandedOut(log, i, pc) ==> i in handles || i in given)
  }

  // ----- Accounting -----

  /** Tokens: a token held but no slot popped, or a slot pushed but no token released.
      Unannounced: a request in the queue that the message counter does not count yet. */
  datatype Tally = Tokens | Unannounced

  function Weight(w: Tally, p: Pc): nat {
    match w
    case Tokens => if p.Token? || p.Loaded? || p.Peeked? || (p.Recycling? && p.stage.Release?) then 1 else 0
    case Unannounced => if p.Exchanged? || p.Linked? then 1 else 0
  }

  function Total(w: Tally, ps: seq<Pc>): nat {
    if ps == [] then 0 else Weight(w, ps[0]) + Total(w, ps[1..])
  }

  predicate CountInv(freeCount: nat, sem: nat, sent: nat, r: nat, counted: nat, pc: seq<Pc>)
    requires |pc| > 0
  {
    && freeCount == sem + Total(Tokens, pc)
    && sent == r + counted + (if pc[0].Claimed? then 1 else 0) + Total(Unannounced, pc)
  }

  /** Who has which slot. */
  predicate SlotsInv(s: State) {
    && Shaped(s)
    && ThreadsInv(s.pc)
    && StackInv(s.free, s.top, s.next, s.role, s.flags)
    && OwnerInv(s.pc, s.next, s.role, s.flags, s.kind)
    && RequestInv(s.log, ProgressOf(s), s.given, s.role, s.flags, s.kind, s.latest, s.recycled)
  }

  /** What is in the queue, and how much of it. */
  ghost predicate QueuesInv(s: State) {
    && Shaped(s)
    && ConsumerInv(s.pc[0], s.prev, s.received, s.log, Dummy(s.next))
    && QueueInv(s.log, |s.received|, s.last, s.next, s.pc)
    && SenderInv(s.log, |s.received|, s.pc, Dummy(s.next))
    && HandleInv(s.handles, s.given, s.log, s.pc)
    && CountInv(|s.free|, s.sem, |s.log|, |s.received|, s.mp + s.sc, s.pc)
  }

  ghost predicate Inv(s: State) {
    SlotsInv(s) && QueuesInv(s)
  }

  // ----- How single changes affect the parts -----

  lemma {:induction false} TotalUpdate(w: Tally, ps: seq<Pc>, t: nat, p: Pc)
    requires t < |ps|
    ensures Total(w, ps[t := p]) == Total(w, ps) - Weight(w, ps[t]) + Weight(w, p)
    ensures Weight(w, ps[t]) <= Total(w, ps)
  {
    if t == 0 {
      assert ps[t := p][1..] == ps[1..];
    } else {
      assert ps[t := p][1..] == ps[1..][t - 1 := p];
      TotalUpdate(w, ps[1..], t - 1, p);
    }
  }

  lemma Tallies(pc: seq<Pc>, t: nat, p: Pc)
    requires t < |pc|
    ensures Total(Tokens, pc[t := p]) == Total(Tokens, pc) - Weight(Tokens, pc[t]) + Weight(Tokens, p)
    ensures Total(Unannounced, pc[t := p]) == Total(Unannounced, pc) - Weight(Unannounced, pc[t]) + Weight(Unannounced, p)
    ensures Weight(Tokens, pc[t]) <= Total(Tokens, pc)
  {
    TotalUpdate(Tokens, pc, t, p);
    TotalUpdate(Unannounced, pc, t, p);
  }

  /** a and b differ at most at x. */
  predicate Agree<T(==)>(a: seq<T>, b: seq<T>, x: nat) {
    |a| == |b| && forall y :: 0 <= y < |a| && y != x ==> a[y] == b[y]
  }

  /** Writes to a slot outside the stack do not touch the stack. */
  lemma StackElsewhere(free: seq<nat>, top: nat, next: seq<nat>, role: seq<Role>, flags: seq<Flags>,
                       next': seq<nat>, role': seq<Role>, flags': seq<Flags>, x: nat)
    requires StackInv(free, top, next, role, flags) && x < |role|
    requires Agree(next, next', x) && Agree(role, role', x) && Agree(flags, flags', x)
    requires !role[x].Free? && !role'[x].Free?
    ensures StackInv(free, top, next', role', flags')
  {
  }

  lemma StackPop(free: seq<nat>, top: nat, next: seq<nat>, role: seq<Role>, flags: seq<Flags>, t: nat)
    requires StackInv(free, top, next, role, flags) && free != []
    ensures StackInv(free[..|free| - 1], next[top], next, role[top := Owned(t)], flags)
  {
  }

  lemma StackPush(free: seq<nat>, top: nat, next: seq<nat>, role: seq<Role>, flags: seq<Flags>, x: nat)
    requires StackInv(free, top, next, role, flags) && x < |role|
    requires !role[x].Free? && next[x] == top && flags[x] == FRESH
    ensures StackInv(free + [x], x, next, role[x := Free(|free|)], flags)
  {
  }

  /** A thread moves on and owns what it owned before. */
  lemma OwnerMove(pc: seq<Pc>, next: seq<nat>, role: seq<Role>, flags: seq<Flags>, kind: seq<nat>, t: nat, p: Pc)
    requires OwnerInv(pc, next, role, flags, kind) && t < |pc|
    requires OwnedBy(p) == OwnedBy(pc[t]) && OwnerAt(t, p, next, role, flags, kind)
    ensures OwnerInv(pc[t := p], next, role, flags, kind)
  {
  }

  /** The owner of a slot writes to it. */
  lemma OwnerWrites(pc: seq<Pc>, next: seq<nat>, role: seq<Role>, flags: seq<Flags>, kind: seq<nat>,
                    next': seq<nat>, flags': seq<Flags>, kind': seq<nat>, t: nat, p: Pc)
    requires OwnerInv(pc, next, role, flags, kind) && t < |pc|
    requires OwnedBy(p) == OwnedBy(pc[t]) >= 0
    requires Agree(next, next', OwnedBy(p)) && Agree(flags, flags', OwnedBy(p)) && Agree(kind, kind', OwnedBy(p))
    requires OwnerAt(t, p, next', role, flags', kind')
    ensures OwnerInv(pc[t := p], next', role, flags', kind')
  {
    assert role[OwnedBy(p)] == Owned(t);
  }

  /** A write to a slot that no thread owns. */
  lemma OwnerElsewhere(pc: seq<Pc>, next: seq<nat>, role: seq<Role>, flags: seq<Flags>, kind: seq<nat>,
                       next': seq<nat>, flags': seq<Flags>, x: nat)
    requires OwnerInv(pc, next, role, flags, kind) && x < |role| && !role[x].Owned?
    requires Agree(next, next', x) && Agree(flags, flags', x)
    ensures OwnerInv(pc, next', role, flags', kind)
  {
  }

  lemma OwnerGains(pc: seq<Pc>, next: seq<nat>, role: seq<Role>, flags: seq<Flags>, kind: seq<nat>, t: nat, p: Pc, x: nat)
    requires OwnerInv(pc, next, role, flags, kind) && t < |pc| && x < |role| && !role[x].Owned?
    requires OwnedBy(pc[t]) < 0 && OwnedBy(p) == x && OwnerAt(t, p, next, role[x := Owned(t)], flags, kind)
    ensures OwnerInv(pc[t := p], next, role[x := Owned(t)], flags, kind)
  {
  }

  lemma OwnerLoses(pc: seq<Pc>, next: seq<nat>, role: seq<Role>, flags: seq<Flags>, kind: seq<nat>, t: nat, p: Pc, r: Role)
    requires OwnerInv(pc, next, role, flags, kind) && t < |pc|
    requires OwnedBy(pc[t]) >= 0 && OwnedBy(p) < 0 && OwnerAt(t, p, next, role, flags, kind) && !r.Owned?
    ensures var x := OwnedBy(pc[t]); x < |role| && OwnerInv(pc[t := p], next, role[x := r], flags, kind)
  {
  }

  /** Changes to a slot that carries no request do not touch the requests. */
  lemma RequestsElsewhere(log: seq<Entry>, g: Progress, given: set<nat>, role: seq<Role>, flags: seq<Flags>, kind: seq<nat>,
                          latest: seq<int>, recycled: seq<nat>, role': seq<Role>, flags': seq<Flags>, kind': seq<nat>, x: nat)
    requires RequestInv(log, g, given, role, flags, kind, latest, recycled) && x < |role|
    requires Agree(role, role', x) && Agree(flags, flags', x) && Agree(kind, kind', x)
    requires !role[x].Message? && !role[x].Retired? && !role'[x].Message? && !role'[x].Retired?
    ensures RequestInv(log, g, given, role', flags', kind', latest, recycled)
  {
  }

  /** A move of a thread that neither enters nor leaves the enqueue routine. */
  lemma QuietMove(s: State, t: nat, p: Pc)
    requires QueuesInv(s) && t < |s.pc|
    requires !s.pc[t].Exchanged? && !s.pc[t].Linked? && !p.Exchanged? && !p.Linked?
    ensures QueueInv(s.log, |s.received|, s.last, s.next, s.pc[t := p])
    ensures SenderInv(s.log, |s.received|, s.pc[t := p], Dummy(s.next))
    ensures HandleInv(s.handles, s.given, s.log, s.pc[t := p])
  {
    QueueMove(s.log, |s.received|, s.last, s.next, s.pc, t, p);
    SenderMove(s.log, |s.received|, s.pc, Dummy(s.next), t, p);
    HandleMove(s.handles, s.given, s.log, s.pc, t, p);
  }

  lemma QueueMove(log: seq<Entry>, r: nat, last: nat, next: seq<nat>, pc: seq<Pc>, t: nat, p: Pc)
    requires QueueInv(log, r, last, next, pc) && t < |pc| && !pc[t].Exchanged? && !p.Exchanged?
    ensures QueueInv(log, r, last, next, pc[t := p])
  {
    forall i | r <= i < |log| ensures LinkedAt(log, i, next) || LinkPending(log[i], i, pc[t := p]) {
      assert LinkedAt(log, i, next) || LinkPending(log[i], i, pc);
    }
  }

  lemma SenderMove(log: seq<Entry>, r: nat, pc: seq<Pc>, dummy: int, t: nat, p: Pc)
    requires SenderInv(log, r, pc, dummy) && t < |pc| && !p.Exchanged? && !p.Linked?
    ensures SenderInv(log, r, pc[t := p], dummy)
  {
  }

  lemma HandleMove(handles: set<nat>, given: set<nat>, log: seq<Entry>, pc: seq<Pc>, t: nat, p: Pc)
    requires HandleInv(handles, given, log, pc) && t < |pc|
    requires !pc[t].Exchanged? && !pc[t].Linked? && !p.Exchanged? && !p.Linked?
    ensures HandleInv(handles, given, log, pc[t := p])
  {
    forall i | 0 <= i < |log| ensures HandedOut(log, i, pc[t := p]) <==> i in handles || i in given {
      assert HandedOut(log, i, pc[t := p]) <==> HandedOut(log, i, pc);
    }
  }
}
