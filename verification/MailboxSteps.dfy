/**
 Every step of every thread keeps the invariant.
 */
module MailboxSteps {
  import opened Mailbox
  import opened MailboxInvariant

  /** The link that the consumer is about to follow has been written. */
  predicate LinkWritten(s: State) {
    |s.received| < |s.log| && !LinkPending(s.log[|s.received|], |s.received|, s.pc)
  }

  /** The slot that a pop installs is the one below the top at that moment. */
  predicate PopsTrueSuccessor(s: State, t: nat)
    requires t < |s.pc| && s.pc[t].Peeked? && s.pc[t].top < |s.next|
  {
    s.pc[t].below == s.next[s.pc[t].top]
  }

  predicate Disciplined(s: State, t: nat, op: Op)
    requires Enabled(s, t, op)
  {
    && (op.OpPop? ==> PopsTrueSuccessor(s, t))
    && (op.OpFetch? ==> LinkWritten(s))
  }

  // ----- Senders -----

  lemma AcquireTokenKeeps(s: State, t: nat)
    requires Inv(s) && 0 < t < |s.pc| && s.pc[t].Idle? && s.sem > 0
    ensures Inv(AcquireToken(s, t))
  {
    ClientMoveKeeps(s, t, Token, s.sem - 1);
  }

  /** A client moves on and owns what it owned before. */
  lemma ClientMoveKeeps(s: State, t: nat, p: Pc, sem: nat)
    requires Inv(s) && 0 < t < |s.pc| && IsClient(p)
    requires !s.pc[t].Exchanged? && !s.pc[t].Linked? && !p.Exchanged? && !p.Linked?
    requires OwnedBy(p) == OwnedBy(s.pc[t]) && OwnerAt(t, p, s.next, s.role, s.flags, s.kind)
    requires s.sem + Weight(Tokens, s.pc[t]) == sem + Weight(Tokens, p)
    ensures Inv(s.(sem := sem, pc := s.pc[t := p]))
  {
    Tallies(s.pc, t, p);
    OwnerMove(s.pc, s.next, s.role, s.flags, s.kind, t, p);
    QuietMove(s, t, p);
  }

  lemma LoadTopKeeps(s: State, t: nat)
    requires Inv(s) && 0 < t < |s.pc| && (s.pc[t].Token? || s.pc[t].Peeked?)
    ensures Inv(LoadFreeTop(s, t))
  {
    ClientMoveKeeps(s, t, Loaded(s.top), s.sem);
  }

  lemma PeekKeeps(s: State, t: nat)
    requires Inv(s) && 0 < t < |s.pc| && s.pc[t].Loaded? && s.pc[t].top < |s.next|
    ensures Inv(Peek(s, t))
  {
    ClientMoveKeeps(s, t, Peeked(s.pc[t].top, s.next[s.pc[t].top]), s.sem);
  }

  /** A thread that holds a token finds the stack non-empty. */
  lemma TokenMeansSlot(s: State, t: nat)
    requires Inv(s) && t < |s.pc| && Weight(Tokens, s.pc[t]) == 1
    ensures s.free != [] && s.top == s.free[|s.free| - 1] < Dummy(s.next)
    ensures s.role[s.top] == Free(|s.free| - 1)
  {
    Tallies(s.pc, t, s.pc[t]);
    assert s.role[|s.role| - 1].Retired?;
  }

  lemma PopKeeps(s: State, t: nat)
    requires Inv(s) && 0 < t < |s.pc| && s.pc[t].Peeked? && s.top == s.pc[t].top < |s.next| && PopsTrueSuccessor(s, t)
    ensures Inv(PopSlot(s, t))
  {
    TokenMeansSlot(s, t);
    PopSlots(s, t);
    PopQueues(s, t);
  }

  lemma PopSlots(s: State, t: nat)
    requires SlotsInv(s) && 0 < t < |s.pc| && s.pc[t].Peeked? && s.top == s.pc[t].top < |s.next| && PopsTrueSuccessor(s, t)
    requires s.free != [] && s.role[s.top].Free?
    ensures SlotsInv(PopSlot(s, t))
  {
    var s' := PopSlot(s, t);
    assert s'.pc[0] == s.pc[0];
    StackPop(s.free, s.top, s.next, s.role, s.flags, t);
    OwnerGains(s.pc, s.next, s.role, s.flags, s.kind, t, Acquired(s.top), s.top);
    RequestsElsewhere(s.log, ProgressOf(s), s.given, s.role, s.flags, s.kind, s.latest, s.recycled, s'.role, s.flags, s.kind, s.top);
  }

  lemma PopQueues(s: State, t: nat)
    requires QueuesInv(s) && 0 < t < |s.pc| && s.pc[t].Peeked? && s.top == s.pc[t].top < |s.next| && s.free != []
    ensures QueuesInv(PopSlot(s, t))
  {
    Tallies(s.pc, t, Acquired(s.top));
    QuietMove(s, t, Acquired(s.top));
  }

  lemma FillKeeps(s: State, t: nat, kind: nat)
    requires Inv(s) && 0 < t < |s.pc| && s.pc[t].Acquired? && Serviceable(kind)
    ensures Inv(Fill(s, t, kind))
  {
    var s' := Fill(s, t, kind);
    var x := s.pc[t].x;
    Tallies(s.pc, t, s'.pc[t]);
    assert s.role[x] == Owned(t);
    OwnerWrites(s.pc, s.next, s.role, s.flags, s.kind, s.next, s.flags, s'.kind, t, s'.pc[t]);
    RequestsElsewhere(s.log, ProgressOf(s), s.given, s.role, s.flags, s.kind, s.latest, s.recycled, s.role, s.flags, s'.kind, x);
    QuietMove(s, t, s'.pc[t]);
  }

  lemma RequestsAppend(log: seq<Entry>, g: Progress, given: set<nat>, role: seq<Role>, flags: seq<Flags>, kind: seq<nat>,
                       latest: seq<int>, recycled: seq<nat>, e: Entry)
    requires RequestInv(log, g, given, role, flags, kind, latest, recycled)
    requires e.slot < |role| && role[e.slot].Owned? && flags[e.slot] == FRESH && kind[e.slot] == e.kind && Serviceable(e.kind)
    requires g.acted <= g.locked <= |log| && |log| !in given
    ensures RequestInv(log + [e], g, given, role[e.slot := Message(|log|)], flags, kind, latest[e.slot := |log|], recycled + [0])
  {
  }

  lemma ExchangeKeeps(s: State, t: nat)
    requires Inv(s) && 0 < t < |s.pc| && s.pc[t].Filled?
    ensures Inv(ExchangeLast(s, t))
  {
    ExchangeSlots(s, t);
    ExchangeQueues(s, t);
  }

  lemma ExchangeSlots(s: State, t: nat)
    requires SlotsInv(s) && 0 < t < |s.pc| && s.pc[t].Filled? && |s.log| !in s.given
    ensures SlotsInv(ExchangeLast(s, t))
  {
    var s' := ExchangeLast(s, t);
    var x := s.pc[t].x;
    assert s.role[x] == Owned(t);
    StackElsewhere(s.free, s.top, s.next, s.role, s.flags, s.next, s'.role, s.flags, x);
    OwnerLoses(s.pc, s.next, s.role, s.flags, s.kind, t, s'.pc[t], Message(|s.log|));
    RequestsAppend(s.log, ProgressOf(s), s.given, s.role, s.flags, s.kind, s.latest, s.recycled, Entry(x, s.kind[x], t));
  }

  lemma ExchangeQueues(s: State, t: nat)
    requires QueuesInv(s) && 0 < t < |s.pc| && s.pc[t].Filled? && s.pc[t].x < |s.next|
    ensures QueuesInv(ExchangeLast(s, t))
  {
    var s' := ExchangeLast(s, t);
    var e := Entry(s.pc[t].x, s.kind[s.pc[t].x], t);
    ExchangeMoves(s, t, e);
    ConsumerAppend(s.pc[0], s.prev, s.received, s.log, Dummy(s.next), e);
    QueueAppend(s.log, |s.received|, s.last, s.next, s.pc, t, e);
    SenderAppend(s.log, |s.received|, s.pc, Dummy(s.next), t, e, s.last);
    HandleAppend(s.handles, s.given, s.log, s.pc, t, Exchanged(e.slot, s.last, |s.log|), e);
    CountAppend(|s.free|, s.sem, |s.log|, |s.received|, s.mp + s.sc, s.pc, t, Exchanged(e.slot, s.last, |s.log|));
  }

  lemma ExchangeMoves(s: State, t: nat, e: Entry)
    requires Shaped(s) && 0 < t < |s.pc| && s.pc[t].Filled? && s.pc[t].x < |s.next|
    requires e == Entry(s.pc[t].x, s.kind[s.pc[t].x], t)
    ensures var s' := ExchangeLast(s, t);
            && s'.pc == s.pc[t := Exchanged(e.slot, s.last, |s.log|)] && s'.pc[0] == s.pc[0]
            && s'.log == s.log + [e] && s'.last == e.slot
  {
  }

  lemma CountAppend(freeCount: nat, sem: nat, sent: nat, r: nat, counted: nat, pc: seq<Pc>, t: nat, p: Pc)
    requires 0 < t < |pc| && CountInv(freeCount, sem, sent, r, counted, pc) && pc[t].Filled? && p.Exchanged?
    ensures CountInv(freeCount, sem, sent + 1, r, counted, pc[t := p])
  {
    Tallies(pc, t, p);
  }

  lemma ConsumerAppend(consumer: Pc, prev: nat, received: seq<nat>, log: seq<Entry>, dummy: int, e: Entry)
    requires ConsumerInv(consumer, prev, received, log, dummy)
    ensures ConsumerInv(consumer, prev, received, log + [e], dummy)
  {
  }

  lemma QueueAppend(log: seq<Entry>, r: nat, last: nat, next: seq<nat>, pc: seq<Pc>, t: nat, e: Entry)
    requires QueueInv(log, r, last, next, pc) && t < |pc| && e.sender == t && !pc[t].Exchanged?
    ensures QueueInv(log + [e], r, e.slot, next, pc[t := Exchanged(e.slot, last, |log|)])
  {
    var pc' := pc[t := Exchanged(e.slot, last, |log|)];
    forall i | r <= i < |log| + 1
      ensures LinkedAt(log + [e], i, next) || LinkPending((log + [e])[i], i, pc')
    {
      if i < |log| {
        assert LinkedAt(log, i, next) || LinkPending(log[i], i, pc);
      }
    }
  }

  lemma SenderAppend(log: seq<Entry>, r: nat, pc: seq<Pc>, dummy: int, t: nat, e: Entry, last: nat)
    requires SenderInv(log, r, pc, dummy) && 0 < t < |pc| && e.sender == t && r <= |log|
    requires !pc[t].Exchanged? && !pc[t].Linked? && last == SlotAt(log, |log| - 1, dummy)
    ensures SenderInv(log + [e], r, pc[t := Exchanged(e.slot, last, |log|)], dummy)
  {
  }

  lemma HandleAppend(handles: set<nat>, given: set<nat>, log: seq<Entry>, pc: seq<Pc>, t: nat, p: Pc, e: Entry)
    requires HandleInv(handles, given, log, pc) && t < |pc| && !pc[t].Exchanged? && !pc[t].Linked?
    requires p.Exchanged? && p.i == |log| && e.sender == t
    ensures HandleInv(handles, given, log + [e], pc[t := p])
  {
    var log', pc' := log + [e], pc[t := p];
    assert !HandedOut(log', |log|, pc');
    forall i | 0 <= i < |log| ensures HandedOut(log', i, pc') <==> i in handles || i in given {
      assert log'[i] == log[i];
      assert HandedOut(log', i, pc') <==> HandedOut(log, i, pc);
    }
  }

  /** The slot in front of a request that is not yet received still carries a message (or is the dummy). */
  lemma PredecessorBusy(s: State, i: nat)
    requires SlotsInv(s) && |s.received| <= i < |s.log|
    ensures var p := SlotAt(s.log, i - 1, Dummy(s.next));
            p < |s.next| && s.role[p] == if i == 0 then Retired else Message(i - 1)
  {
    if i > 0 {
      assert RequestAt(s.log[i - 1], i - 1, ProgressOf(s), s.given, s.role, s.flags, s.kind, s.latest, s.recycled[i - 1]);
    }
  }

  lemma LinkKeeps(s: State, t: nat)
    requires Inv(s) && 0 < t < |s.pc| && s.pc[t].Exchanged?
    ensures Inv(Link(s, t))
  {
    assert SenderAt(t, s.pc[t], s.log, |s.received|, Dummy(s.next));
    LinkPlaces(s, t);
    LinkSlots(s, t);
    LinkQueues(s, t);
  }

  predicate Precedes(x: nat, log: seq<Entry>, j: nat, dummy: int)
    requires j < |log|
  {
    SlotAt(log, j - 1, dummy) == x
  }

  /** The place of the link to be written: it is free or owned by nobody, and no other waiting request's. */
  predicate LinkPlace(s: State, t: nat)
    requires t < |s.pc| && s.pc[t].Exchanged?
  {
    && s.pc[t].p < |s.next| == |s.role|
    && !s.role[s.pc[t].p].Free? && !s.role[s.pc[t].p].Owned?
    && (forall j :: |s.received| <= j < |s.log| && j != s.pc[t].i ==> !Precedes(s.pc[t].p, s.log, j, Dummy(s.next)))
  }

  lemma LinkPlaces(s: State, t: nat)
    requires SlotsInv(s) && t < |s.pc| && s.pc[t].Exchanged?
    requires SenderAt(t, s.pc[t], s.log, |s.received|, Dummy(s.next))
    ensures LinkPlace(s, t)
  {
    PredecessorBusy(s, s.pc[t].i);
    forall j | |s.received| <= j < |s.log| && j != s.pc[t].i
      ensures !Precedes(s.pc[t].p, s.log, j, Dummy(s.next))
    {
      PredecessorBusy(s, j);
    }
  }

  lemma LinkSlots(s: State, t: nat)
    requires SlotsInv(s) && 0 < t < |s.pc| && s.pc[t].Exchanged? && LinkPlace(s, t)
    ensures SlotsInv(Link(s, t))
  {
    var s' := Link(s, t);
    StackElsewhere(s.free, s.top, s.next, s.role, s.flags, s'.next, s.role, s.flags, s.pc[t].p);
    OwnerElsewhere(s.pc, s.next, s.role, s.flags, s.kind, s'.next, s.flags, s.pc[t].p);
    OwnerMove(s.pc, s'.next, s.role, s.flags, s.kind, t, s'.pc[t]);
  }

  lemma LinkQueues(s: State, t: nat)
    requires QueuesInv(s) && 0 < t < |s.pc| && s.pc[t].Exchanged? && LinkPlace(s, t)
    ensures QueuesInv(Link(s, t))
  {
    Tallies(s.pc, t, Linked(s.pc[t].i));
    assert SenderAt(t, s.pc[t], s.log, |s.received|, Dummy(s.next));
    QueueLink(s.log, |s.received|, s.last, s.next, s.pc, t);
    SenderLinked(s.log, |s.received|, s.pc, Dummy(s.next), t);
    HandleLinked(s.handles, s.given, s.log, s.pc, t);
  }

  lemma SenderLinked(log: seq<Entry>, r: nat, pc: seq<Pc>, dummy: int, t: nat)
    requires SenderInv(log, r, pc, dummy) && t < |pc| && pc[t].Exchanged?
    ensures SenderInv(log, r, pc[t := Linked(pc[t].i)], dummy)
  {
  }

  lemma HandleLinked(handles: set<nat>, given: set<nat>, log: seq<Entry>, pc: seq<Pc>, t: nat)
    requires HandleInv(handles, given, log, pc) && t < |pc| && pc[t].Exchanged?
    ensures HandleInv(handles, given, log, pc[t := Linked(pc[t].i)])
  {
    var pc' := pc[t := Linked(pc[t].i)];
    forall i | 0 <= i < |log| ensures HandedOut(log, i, pc') <==> i in handles || i in given {
      assert HandedOut(log, i, pc') <==> HandedOut(log, i, pc);
    }
  }

  lemma QueueLink(log: seq<Entry>, r: nat, last: nat, next: seq<nat>, pc: seq<Pc>, t: nat)
    requires QueueInv(log, r, last, next, pc) && t < |pc| && pc[t].Exchanged?
    requires SenderAt(t, pc[t], log, r, Dummy(next)) && pc[t].p < |next|
    requires forall j :: r <= j < |log| && j != pc[t].i ==> !Precedes(pc[t].p, log, j, Dummy(next))
    ensures QueueInv(log, r, last, next[pc[t].p := pc[t].x], pc[t := Linked(pc[t].i)])
  {
    var next' := next[pc[t].p := pc[t].x];
    var pc' := pc[t := Linked(pc[t].i)];
    forall j | r <= j < |log| ensures LinkedAt(log, j, next') || LinkPending(log[j], j, pc') {
      assert LinkedAt(log, j, next) || LinkPending(log[j], j, pc);
      assert j != pc[t].i ==> !Precedes(pc[t].p, log, j, Dummy(next));
    }
  }

  lemma AnnounceKeeps(s: State, t: nat)
    requires Inv(s) && 0 < t < |s.pc| && s.pc[t].Linked?
    ensures Inv(Announce(s, t))
  {
    Tallies(s.pc, t, Idle);
    assert SenderAt(t, s.pc[t], s.log, |s.received|, Dummy(s.next));
    OwnerMove(s.pc, s.next, s.role, s.flags, s.kind, t, Idle);
    QueueMove(s.log, |s.received|, s.last, s.next, s.pc, t, Idle);
    SenderMove(s.log, |s.received|, s.pc, Dummy(s.next), t, Idle);
    HandleAnnounce(s.handles, s.given, s.log, s.pc, t);
  }

  lemma HandleAnnounce(handles: set<nat>, given: set<nat>, log: seq<Entry>, pc: seq<Pc>, t: nat)
    requires HandleInv(handles, given, log, pc) && t < |pc| && pc[t].Linked?
    requires pc[t].i < |log| && log[pc[t].i].sender == t
    ensures HandleInv(if ActionOf(log[pc[t].i].kind).NotifySender? then handles + {pc[t].i} else handles,
                      given, log, pc[t := Idle])
  {
    assert SendingFor(pc[t], pc[t].i);
    var pc' := pc[t := Idle];
    assert HandedOut(log, pc[t].i, pc') <==> ActionOf(log[pc[t].i].kind).NotifySender?;
    forall i | 0 <= i < |log| && i != pc[t].i ensures HandedOut(log, i, pc') <==> i in handles || i in given {
      assert HandedOut(log, i, pc') <==> HandedOut(log, i, pc);
    }
  }

  // ----- Giving up a handle -----

  lemma DiscardKeeps(s: State, t: nat, i: nat)
    requires Inv(s) && 0 < t < |s.pc| && s.pc[t].Idle? && i in s.handles
    ensures Inv(Discard(s, t, i))
  {
    if Discard(s, t, i).pc[t].Idle? {
      DiscardStaysKeeps(s, t, i);
    } else {
      DiscardEndsKeeps(s, t, i);
    }
  }

  /** The discard that leaves the slot to somebody else. */
  lemma DiscardStaysKeeps(s: State, t: nat, i: nat)
    requires Inv(s) && 0 < t < |s.pc| && s.pc[t].Idle? && i in s.handles
    requires Discard(s, t, i).pc[t].Idle?
    ensures Inv(Discard(s, t, i))
  {
    DiscardStaysSlots(s, t, i);
    DiscardQueues(s, t, i);
  }

  lemma DiscardStaysSlots(s: State, t: nat, i: nat)
    requires SlotsInv(s) && 0 < t < |s.pc| && s.pc[t].Idle?
    requires i < |s.log| && i !in s.given && ActionOf(s.log[i].kind).NotifySender?
    requires Discard(s, t, i).pc[t].Idle?
    ensures SlotsInv(Discard(s, t, i)) && Discard(s, t, i).pc == s.pc
  {
    var s' := Discard(s, t, i);
    var x := s.log[i].slot;
    assert !(s.flags[x].ready && s.flags[x].notPreserved);
    RequestsGiveStays(s.log, ProgressOf(s), s.given, s.role, s.flags, s.kind, s.latest, s.recycled, i);
    StackElsewhere(s.free, s.top, s.next, s.role, s.flags, s.next, s.role, s'.flags, x);
    OwnerElsewhere(s.pc, s.next, s.role, s.flags, s.kind, s.next, s'.flags, x);
    assert s.pc[t := Idle] == s.pc;
  }

  /** The discard that finds the request finished and recycles the slot. */
  lemma DiscardEndsKeeps(s: State, t: nat, i: nat)
    requires Inv(s) && 0 < t < |s.pc| && s.pc[t].Idle? && i in s.handles
    requires Discard(s, t, i).pc[t].Recycling?
    ensures Inv(Discard(s, t, i))
  {
    DiscardEndsSlots(s, t, i);
    DiscardQueues(s, t, i);
  }

  lemma DiscardQueues(s: State, t: nat, i: nat)
    requires QueuesInv(s) && 0 < t < |s.pc| && s.pc[t].Idle? && i in s.handles && s.log[i].slot < |s.next|
    ensures QueuesInv(Discard(s, t, i))
  {
    var p := Discard(s, t, i).pc[t];
    Tallies(s.pc, t, p);
    QuietMove(s, t, p);
    HandleGive(s.handles, s.given, s.log, s.pc[t := p], i);
  }

  lemma DiscardEndsSlots(s: State, t: nat, i: nat)
    requires SlotsInv(s) && 0 < t < |s.pc| && s.pc[t].Idle?
    requires i < |s.log| && i !in s.given && ActionOf(s.log[i].kind).NotifySender?
    requires Discard(s, t, i).pc[t].Recycling?
    ensures SlotsInv(Discard(s, t, i))
  {
    var s' := Discard(s, t, i);
    var x := s.log[i].slot;
    assert s.flags[x].ready && s.flags[x].notPreserved;
    RequestsGiveEnds(s.log, ProgressOf(s), s.given, s.role, s.flags, s.kind, s.latest, s.recycled, i, Owned(t));
    StackElsewhere(s.free, s.top, s.next, s.role, s.flags, s.next, s'.role, s'.flags, x);
    OwnerElsewhere(s.pc, s.next, s.role, s.flags, s.kind, s.next, s'.flags, x);
    OwnerGains(s.pc, s.next, s.role, s'.flags, s.kind, t, s'.pc[t], x);
  }

  lemma HandleGive(handles: set<nat>, given: set<nat>, log: seq<Entry>, pc: seq<Pc>, i: nat)
    requires HandleInv(handles, given, log, pc) && i in handles
    ensures HandleInv(handles - {i}, given + {i}, log, pc)
  {
  }

  lemma RequestsGiveStays(log: seq<Entry>, g: Progress, given: set<nat>, role: seq<Role>, flags: seq<Flags>, kind: seq<nat>,
                          latest: seq<int>, recycled: seq<nat>, i: nat)
    requires RequestInv(log, g, given, role, flags, kind, latest, recycled)
    requires i < |log| && i !in given && ActionOf(log[i].kind).NotifySender? && g.acted <= g.locked
    requires !(flags[log[i].slot].ready && flags[log[i].slot].notPreserved)
    ensures role[log[i].slot] == Message(i)
    ensures RequestInv(log, g, given + {i}, role, flags[log[i].slot := flags[log[i].slot].(discarded := true)],
                       kind, latest, recycled)
  {
    assert RequestAt(log[i], i, g, given, role, flags, kind, latest, recycled[i]);
  }

  lemma RequestsGiveEnds(log: seq<Entry>, g: Progress, given: set<nat>, role: seq<Role>, flags: seq<Flags>, kind: seq<nat>,
                         latest: seq<int>, recycled: seq<nat>, i: nat, r: Role)
    requires RequestInv(log, g, given, role, flags, kind, latest, recycled)
    requires i < |log| && i !in given && ActionOf(log[i].kind).NotifySender? && g.acted <= g.locked && r.Owned?
    requires flags[log[i].slot].ready && flags[log[i].slot].notPreserved
    ensures role[log[i].slot] == Message(i)
    ensures RequestInv(log, g, given + {i}, role[log[i].slot := r], flags[log[i].slot := flags[log[i].slot].(discarded := true)],
                       kind, latest, recycled[i := recycled[i] + 1])
  {
    assert RequestAt(log[i], i, g, given, role, flags, kind, latest, recycled[i]);
  }

  // ----- The recycling routine -----

  lemma ClearFlagsKeeps(s: State, t: nat)
    requires Inv(s) && t < |s.pc| && s.pc[t].Recycling? && s.pc[t].stage.Clear?
    ensures Inv(ClearFlags(s, t))
  {
    OwnWriteKeeps(s, t, ClearFlags(s, t));
  }

  /** The recycling thread t writes to its own slot, at most. */
  lemma OwnWriteKeeps(s: State, t: nat, s': State)
    requires Inv(s) && t < |s.pc| && s.pc[t].Recycling? && !s.pc[t].stage.Release?
    requires s' == s.(pc := s'.pc, next := s'.next, flags := s'.flags)
    requires |s'.pc| == |s.pc| && s'.pc == s.pc[t := s'.pc[t]]
    requires s'.pc[t].Recycling? && s'.pc[t] == s.pc[t].(stage := s'.pc[t].stage) && !s'.pc[t].stage.Release?
    requires Agree(s.next, s'.next, s.pc[t].x) && Agree(s.flags, s'.flags, s.pc[t].x)
    requires OwnerAt(t, s'.pc[t], s'.next, s.role, s'.flags, s.kind)
    ensures Inv(s')
  {
    OwnWriteSlots(s, t, s');
    Tallies(s.pc, t, s'.pc[t]);
    QuietMove(s, t, s'.pc[t]);
    QueueElsewhere(s, t, s');
  }

  lemma OwnWriteSlots(s: State, t: nat, s': State)
    requires SlotsInv(s) && t < |s.pc| && s.pc[t].Recycling? && !s.pc[t].stage.Release?
    requires s' == s.(pc := s'.pc, next := s'.next, flags := s'.flags)
    requires |s'.pc| == |s.pc| && s'.pc == s.pc[t := s'.pc[t]]
    requires s'.pc[t].Recycling? && s'.pc[t] == s.pc[t].(stage := s'.pc[t].stage) && !s'.pc[t].stage.Release?
    requires Agree(s.next, s'.next, s.pc[t].x) && Agree(s.flags, s'.flags, s.pc[t].x)
    requires OwnerAt(t, s'.pc[t], s'.next, s.role, s'.flags, s.kind)
    ensures SlotsInv(s')
  {
    var x := s.pc[t].x;
    assert OwnerAt(t, s.pc[t], s.next, s.role, s.flags, s.kind);
    StackElsewhere(s.free, s.top, s.next, s.role, s.flags, s'.next, s.role, s'.flags, x);
    OwnerWrites(s.pc, s.next, s.role, s.flags, s.kind, s'.next, s'.flags, s.kind, t, s'.pc[t]);
    RequestsElsewhere(s.log, ProgressOf(s), s.given, s.role, s.flags, s.kind, s.latest, s.recycled, s.role, s'.flags, s.kind, x);
  }

  /** No waiting request's link is in a slot that a thread owns. */
  lemma QueueElsewhere(s: State, t: nat, s': State)
    requires SlotsInv(s) && t < |s.pc| && s.pc[t].Recycling? && !s.pc[t].stage.Release?
    requires Agree(s.next, s'.next, s.pc[t].x)
    requires QueueInv(s.log, |s.received|, s.last, s.next, s'.pc)
    ensures QueueInv(s.log, |s.received|, s.last, s'.next, s'.pc)
  {
    var x := s.pc[t].x;
    forall i | |s.received| <= i < |s.log| ensures !Precedes(x, s.log, i, Dummy(s.next)) {
      assert OwnerAt(t, s.pc[t], s.next, s.role, s.flags, s.kind);
      PredecessorBusy(s, i);
    }
    QueueAgrees(s.log, |s.received|, s.last, s.next, s'.next, s'.pc, x);
  }

  lemma QueueAgrees(log: seq<Entry>, r: nat, last: nat, next: seq<nat>, next': seq<nat>, pc: seq<Pc>, x: nat)
    requires QueueInv(log, r, last, next, pc) && Agree(next, next', x)
    requires forall i :: r <= i < |log| ==> !Precedes(x, log, i, Dummy(next))
    ensures QueueInv(log, r, last, next', pc)
  {
    forall i | r <= i < |log| ensures LinkedAt(log, i, next') || LinkPending(log[i], i, pc) {
      assert LinkedAt(log, i, next) || LinkPending(log[i], i, pc);
      assert !Precedes(x, log, i, Dummy(next));
    }
  }

  lemma RecycleLoadTopKeeps(s: State, t: nat)
    requires Inv(s) && t < |s.pc| && s.pc[t].Recycling? && (s.pc[t].stage.LoadTop? || s.pc[t].stage.Swing?)
    ensures Inv(RecycleLoadTop(s, t))
  {
    assert OwnerAt(t, s.pc[t], s.next, s.role, s.flags, s.kind);
    OwnWriteKeeps(s, t, RecycleLoadTop(s, t));
  }

  lemma RecycleLinkKeeps(s: State, t: nat)
    requires Inv(s) && t < |s.pc| && s.pc[t].Recycling? && s.pc[t].stage.WriteLink?
    ensures Inv(RecycleLink(s, t))
  {
    assert OwnerAt(t, s.pc[t], s.next, s.role, s.flags, s.kind);
    OwnWriteKeeps(s, t, RecycleLink(s, t));
  }

  lemma PushSlotKeeps(s: State, t: nat)
    requires Inv(s) && t < |s.pc| && s.pc[t].Recycling? && s.pc[t].stage.Swing? && s.top == s.pc[t].stage.top
    ensures Inv(PushSlot(s, t))
  {
    PushSlots(s, t);
    Tallies(s.pc, t, PushSlot(s, t).pc[t]);
    QuietMove(s, t, PushSlot(s, t).pc[t]);
  }

  lemma PushSlots(s: State, t: nat)
    requires SlotsInv(s) && t < |s.pc| && s.pc[t].Recycling? && s.pc[t].stage.Swing? && s.top == s.pc[t].stage.top
    ensures SlotsInv(PushSlot(s, t))
  {
    var s' := PushSlot(s, t);
    var x := s.pc[t].x;
    assert OwnerAt(t, s.pc[t], s.next, s.role, s.flags, s.kind);
    StackPush(s.free, s.top, s.next, s.role, s.flags, x);
    OwnerLoses(s.pc, s.next, s.role, s.flags, s.kind, t, s'.pc[t], Free(|s.free|));
    RequestsElsewhere(s.log, ProgressOf(s), s.given, s.role, s.flags, s.kind, s.latest, s.recycled, s'.role, s.flags, s.kind, x);
  }

  lemma ReleaseTokenKeeps(s: State, t: nat)
    requires Inv(s) && t < |s.pc| && s.pc[t].Recycling? && s.pc[t].stage.Release?
    ensures Inv(ReleaseToken(s, t))
  {
    ReleaseSlots(s, t);
    ReleaseQueues(s, t);
  }

  lemma ReleaseSlots(s: State, t: nat)
    requires SlotsInv(s) && t < |s.pc| && s.pc[t].Recycling? && s.pc[t].stage.Release?
    ensures SlotsInv(ReleaseToken(s, t))
  {
    OwnerMove(s.pc, s.next, s.role, s.flags, s.kind, t, Resume(s.pc[t].after));
  }

  lemma ReleaseQueues(s: State, t: nat)
    requires QueuesInv(s) && ThreadsInv(s.pc) && t < |s.pc| && s.pc[t].Recycling? && s.pc[t].stage.Release?
    ensures QueuesInv(ReleaseToken(s, t))
  {
    var p := Resume(s.pc[t].after);
    Tallies(s.pc, t, p);
    QuietMove(s, t, p);
  }

  // ----- The consumer -----

  /** The consumer moves on without touching a slot. */
  predicate ConsumerMove(s: State, s': State) {
    && 0 < |s.pc| == |s'.pc| && s'.pc == s.pc[0 := s'.pc[0]]
    && s' == s.(pc := s'.pc, mp := s'.mp, sc := s'.sc, prev := s'.prev, received := s'.received)
    && IsConsumer(s.pc[0]) && IsConsumer(s'.pc[0]) && !s.pc[0].Recycling? && !s'.pc[0].Recycling?
    && ProgressOf(s') == ProgressOf(s)
  }

  lemma ConsumerMoveKeeps(s: State, s': State)
    requires Inv(s) && ConsumerMove(s, s')
    requires ConsumerInv(s'.pc[0], s'.prev, s'.received, s.log, Dummy(s.next))
    requires |s.received| <= |s'.received|
    requires forall t :: 1 <= t < |s.pc| && s.pc[t].Exchanged? ==> |s'.received| <= s.pc[t].i
    requires |s.received| + s.mp + s.sc + (if s.pc[0].Claimed? then 1 else 0)
          == |s'.received| + s'.mp + s'.sc + (if s'.pc[0].Claimed? then 1 else 0)
    ensures Inv(s')
  {
    OwnerMove(s.pc, s.next, s.role, s.flags, s.kind, 0, s'.pc[0]);
    ConsumerMoveQueues(s, s');
  }

  lemma ConsumerMoveQueues(s: State, s': State)
    requires QueuesInv(s) && ConsumerMove(s, s')
    requires ConsumerInv(s'.pc[0], s'.prev, s'.received, s.log, Dummy(s.next))
    requires |s.received| <= |s'.received|
    requires forall t :: 1 <= t < |s.pc| && s.pc[t].Exchanged? ==> |s'.received| <= s.pc[t].i
    requires |s.received| + s.mp + s.sc + (if s.pc[0].Claimed? then 1 else 0)
          == |s'.received| + s'.mp + s'.sc + (if s'.pc[0].Claimed? then 1 else 0)
    ensures QueuesInv(s')
  {
    Tallies(s.pc, 0, s'.pc[0]);
    QuietMove(s, 0, s'.pc[0]);
  }

  lemma TakeOverKeeps(s: State)
    requires Inv(s) && s.pc[0].Waiting?
    ensures Inv(TakeOver(s))
  {
    assert s.pc == s.pc[0 := s.pc[0]];
    PendingUnreceived(s);
    ConsumerMoveKeeps(s, TakeOver(s));
  }

  lemma ClaimKeeps(s: State)
    requires Inv(s) && s.pc[0].Waiting? && s.sc > 0
    ensures Inv(Claim(s))
  {
    PendingUnreceived(s);
    ConsumerMoveKeeps(s, Claim(s));
  }

  lemma PendingUnreceived(s: State)
    requires SenderInv(s.log, |s.received|, s.pc, Dummy(s.next))
    ensures forall t :: 1 <= t < |s.pc| && s.pc[t].Exchanged? ==> |s.received| <= s.pc[t].i
  {
    forall t | 1 <= t < |s.pc| && s.pc[t].Exchanged? ensures |s.received| <= s.pc[t].i {
      assert SenderAt(t, s.pc[t], s.log, |s.received|, Dummy(s.next));
    }
  }

  lemma FetchKeeps(s: State)
    requires Inv(s) && s.pc[0].Claimed? && LinkWritten(s)
    ensures Inv(Fetch(s))
  {
    LinkedNext(s.log, |s.received|, s.last, s.next, s.pc, Dummy(s.next));
    ConsumerMoveKeeps(s, Fetch(s));
  }

  /** The next link is written, and those still pending are of later requests. */
  lemma LinkedNext(log: seq<Entry>, r: nat, last: nat, next: seq<nat>, pc: seq<Pc>, dummy: int)
    requires QueueInv(log, r, last, next, pc) && SenderInv(log, r, pc, dummy)
    requires r < |log| && !LinkPending(log[r], r, pc)
    ensures LinkedAt(log, r, next) && forall t :: 1 <= t < |pc| && pc[t].Exchanged? ==> r + 1 <= pc[t].i
  {
    assert LinkedAt(log, r, next);
    forall t | 1 <= t < |pc| && pc[t].Exchanged? ensures r + 1 <= pc[t].i {
      assert SenderAt(t, pc[t], log, r, dummy);
    }
  }

  lemma AdvanceKeeps(s: State)
    requires Inv(s) && s.pc[0].Unlocked?
    ensures Inv(Advance(s))
  {
    PendingUnreceived(s);
    ConsumerMoveKeeps(s, Advance(s));
  }
}
