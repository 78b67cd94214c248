/**
 With several senders the discipline is not automatic, and it is exactly what the invariant needs.
 */
module MailboxOvertaking {
  import opened Mailbox
  import opened MailboxInvariant
  import opened MailboxSteps
  import opened MailboxTheorems

  // ----- The discipline is exactly what the invariant needs -----

  /** A pop keeps the invariant if and only if the slot it installs is the one below the top. */
  lemma PopKeepsExactly(s: State, t: nat)
    requires Inv(s) && 0 < t < |s.pc| && s.pc[t].Peeked? && s.top == s.pc[t].top < |s.next|
    ensures Inv(PopSlot(s, t)) <==> PopsTrueSuccessor(s, t)
  {
    if PopsTrueSuccessor(s, t) {
      PopKeeps(s, t);
    } else {
      TokenMeansSlot(s, t);
      var s' := PopSlot(s, t);
      assert s'.free != [] ==> s'.free[|s'.free| - 1] == s.free[|s.free| - 2];
      assert !StackInv(s'.free, s'.top, s'.next, s'.role, s'.flags);
    }
  }

  /** Fetching keeps the invariant if and only if the link that is followed has been written. */
  lemma FetchKeepsExactly(s: State)
    requires Inv(s) && s.pc[0].Claimed?
    ensures Inv(Fetch(s)) <==> LinkWritten(s)
  {
    var r := |s.received|;
    if LinkWritten(s) {
      FetchKeeps(s);
    } else if r < |s.log| {
      var t := s.log[r].sender;
      assert s.pc[t].Exchanged? && s.pc[t].i == r;
      assert !SenderAt(t, Fetch(s).pc[t], s.log, r + 1, Dummy(s.next));
      assert !SenderInv(s.log, r + 1, Fetch(s).pc, Dummy(s.next));
    }
  }

  // ----- Two senders can break it -----

  ghost predicate Reaches(s: State, s': State) {
    exists moves :: IsRun(s, moves) && StateAfter(s, moves) == s'
  }

  lemma {:induction false} RunExtends(s: State, moves: seq<Move>, m: Move)
    requires IsRun(s, moves) && Enabled(StateAfter(s, moves), m.thread, m.op)
    ensures IsRun(s, moves + [m]) && StateAfter(s, moves + [m]) == Step(StateAfter(s, moves), m.thread, m.op)
    decreases |moves|
  {
    if moves == [] {
      assert moves + [m] == [m];
    } else {
      assert (moves + [m])[1..] == moves[1..] + [m];
      RunExtends(Step(s, moves[0].thread, moves[0].op), moves[1..], m);
    }
  }

  lemma ReachStep(s: State, s1: State, t: nat, op: Op)
    requires Reaches(s, s1) && Enabled(s1, t, op)
    ensures Reaches(s, Step(s1, t, op))
  {
    var moves :| IsRun(s, moves) && StateAfter(s, moves) == s1;
    RunExtends(s, moves, Move(t, op));
  }

  lemma ReachStart(s: State)
    ensures Reaches(s, s)
  {
    assert IsRun(s, []) && StateAfter(s, []) == s;
  }

  /** Thread t takes a slot and puts it at the end of the queue, without linking it. */
  function Sent(s: State, t: nat, slot: nat, below: nat, kind: nat): State
    requires slot < |s.kind| == |s.role| == |s.latest| && t < |s.pc|
  {
    s.(sem := if s.sem > 0 then s.sem - 1 else 0, top := below, last := slot, kind := s.kind[slot := kind],
       pc := s.pc[t := Exchanged(slot, s.last, |s.log|)],
       role := s.role[slot := Message(|s.log|)], free := if s.free == [] then [] else s.free[..|s.free| - 1],
       log := s.log + [Entry(slot, kind, t)], latest := s.latest[slot := |s.log|], recycled := s.recycled + [0])
  }

  lemma ReachSent(s: State, s1: State, t: nat, kind: nat)
    requires Reaches(s, s1) && Shaped(s1) && 0 < t < |s1.pc| && s1.pc[t].Idle? && s1.sem > 0 && s1.top < |s1.next|
    requires Serviceable(kind)
    ensures Reaches(s, Sent(s1, t, s1.top, s1.next[s1.top], kind))
  {
    ReachStep(s, s1, t, OpAcquireToken);
    var s2 := AcquireToken(s1, t);
    ReachStep(s, s2, t, OpLoadTop);
    var s3 := LoadFreeTop(s2, t);
    ReachStep(s, s3, t, OpPeek);
    ReachPopped(s, Peek(s3, t), t, kind);
  }

  lemma ReachPopped(s: State, s1: State, t: nat, kind: nat)
    requires Reaches(s, s1) && Shaped(s1) && 0 < t < |s1.pc| && s1.pc[t].Peeked? && s1.pc[t].top == s1.top < |s1.next|
    requires Serviceable(kind)
    ensures Reaches(s, ExchangeLast(Fill(PopSlot(s1, t), t, kind), t))
  {
    ReachStep(s, s1, t, OpPop);
    var s2 := PopSlot(s1, t);
    ReachStep(s, s2, t, OpFill(kind));
    ReachStep(s, Fill(s2, t, kind), t, OpExchange);
  }

  lemma ReachAnnounced(s: State, s1: State, t: nat)
    requires Reaches(s, s1) && Shaped(s1) && 0 < t < |s1.pc| && s1.pc[t].Exchanged?
    requires s1.pc[t].p < |s1.next| && s1.pc[t].i < |s1.log|
    ensures Reaches(s, Announce(Link(s1, t), t))
  {
    ReachStep(s, s1, t, OpLink);
    ReachStep(s, Link(s1, t), t, OpAnnounce);
  }

  lemma ReachClaimed(s: State, s1: State)
    requires Reaches(s, s1) && Shaped(s1) && s1.pc[0].Waiting? && s1.sc == 0 && s1.mp > 0
    ensures Reaches(s, Claim(TakeOver(s1)))
  {
    ReachStep(s, s1, 0, OpTakeOver);
    ReachStep(s, TakeOver(s1), 0, OpClaim);
  }

  /** Two sends interleave so that the counter speaks of the second while the first is not linked:
      the consumer then follows the initial link of the dummy, which leads to no slot at all. */
  lemma FetchOvertakesLink(slotCount: nat, clients: nat) returns (s: State)
    requires slotCount >= 3 && clients >= 2
    ensures Reaches(Init(slotCount, clients), s) && Enabled(s, 0, OpFetch) && !LinkWritten(s)
    ensures s.next[s.prev] == |s.next|
  {
    var s0 := Init(slotCount, clients);
    ReachStart(s0);
    ReachSent(s0, s0, 1, 3);
    var s1 := Sent(s0, 1, 0, 1, 3);
    ReachSent(s0, s1, 2, 3);
    var s2 := Sent(s1, 2, 1, 2, 3);
    ReachAnnounced(s0, s2, 2);
    s := Announce(Link(s2, 2), 2);
    ReachClaimed(s0, s);
    s := Claim(TakeOver(s));
  }

  // ----- Macro steps for the second run -----

  lemma ReachPeeked(s: State, s1: State, t: nat)
    requires Reaches(s, s1) && Shaped(s1) && 0 < t < |s1.pc| && s1.pc[t].Idle? && s1.sem > 0 && s1.top < |s1.next|
    ensures Reaches(s, s1.(sem := s1.sem - 1, pc := s1.pc[t := Peeked(s1.top, s1.next[s1.top])]))
  {
    ReachStep(s, s1, t, OpAcquireToken);
    ReachStep(s, AcquireToken(s1, t), t, OpLoadTop);
    ReachStep(s, LoadFreeTop(AcquireToken(s1, t), t), t, OpPeek);
  }

  lemma ReachLocked(s: State, s1: State)
    requires Reaches(s, s1) && Shaped(s1) && s1.pc[0].Waiting? && s1.sc > 0 && s1.prev < |s1.next|
    requires s1.next[s1.prev] < |s1.next| && |s1.received| < |s1.log|
    ensures Reaches(s, Lock(Fetch(Claim(s1))))
  {
    ReachStep(s, s1, 0, OpClaim);
    ReachStep(s, Claim(s1), 0, OpFetch);
    ReachStep(s, Fetch(Claim(s1)), 0, OpLock);
  }

  lemma ReachActed(s: State, s1: State)
    requires Reaches(s, s1) && Shaped(s1) && s1.pc[0].Locked? && s1.prev < |s1.next| && s1.pc[0].n < |s1.next|
    requires !s1.flags[s1.prev].ready
    ensures Reaches(s, Act(Advance(Unlock(s1))))
  {
    ReachStep(s, s1, 0, OpUnlock);
    ReachStep(s, Unlock(s1), 0, OpAdvance);
    ReachStep(s, Advance(Unlock(s1)), 0, OpAct);
  }

  /** The previous request's slot, once unlocked, goes back on the free stack. */
  lemma ReachReturned(s: State, s1: State) returns (s': State)
    requires Reaches(s, s1) && Shaped(s1) && s1.pc[0].Locked? && s1.prev < |s1.next|
    requires s1.flags[s1.prev].ready && s1.flags[s1.prev].discarded
    ensures Reaches(s, s') && Shaped(s') && |s'.pc| == |s1.pc| && (forall t :: 1 <= t < |s1.pc| ==> s'.pc[t] == s1.pc[t])
    ensures s'.top == s1.prev && s'.next == s1.next[s1.prev := s1.top] && s'.role == s1.role[s1.prev := Free(|s1.free|)]
  {
    ReachStep(s, s1, 0, OpUnlock);
    s' := Unlock(s1);
    ReachStep(s, s', 0, OpClear);
    s' := ClearFlags(s', 0);
    ReachStep(s, s', 0, OpRecycleLoad);
    s' := RecycleLoadTop(s', 0);
    s' := ReachPushed(s, s');
  }

  lemma ReachPushed(s: State, s1: State) returns (s': State)
    requires Reaches(s, s1) && Shaped(s1) && s1.pc[0].Recycling? && s1.pc[0].x < |s1.next|
    requires s1.pc[0].stage == WriteLink(s1.top)
    ensures Reaches(s, s') && Shaped(s') && |s'.pc| == |s1.pc| && (forall t :: 1 <= t < |s1.pc| ==> s'.pc[t] == s1.pc[t])
    ensures s'.top == s1.pc[0].x && s'.next == s1.next[s1.pc[0].x := s1.top]
    ensures s'.role == s1.role[s1.pc[0].x := Free(|s1.free|)]
  {
    ReachStep(s, s1, 0, OpRecycleLink);
    s' := RecycleLink(s1, 0);
    ReachStep(s, s', 0, OpPush);
    s' := PushSlot(s', 0);
    ReachStep(s, s', 0, OpRelease);
    s' := ReleaseToken(s', 0);
  }

  /** Thread 1 has peeked at slots 0 and 1; thread 2 has sent slot 0. */
  lemma ReachPeekedAndSentOne(slotCount: nat, clients: nat) returns (s: State)
    requires slotCount >= 4 && clients >= 2
    ensures Reaches(Init(slotCount, clients), s) && Shaped(s) && |s.pc| == clients + 1 && |s.next| == slotCount
    ensures s.pc[0] == Waiting && s.pc[1] == Peeked(0, 1) && s.pc[2] == Idle
    ensures s.sem > 0 && s.sc == 0 && s.mp == 1 && s.top == 1 && s.last == 0 && s.prev == slotCount - 1
    ensures s.next[0] == 1 && s.next[1] == 2 && s.next[s.prev] == 0
    ensures s.role[0] == Message(0) && s.log == [Entry(0, 0, 2)] && s.received == []
    ensures s.kind[0] == 0 && s.flags[0] == s.flags[s.prev] == FRESH
  {
    var s0 := Init(slotCount, clients);
    ReachStart(s0);
    ReachPeeked(s0, s0, 1);
    var s1 := s0.(sem := s0.sem - 1, pc := s0.pc[1 := Peeked(0, 1)]);
    ReachSent(s0, s1, 2, 0);
    var s2 := Sent(s1, 2, 0, 1, 0);
    ReachAnnounced(s0, s2, 2);
    s := Announce(Link(s2, 2), 2);
  }

  /** Then it sends slot 1. */
  lemma ReachPeekedAndSentBoth(slotCount: nat, clients: nat) returns (s: State)
    requires slotCount >= 4 && clients >= 2
    ensures Reaches(Init(slotCount, clients), s) && Shaped(s) && |s.pc| == clients + 1 && |s.next| == slotCount
    ensures s.pc[0] == Waiting && s.pc[1] == Peeked(0, 1) && s.sc == 0 && s.mp == 2 && s.top == 2 && s.prev == slotCount - 1
    ensures s.next[0] == 1 && s.next[s.prev] == 0
    ensures s.role[0] == Message(0) && s.role[1] == Message(1) && |s.log| == 2 && s.received == []
    ensures s.kind[0] == 0 && s.flags[0] == s.flags[s.prev] == FRESH
  {
    var s0 := Init(slotCount, clients);
    s := ReachPeekedAndSentOne(slotCount, clients);
    ReachSent(s0, s, 2, 0);
    s := Sent(s, 2, 1, 2, 0);
    ReachAnnounced(s0, s, 2);
    s := Announce(Link(s, 2), 2);
  }

  /** A slot that is popped, used, and pushed again between a peek and its compare-exchange:
      the exchange succeeds and puts a slot that carries a request on top of the free stack. */
  lemma PopOvertaken(slotCount: nat, clients: nat) returns (s: State)
    requires slotCount >= 4 && clients >= 2
    ensures Reaches(Init(slotCount, clients), s) && Enabled(s, 1, OpPop) && !PopsTrueSuccessor(s, 1)
    ensures |s.next| == slotCount && s.top == 0 && PopSlot(s, 1).top == 1 && s.role[1] == Message(1)
  {
    var s0 := Init(slotCount, clients);
    s := ReachPeekedAndSentBoth(slotCount, clients);
    s := ReachFirstRound(s0, s);
    ReachLocked(s0, s);
    s := Lock(Fetch(Claim(s)));
    s := ReachReturned(s0, s);
  }

  /** The consumer takes over both requests and handles the first. */
  lemma ReachFirstRound(s0: State, s1: State) returns (s: State)
    requires Reaches(s0, s1) && Shaped(s1) && |s1.next| >= 4 && |s1.log| == 2 && s1.received == []
    requires s1.pc[0] == Waiting && s1.sc == 0 && s1.mp == 2 && s1.prev == |s1.next| - 1 && s1.next[s1.prev] == 0
    requires s1.flags[0] == s1.flags[s1.prev] == FRESH && s1.kind[0] == 0
    ensures Reaches(s0, s) && Shaped(s) && s == s1.(pc := s.pc, mp := 0, sc := 1, prev := 0, flags := s.flags, received := [0])
    ensures s.pc == s1.pc && |s.flags| == |s1.next| && s.flags[0].ready && s.flags[0].discarded
  {
    ReachStep(s0, s1, 0, OpTakeOver);
    var s2 := TakeOver(s1);
    ReachLocked(s0, s2);
    var s3 := Lock(Fetch(Claim(s2)));
    ReachActed(s0, s3);
    s := Act(Advance(Unlock(s3)));
    assert s.pc == s1.pc;
  }
}
