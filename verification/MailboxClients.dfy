/**
 How many clients the mailbox is safe for, whatever they do.
 */
module MailboxClients {
  import opened Mailbox
  import opened MailboxInvariant
  import opened MailboxSteps
  import opened MailboxTheorems
  import opened MailboxSoleSender
  import opened MailboxOvertaking
  import opened MailboxProperties
  import opened MailboxThreeSlots

  /** If the consumer is about to follow a link, it leads to a slot. */
  predicate FollowsSlot(s: State) {
    |s.pc| > 0 && s.pc[0].Claimed? ==> s.prev < |s.next| && s.next[s.prev] < |s.next|
  }

  /** If the free stack offers a slot, that slot is free. */
  predicate OffersFree(s: State) {
    s.top < |s.role| && s.top != Dummy(s.next) ==> s.role[s.top].Free?
  }

  /** In every run the consumer follows only links that lead to slots. */
  ghost predicate AlwaysFollowsSlots(slotCount: nat, clients: nat)
    requires slotCount > 0
  {
    forall moves: seq<Move> {:trigger IsRun(Init(slotCount, clients), moves)} ::
      IsRun(Init(slotCount, clients), moves) ==> FollowsSlot(StateAfter(Init(slotCount, clients), moves))
  }

  /** In every run the free stack offers only free slots. */
  ghost predicate AlwaysOffersFree(slotCount: nat, clients: nat)
    requires slotCount > 0
  {
    forall moves: seq<Move> {:trigger IsRun(Init(slotCount, clients), moves)} ::
      IsRun(Init(slotCount, clients), moves) ==> OffersFree(StateAfter(Init(slotCount, clients), moves))
  }

  // ----- One client, or none -----

  /** The only client is the only sender, whatever it does. */
  lemma {:induction false} OneClientEnds(s: State, moves: seq<Move>)
    requires Inv(s) && Sole(s, 1) && |s.pc| == 2 && IsRun(s, moves)
    ensures Inv(StateAfter(s, moves)) && Sole(StateAfter(s, moves), 1)
    decreases |moves|
  {
    if moves != [] {
      var t, op := moves[0].thread, moves[0].op;
      SoleStepKeeps(s, 1, t, op);
      StepHasShape(s, t, op);
      OneClientEnds(Step(s, t, op), moves[1..]);
    }
  }

  /** Without clients nothing moves. */
  lemma NoClientStands(slotCount: nat, moves: seq<Move>)
    requires slotCount > 0 && IsRun(Init(slotCount, 0), moves)
    ensures moves == []
  {
  }

  lemma FewClientsAreSafe(slotCount: nat, clients: nat, moves: seq<Move>)
    requires slotCount > 0 && clients <= 1 && IsRun(Init(slotCount, clients), moves)
    ensures FollowsSlot(StateAfter(Init(slotCount, clients), moves)) && OffersFree(StateAfter(Init(slotCount, clients), moves))
  {
    var s0 := Init(slotCount, clients);
    InitHolds(slotCount, clients);
    if clients == 0 {
      NoClientStands(slotCount, moves);
      InvIsSafe(s0);
    } else {
      OneClientEnds(s0, moves);
      SoleFollowsSlot(StateAfter(s0, moves), 1);
      InvIsSafe(StateAfter(s0, moves));
    }
  }

  lemma InvIsSafe(s: State)
    requires Inv(s)
    ensures OffersFree(s)
  {
  }

  lemma SoleFollowsSlot(s: State, t0: nat)
    requires Inv(s) && Sole(s, t0)
    ensures FollowsSlot(s)
  {
    if s.pc[0].Claimed? {
      SoleFetchFindsLink(s, t0);
      WrittenLinkIsSlot(s);
    }
  }

  lemma WrittenLinkIsSlot(s: State)
    requires Inv(s) && s.pc[0].Claimed? && LinkWritten(s)
    ensures FollowsSlot(s)
  {
    var r := |s.received|;
    assert LinkedAt(s.log, r, s.next);
    assert RequestAt(s.log[r], r, ProgressOf(s), s.given, s.role, s.flags, s.kind, s.latest, s.recycled[r]);
  }

  // ----- One slot besides the dummy, or none -----

  /** What any client has read of the free stack is still so. */
  predicate AllReadsStand(s: State) {
    forall t {:trigger ReadsStand(s, t)} :: 0 <= t < |s.pc| ==> ReadsStand(s, t)
  }

  lemma SmallStack(s: State)
    requires Inv(s) && |s.next| <= 2
    ensures |s.free| <= 1
  {
    assert s.role[Dummy(s.next)].Retired?;
    assert forall k :: 0 <= k < |s.free| ==> s.free[k] == 0;
  }

  /** Only one thread holds a token. */
  lemma OneToken(s: State, t: nat, u: nat)
    requires Inv(s) && |s.next| <= 2 && t < |s.pc| && u < |s.pc| && t != u && Weight(Tokens, s.pc[t]) == 1
    ensures Weight(Tokens, s.pc[u]) == 0
  {
    SmallStack(s);
    TotalUpdate(Tokens, s.pc, t, Waiting);
    TotalUpdate(Tokens, s.pc[t := Waiting], u, Waiting);
  }

  /** Only one request is in the queue, so the counter cannot speak of another. */
  lemma SmallFetchFindsLink(s: State)
    requires Inv(s) && |s.next| <= 2 && s.pc[0].Claimed?
    ensures LinkWritten(s)
  {
    var r := |s.received|;
    CounterIsBounded(s);
    if LinkPending(s.log[r], r, s.pc) {
      TotalUpdate(Unannounced, s.pc, s.log[r].sender, Waiting);
    }
  }

  lemma OtherReadsStand(s: State, t: nat, op: Op, u: nat)
    requires Inv(s) && |s.next| <= 2 && AllReadsStand(s) && Enabled(s, t, op) && u < |s.pc| && u != t
    ensures ReadsStand(Step(s, t, op), u)
  {
    assert ReadsStand(s, u);
    StepHasShape(s, t, op);
    if op.OpPop? {
      OneToken(s, t, u);
    } else {
      OthersLeaveFreeSlots(s, t, op);
    }
  }

  lemma SmallStepDisciplined(s: State, t: nat, op: Op)
    requires Inv(s) && |s.next| <= 2 && AllReadsStand(s) && Enabled(s, t, op)
    ensures Disciplined(s, t, op)
  {
    assert ReadsStand(s, t);
    if op.OpFetch? {
      SmallFetchFindsLink(s);
    }
  }

  lemma ReadsStandAfter(s: State, t: nat, op: Op)
    requires Inv(s) && |s.next| <= 2 && AllReadsStand(s) && Enabled(s, t, op)
    ensures AllReadsStand(Step(s, t, op))
  {
    var s' := Step(s, t, op);
    StepHasShape(s, t, op);
    forall u | 0 <= u < |s'.pc| ensures ReadsStand(s', u) {
      assert ReadsStand(s, u);
      if u == t {
        SenderReadsStand(s, t, op);
      } else {
        OtherReadsStand(s, t, op, u);
      }
    }
  }

  lemma SmallStepKeeps(s: State, t: nat, op: Op)
    requires Inv(s) && |s.next| <= 2 && AllReadsStand(s) && Enabled(s, t, op)
    ensures Inv(Step(s, t, op)) && AllReadsStand(Step(s, t, op)) && |Step(s, t, op).next| == |s.next|
  {
    SmallStepDisciplined(s, t, op);
    StepKeeps(s, t, op);
    ReadsStandAfter(s, t, op);
    SlotsStay(s, t, op);
  }

  lemma {:induction false} SmallEnds(s: State, moves: seq<Move>)
    requires Inv(s) && |s.next| <= 2 && AllReadsStand(s) && IsRun(s, moves)
    ensures Inv(StateAfter(s, moves)) && |StateAfter(s, moves).next| <= 2
    decreases |moves|
  {
    if moves != [] {
      SmallStepKeeps(s, moves[0].thread, moves[0].op);
      SmallEnds(Step(s, moves[0].thread, moves[0].op), moves[1..]);
    }
  }

  lemma FewSlotsAreSafe(slotCount: nat, clients: nat, moves: seq<Move>)
    requires 0 < slotCount <= 2 && IsRun(Init(slotCount, clients), moves)
    ensures FollowsSlot(StateAfter(Init(slotCount, clients), moves)) && OffersFree(StateAfter(Init(slotCount, clients), moves))
  {
    var s0 := Init(slotCount, clients);
    InitHolds(slotCount, clients);
    SmallEnds(s0, moves);
    var s := StateAfter(s0, moves);
    InvIsSafe(s);
    if s.pc[0].Claimed? {
      SmallFetchFindsLink(s);
      WrittenLinkIsSlot(s);
    }
  }

  // ----- Two slots besides the dummy -----

  /** The consumer may stop, but the free stack stays right. */
  lemma ThreeSlotsOfferFree(clients: nat, moves: seq<Move>)
    requires IsRun(Init(3, clients), moves)
    ensures OffersFree(StateAfter(Init(3, clients), moves))
  {
    var s0 := Init(3, clients);
    InitHolds(3, clients);
    ThreeSlotsEnd(s0, moves);
    if Inv(StateAfter(s0, moves)) {
      InvIsSafe(StateAfter(s0, moves));
    }
  }

  // ----- Exactly when it is safe -----

  lemma SafeRuns(slotCount: nat, clients: nat)
    requires 0 < slotCount && (clients <= 1 || slotCount <= 2)
    ensures AlwaysFollowsSlots(slotCount, clients) && AlwaysOffersFree(slotCount, clients)
  {
    forall moves: seq<Move> {:trigger IsRun(Init(slotCount, clients), moves)} | IsRun(Init(slotCount, clients), moves)
      ensures FollowsSlot(StateAfter(Init(slotCount, clients), moves))
      ensures OffersFree(StateAfter(Init(slotCount, clients), moves))
    {
      if clients <= 1 {
        FewClientsAreSafe(slotCount, clients, moves);
      } else {
        FewSlotsAreSafe(slotCount, clients, moves);
      }
    }
  }

  /** The consumer follows only links to slots, in every run, if and only if there is at most one client, or at most
      one slot besides the dummy. */
  lemma LinksSafeExactly(slotCount: nat, clients: nat)
    requires slotCount > 0
    ensures AlwaysFollowsSlots(slotCount, clients) <==> clients <= 1 || slotCount <= 2
  {
    var s0 := Init(slotCount, clients);
    if clients <= 1 || slotCount <= 2 {
      SafeRuns(slotCount, clients);
    } else {
      var s := FetchOvertakesLink(slotCount, clients);
      var moves :| IsRun(s0, moves) && StateAfter(s0, moves) == s;
      assert !FollowsSlot(StateAfter(s0, moves));
    }
  }

  /** The free stack offers only free slots, in every run, if and only if there is at most one client, or at most
      two slots besides the dummy. */
  lemma StackSafeExactly(slotCount: nat, clients: nat)
    requires slotCount > 0
    ensures AlwaysOffersFree(slotCount, clients) <==> clients <= 1 || slotCount <= 3
  {
    var s0 := Init(slotCount, clients);
    if clients <= 1 || slotCount <= 2 {
      SafeRuns(slotCount, clients);
    } else if slotCount == 3 {
      forall moves: seq<Move> {:trigger IsRun(s0, moves)} | IsRun(s0, moves) ensures OffersFree(StateAfter(s0, moves)) {
        ThreeSlotsOfferFree(clients, moves);
      }
    } else {
      var s := PopOvertaken(slotCount, clients);
      ReachStep(s0, s, 1, OpPop);
      var moves :| IsRun(s0, moves) && StateAfter(s0, moves) == PopSlot(s, 1);
      assert !OffersFree(StateAfter(s0, moves));
    }
  }
}
