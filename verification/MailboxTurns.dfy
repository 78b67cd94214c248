/**
 Any number of clients that take turns at sending, as when they guard it with a lock, need no assumption either.
 */
module MailboxTurns {
  import opened Mailbox
  import opened MailboxInvariant
  import opened MailboxSteps
  import opened MailboxTheorems
  import opened MailboxSoleSender
  import opened MailboxProperties

  /** From acquiring a token to announcing the request. */
  predicate InSend(p: Pc) {
    p.Token? || p.Loaded? || p.Peeked? || p.Acquired? || p.Filled? || p.Exchanged? || p.Linked?
  }

  predicate NoneInSend(pc: seq<Pc>) {
    forall t :: 0 <= t < |pc| ==> !InSend(pc[t])
  }

  /** No send starts before the one before has ended. */
  predicate TakesTurns(s: State, moves: seq<Move>)
    requires IsRun(s, moves)
    decreases |moves|
  {
    moves == [] ||
    (&& (moves[0].op.OpAcquireToken? ==> NoneInSend(s.pc))
     && TakesTurns(Step(s, moves[0].thread, moves[0].op), moves[1..]))
  }

  /** A thread inside the enqueue routine is there for the last request. */
  predicate SendsLast(p: Pc, log: seq<Entry>) {
    (p.Exchanged? || p.Linked?) ==> p.i == |log| - 1
  }

  /** At most one thread is sending; it has read what is so, and its request is the last. */
  predicate OneSends(s: State) {
    && (forall t, u :: 0 <= t < u < |s.pc| ==> !InSend(s.pc[t]) || !InSend(s.pc[u]))
    && (forall t {:trigger ReadsStand(s, t)} :: 0 <= t < |s.pc| ==> ReadsStand(s, t))
    && (forall t :: 0 <= t < |s.pc| ==> SendsLast(s.pc[t], s.log))
  }

  /** The request being sent is the last, so the counter does not speak of any after it. */
  lemma TurnFetchFindsLink(s: State)
    requires Inv(s) && OneSends(s) && s.pc[0].Claimed?
    ensures LinkWritten(s)
  {
    var r := |s.received|;
    if r < |s.log| && LinkPending(s.log[r], r, s.pc) {
      assert SendsLast(s.pc[s.log[r].sender], s.log);
      TotalUpdate(Unannounced, s.pc, s.log[r].sender, Waiting);
    }
  }

  lemma TurnStepDisciplined(s: State, t: nat, op: Op)
    requires Inv(s) && OneSends(s) && Enabled(s, t, op)
    ensures Disciplined(s, t, op)
  {
    assert ReadsStand(s, t);
    if op.OpFetch? {
      TurnFetchFindsLink(s);
    }
  }

  /** A thread that was not sending is sending after a step only if it has acquired a token. */
  lemma SendStarts(s: State, t: nat, op: Op)
    requires Enabled(s, t, op)
    ensures InSend(Step(s, t, op).pc[t]) ==> InSend(s.pc[t]) || op.OpAcquireToken?
    ensures op.OpPop? || op.OpExchange? ==> InSend(s.pc[t])
    ensures SendsLast(s.pc[t], s.log) ==> SendsLast(Step(s, t, op).pc[t], Step(s, t, op).log)
  {
  }

  lemma OthersStand(s: State, t: nat, op: Op, s': State, u: nat)
    requires Inv(s) && OneSends(s) && Enabled(s, t, op) && s' == Step(s, t, op) && u < |s.pc| && u != t
    requires op.OpAcquireToken? ==> NoneInSend(s.pc)
    ensures ReadsStand(s', u)
  {
    assert ReadsStand(s, u);
    SendStarts(s, t, op);
    StepHasShape(s, t, op);
    if InSend(s.pc[u]) {
      OthersLeaveFreeSlots(s, t, op);
    }
  }

  lemma OneSendsAfter(s: State, t: nat, op: Op, s': State)
    requires Inv(s) && OneSends(s) && Enabled(s, t, op) && s' == Step(s, t, op)
    requires op.OpAcquireToken? ==> NoneInSend(s.pc)
    ensures OneSends(s')
  {
    SendStarts(s, t, op);
    StepHasShape(s, t, op);
    forall u | 0 <= u < |s'.pc| ensures ReadsStand(s', u) {
      assert ReadsStand(s, u);
      if u == t {
        SenderReadsStand(s, t, op);
      } else {
        OthersStand(s, t, op, s', u);
      }
    }
    forall u | 0 <= u < |s'.pc| ensures SendsLast(s'.pc[u], s'.log) {
      assert SendsLast(s.pc[u], s.log) && SendsLast(s.pc[t], s.log);
    }
  }

  /** Main result for clients that take turns: the invariant holds along every run. */
  lemma {:induction false} TurnsRunKeeps(s: State, moves: seq<Move>)
    requires Inv(s) && OneSends(s) && IsRun(s, moves) && TakesTurns(s, moves)
    ensures HoldsAlong(s, moves)
    decreases |moves|
  {
    if moves != [] {
      var t, op := moves[0].thread, moves[0].op;
      TurnStepDisciplined(s, t, op);
      StepKeeps(s, t, op);
      OneSendsAfter(s, t, op, Step(s, t, op));
      TurnsRunKeeps(Step(s, t, op), moves[1..]);
    }
  }

  /** Wherever a run of clients that take turns leads: every slot is in one place, what was received is what was
      queued, in order, nothing was recycled twice, no request whose handle is held was recycled, and exactly the requests
      sent of a notify kind have a handle, which can be given up. */
  lemma TurnsSafety(slotCount: nat, clients: nat, moves: seq<Move>)
    requires slotCount > 0 && IsRun(Init(slotCount, clients), moves) && TakesTurns(Init(slotCount, clients), moves)
    ensures HoldsAlong(Init(slotCount, clients), moves)
    ensures var s := StateAfter(Init(slotCount, clients), moves);
            && Inv(s)
            && (forall x :: 0 <= x < |s.next| ==> Places(s, x) == 1)
            && |s.received| <= |s.log| && (forall i :: 0 <= i < |s.received| ==> s.received[i] == s.log[i].slot)
            && (forall i :: 0 <= i < |s.log| ==> s.recycled[i] <= if i in s.handles then 0 else 1)
            && HandlesExact(s) && HandlesUsable(s)
  {
    var s0 := Init(slotCount, clients);
    InitHolds(slotCount, clients);
    TurnsRunKeeps(s0, moves);
    HoldsAtEnd(s0, moves);
    SafeAt(StateAfter(s0, moves));
  }

  /** A sole sender takes turns with itself. */
  lemma {:induction false} SoleSenderTakesTurns(s: State, t0: nat, moves: seq<Move>)
    requires Inv(s) && Sole(s, t0) && IsRun(s, moves) && SentBy(moves, t0)
    ensures TakesTurns(s, moves)
    decreases |moves|
  {
    if moves != [] {
      var t, op := moves[0].thread, moves[0].op;
      SentByTail(moves, t0);
      SoleStepKeeps(s, t0, t, op);
      SoleSenderTakesTurns(Step(s, t, op), t0, moves[1..]);
    }
  }
}
