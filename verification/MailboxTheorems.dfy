/**
 What holds of every run of the mailbox.
 */
module MailboxTheorems {
  import opened Mailbox
  import opened MailboxInvariant
  import opened MailboxSteps
  import opened MailboxConsumer

  // ----- Runs -----

  datatype Move = Move(thread: nat, op: Op)

  /** The moves can be made one after the other, starting from s. */
  predicate IsRun(s: State, moves: seq<Move>)
    decreases |moves|
  {
    moves == [] ||
    (Enabled(s, moves[0].thread, moves[0].op) && IsRun(Step(s, moves[0].thread, moves[0].op), moves[1..]))
  }

  function StateAfter(s: State, moves: seq<Move>): State
    requires IsRun(s, moves)
    decreases |moves|
  {
    if moves == [] then s else StateAfter(Step(s, moves[0].thread, moves[0].op), moves[1..])
  }

  /** The run never lets a pop be overtaken nor the consumer overtake a link. */
  predicate IsDisciplined(s: State, moves: seq<Move>)
    requires IsRun(s, moves)
    decreases |moves|
  {
    moves == [] ||
    (&& Disciplined(s, moves[0].thread, moves[0].op)
     && IsDisciplined(Step(s, moves[0].thread, moves[0].op), moves[1..]))
  }

  /** The invariant holds in every state of the run. */
  ghost predicate HoldsAlong(s: State, moves: seq<Move>)
    requires IsRun(s, moves)
    decreases |moves|
  {
    Inv(s) && (moves == [] || HoldsAlong(Step(s, moves[0].thread, moves[0].op), moves[1..]))
  }

  // ----- The invariant holds over all disciplined runs -----

  lemma TotalOfIdle(w: Tally, n: nat)
    ensures Total(w, seq(n, i => Idle)) == 0
  {
    if n > 0 {
      assert seq(n, i => Idle)[1..] == seq(n - 1, i => Idle);
      TotalOfIdle(w, n - 1);
    }
  }

  lemma InitHolds(slotCount: nat, clients: nat)
    requires slotCount > 0
    ensures Inv(Init(slotCount, clients))
  {
    InitSlots(slotCount, clients);
    InitQueues(slotCount, clients);
  }

  lemma InitSlots(slotCount: nat, clients: nat)
    requires slotCount > 0
    ensures SlotsInv(Init(slotCount, clients))
  {
    InitStack(slotCount, clients);
    InitRoles(slotCount, clients);
  }

  lemma InitStack(slotCount: nat, clients: nat)
    requires slotCount > 0
    ensures var s := Init(slotCount, clients); StackInv(s.free, s.top, s.next, s.role, s.flags)
  {
    var s := Init(slotCount, clients);
    FullStack(slotCount - 1, s.free, s.next, s.role, s.flags);
  }

  /** The slots below n are on the stack, 0 on top. */
  predicate IsFull(n: nat, free: seq<nat>, next: seq<nat>, role: seq<Role>, flags: seq<Flags>) {
    && |free| == n && |next| == |role| == |flags| == n + 1 && !role[n].Free?
    && (forall k :: 0 <= k < n ==> free[k] == n - 1 - k)
    && (forall x :: 0 <= x < n ==> role[x] == Free(n - 1 - x) && next[x] == x + 1 && flags[x] == FRESH)
  }

  lemma FullStackAt(n: nat, free: seq<nat>, next: seq<nat>, role: seq<Role>, flags: seq<Flags>, k: nat, x: nat)
    requires IsFull(n, free, next, role, flags) && k < n && x == n - 1 - k
    ensures free[k] == x < |next| && role[x] == Free(k) && flags[x] == FRESH && next[x] == x + 1
    ensures k > 0 ==> next[x] == free[k - 1]
  {
  }

  lemma FullStack(n: nat, free: seq<nat>, next: seq<nat>, role: seq<Role>, flags: seq<Flags>)
    requires IsFull(n, free, next, role, flags)
    ensures StackInv(free, 0, next, role, flags)
  {
    forall k | 0 <= k < n
      ensures free[k] < |next| && role[free[k]] == Free(k) && flags[free[k]] == FRESH
      ensures k > 0 ==> next[free[k]] == free[k - 1]
    {
      FullStackAt(n, free, next, role, flags, k, n - 1 - k);
    }
  }

  lemma InitRoles(slotCount: nat, clients: nat)
    requires slotCount > 0
    ensures var s := Init(slotCount, clients);
            && Shaped(s) && ThreadsInv(s.pc) && OwnerInv(s.pc, s.next, s.role, s.flags, s.kind)
            && RequestInv(s.log, ProgressOf(s), s.given, s.role, s.flags, s.kind, s.latest, s.recycled)
  {
  }

  lemma InitQueues(slotCount: nat, clients: nat)
    requires slotCount > 0
    ensures QueuesInv(Init(slotCount, clients))
  {
    var s := Init(slotCount, clients);
    assert s.pc[1..] == seq(clients, i => Idle);
    TotalOfIdle(Tokens, clients);
    TotalOfIdle(Unannounced, clients);
  }

  predicate InRecycling(op: Op) {
    op.OpClear? || op.OpRecycleLoad? || op.OpRecycleLink? || op.OpPush? || op.OpPushFails? || op.OpRelease?
  }

  predicate InConsumer(op: Op) {
    op.OpTakeOver? || op.OpClaim? || op.OpFetch? || op.OpLock? || op.OpUnlock? || op.OpAdvance? || op.OpAct?
  }

  lemma ClientStepKeeps(s: State, t: nat, op: Op)
    requires Inv(s) && Enabled(s, t, op) && Disciplined(s, t, op)
    requires !InRecycling(op) && !InConsumer(op)
    ensures Inv(Step(s, t, op))
  {
    match op
    case OpAcquireToken => AcquireTokenKeeps(s, t);
    case OpLoadTop => LoadTopKeeps(s, t);
    case OpPeek => PeekKeeps(s, t);
    case OpPop => PopKeeps(s, t);
    case OpPopFails => LoadTopKeeps(s, t);
    case OpFill(kind) => FillKeeps(s, t, kind);
    case OpExchange => ExchangeKeeps(s, t);
    case OpLink => LinkKeeps(s, t);
    case OpAnnounce => AnnounceKeeps(s, t);
    case OpDiscard(i) => DiscardKeeps(s, t, i);
  }

  lemma RecyclingStepKeeps(s: State, t: nat, op: Op)
    requires Inv(s) && Enabled(s, t, op)
    requires InRecycling(op)
    ensures Inv(Step(s, t, op))
  {
    match op
    case OpClear => ClearFlagsKeeps(s, t);
    case OpRecycleLoad => RecycleLoadTopKeeps(s, t);
    case OpRecycleLink => RecycleLinkKeeps(s, t);
    case OpPush => PushSlotKeeps(s, t);
    case OpPushFails => RecycleLoadTopKeeps(s, t);
    case OpRelease => ReleaseTokenKeeps(s, t);
  }

  lemma ConsumerStepKeeps(s: State, t: nat, op: Op)
    requires Inv(s) && Enabled(s, t, op) && Disciplined(s, t, op)
    requires InConsumer(op)
    ensures Inv(Step(s, t, op))
  {
    match op
    case OpTakeOver => TakeOverKeeps(s);
    case OpClaim => ClaimKeeps(s);
    case OpFetch => FetchKeeps(s);
    case OpLock => LockKeeps(s);
    case OpUnlock => UnlockKeeps(s);
    case OpAdvance => AdvanceKeeps(s);
    case OpAct => ActKeeps(s);
  }

  lemma StepKeeps(s: State, t: nat, op: Op)
    requires Inv(s) && Enabled(s, t, op) && Disciplined(s, t, op)
    ensures Inv(Step(s, t, op))
  {
    if InRecycling(op) {
      RecyclingStepKeeps(s, t, op);
    } else if InConsumer(op) {
      ConsumerStepKeeps(s, t, op);
    } else {
      ClientStepKeeps(s, t, op);
    }
  }

  lemma {:induction false} DisciplinedRunKeeps(s: State, moves: seq<Move>)
    requires Inv(s) && IsRun(s, moves) && IsDisciplined(s, moves)
    ensures HoldsAlong(s, moves)
    decreases |moves|
  {
    if moves != [] {
      StepKeeps(s, moves[0].thread, moves[0].op);
      DisciplinedRunKeeps(Step(s, moves[0].thread, moves[0].op), moves[1..]);
    }
  }
}
