/**
 What holds of the output log over all runs, with every atomic operation a step of its own.
 */
module OutputLogTheorems {
  import opened Bits
  import opened OutputLog
  import opened OutputLogInvariant
  import opened OutputLogSteps

  lemma InitHolds(n: nat, width: nat, zero: byte)
    requires n > 2
    ensures Inv(Init(n, width, zero))
  {
    var s := Init(n, width, zero);
    forall k | 0 <= k < |s.pool| ensures PoolAt(s.next, s.pool, s.role, k) {
    }
    assert QueueAt(s.next, s.log, s.role, 0);
    forall b | 0 <= b < |s.role| ensures RightRole(s, b) {
    }
    AllRightRoles(s);
  }

  lemma StepKeeps(s: State, op: Op)
    requires Inv(s) && Enabled(s, op)
    ensures Safe(s, op) && Inv(Step(s, op))
  {
    InvIsSafe(s, op);
    match op
    case OpWrite(b) => WriteKeeps(s, b);
    case OpMeasure => MeasureKeeps(s);
    case OpAcquireToken => AcquireTokenKeeps(s);
    case OpLoadHead => LoadHeadKeeps(s);
    case OpPeek => PeekKeeps(s);
    case OpPop => PopKeeps(s);
    case OpRetry => RetryKeeps(s);
    case OpSwap => SwapKeeps(s);
    case OpLink => LinkKeeps(s);
    case OpMoveTail => MoveTailKeeps(s);
    case OpAnnounce => AnnounceKeeps(s);
    case OpTakeOver => TakeOverKeeps(s);
    case OpClaim => ClaimKeeps(s);
    case OpFetch => FetchKeeps(s);
    case OpReadHead => ReadHeadKeeps(s);
    case OpSetLink => SetLinkKeeps(s);
    case OpPush => PushKeeps(s);
    case OpReadAgain => ReadAgainKeeps(s);
    case OpReleaseToken => ReleaseTokenKeeps(s);
    case OpPrintByte => PrintByteKeeps(s);
    case OpFinish => FinishKeeps(s);
  }

  /** Where a run leads; it stops short of an unsafe step. */
  function After(s: State, ops: seq<Op>): State
    requires IsRun(s, ops)
    decreases ops
  {
    if ops == [] || !Safe(s, ops[0]) then s else After(Step(s, ops[0]), ops[1..])
  }

  predicate AllSafe(s: State, ops: seq<Op>)
    requires IsRun(s, ops)
    decreases ops
  {
    ops == [] || (Safe(s, ops[0]) && AllSafe(Step(s, ops[0]), ops[1..]))
  }

  /** No run ever takes an unsafe step, and the invariant holds all along. */
  lemma {:induction false} RunKeeps(s: State, ops: seq<Op>)
    requires Inv(s) && IsRun(s, ops)
    ensures AllSafe(s, ops) && Inv(After(s, ops))
    decreases ops
  {
    if ops != [] {
      StepKeeps(s, ops[0]);
      RunKeeps(Step(s, ops[0]), ops[1..]);
    }
  }

  // ----- The output -----

  function ByteOf(op: Op): seq<byte> {
    if op.OpWrite? then [op.b] else []
  }

  /** The bytes that a run writes. */
  function Written(ops: seq<Op>): seq<byte>
    decreases ops
  {
    if ops == [] then [] else ByteOf(ops[0]) + Written(ops[1..])
  }

  lemma StepInput(s: State, op: Op)
    requires Enabled(s, op) && Safe(s, op)
    ensures Step(s, op).input == s.input + ByteOf(op)
  {
  }

  lemma Associated(a: seq<byte>, b: seq<byte>, c: seq<byte>)
    ensures (a + b) + c == a + (b + c)
  {
  }

  /** The input of a run is what it writes. */
  lemma {:induction false} InputIsWritten(s: State, ops: seq<Op>)
    requires Inv(s) && IsRun(s, ops)
    ensures After(s, ops).input == s.input + Written(ops)
    decreases ops, 0
  {
    if ops != [] {
      StepKeeps(s, ops[0]);
      InputFirst(s, ops[0], ops[1..], Step(s, ops[0]));
    }
  }

  lemma {:induction false} InputFirst(s: State, op: Op, ops: seq<Op>, s': State)
    requires Enabled(s, op) && Safe(s, op) && s' == Step(s, op) && Inv(s') && IsRun(s', ops)
    ensures After(s', ops).input == s.input + (ByteOf(op) + Written(ops))
    decreases ops, 1
  {
    StepInput(s, op);
    InputIsWritten(s', ops);
    Associated(s.input, ByteOf(op), Written(ops));
  }

  lemma {:induction false} FlattenPrefix(log: seq<Entry>, i: nat)
    requires i <= |log|
    ensures Flatten(log[..i]) <= Flatten(log)
    decreases |log|
  {
    if i == |log| {
      assert log[..i] == log;
    } else {
      FlattenPrefix(log[..|log| - 1], i);
      assert log[..|log| - 1][..i] == log[..i];
    }
  }

  /** The buffers are printed in the order in which they were queued, each as it was when it was queued. */
  lemma OutputIsQueued(s: State)
    requires Inv(s)
    ensures s.out <= Flatten(s.log)
  {
    if s.c.Printing? && s.got > 0 {
      FlattenPrefix(s.log, s.got);
      assert s.log[..s.got][..s.got - 1] == s.log[..s.got - 1];
    } else {
      FlattenPrefix(s.log, Printed(s));
    }
  }

  /** At any time, what has been printed is the beginning of what has been written. */
  lemma OutputIsPrefix(n: nat, width: nat, zero: byte, ops: seq<Op>)
    requires n > 2 && IsRun(Init(n, width, zero), ops)
    ensures var s := After(Init(n, width, zero), ops); s.out <= s.input == Written(ops)
  {
    InitHolds(n, width, zero);
    InputIsWritten(Init(n, width, zero), ops);
    RunKeeps(Init(n, width, zero), ops);
    OutputIsQueued(After(Init(n, width, zero), ops));
  }

  /** When everything has been flushed, and the consumer finds nothing to do, all of it has been printed. */
  lemma AllIsPrinted(s: State)
    requires Inv(s) && s.p.Writing? && s.line == [] && s.c.Waiting? && s.mp + s.sc == 0
    ensures s.out == s.input
  {
    assert s.log[..s.got] == s.log;
  }

  // ----- The buffers -----

  predicate InQueue(s: State, b: nat) {
    exists i :: s.got <= i <= |s.log| && SlotAt(s.log, i) == b
  }

  /** Every buffer is in exactly one place. */
  lemma EveryBufferOnce(s: State, b: nat)
    requires Inv(s) && b < |s.next|
    ensures One(b in s.pool) + One(b == s.current) + One(s.p == Popped(b)) + One(s.p == Swapped(b))
          + One(InQueue(s, b)) + One(Leaves(s.c) && s.prev == b) == 1
  {
    assert RightRole(s, b);
    assert b in s.pool <==> s.role[b].Pool? by {
      if b in s.pool {
        var k :| 0 <= k < |s.pool| && s.pool[k] == b;
        assert PoolAt(s.next, s.pool, s.role, k);
      }
    }
    assert InQueue(s, b) <==> s.role[b].Queued? by {
      if InQueue(s, b) {
        var i :| s.got <= i <= |s.log| && SlotAt(s.log, i) == b;
        assert QueueAt(s.next, s.log, s.role, i);
      }
    }
  }

  lemma PoolDistinct(s: State, i: nat, j: nat)
    requires Inv(s) && i < j < |s.pool|
    ensures s.pool[i] != s.pool[j]
  {
    assert PoolAt(s.next, s.pool, s.role, i) && PoolAt(s.next, s.pool, s.role, j);
  }

  lemma QueueDistinct(s: State, i: nat, j: nat)
    requires Inv(s) && s.got <= i < j <= |s.log|
    ensures SlotAt(s.log, i) != SlotAt(s.log, j)
  {
    assert QueueAt(s.next, s.log, s.role, i) && QueueAt(s.next, s.log, s.role, j);
  }

  /** The buffer being written is never the one the consumer holds, nor one in the queue or the pool. */
  lemma WriterAlone(s: State)
    requires Inv(s)
    ensures s.c.Waiting? || s.c.Claimed? || s.c.Printing? || Leaves(s.c) ==> s.prev != s.current
    ensures s.current !in s.pool && !InQueue(s, s.current)
  {
    EveryBufferOnce(s, s.current);
    assert QueueAt(s.next, s.log, s.role, s.got);
  }

  /** A producer that has a token finds a buffer. */
  lemma TokenMeansBuffer(s: State)
    requires Inv(s) && HasToken(s.p)
    ensures s.pool != [] && s.head < |s.next| && s.role[s.head] == Pool(|s.pool| - 1)
  {
    assert PoolAt(s.next, s.pool, s.role, |s.pool| - 1);
  }

  /** While the producer waits for a token, the consumer has something to do. */
  lemma NeverStuck(s: State)
    requires Inv(s) && s.p.Measured? && s.sem == 0
    ensures !s.c.Waiting? || s.mp + s.sc > 0
  {
  }
}
