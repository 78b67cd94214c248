/**
 That the output log gets on: the consumer alone prints all that is queued and so returns the buffers, and what has
 been written can always be printed.
 */
module OutputLogProgress {
  import opened Bits
  import opened OutputLog
  import opened OutputLogInvariant
  import opened OutputLogSteps
  import opened OutputLogTheorems

  predicate OfConsumer(op: Op) {
    op.OpTakeOver? || op.OpClaim? || op.OpFetch? || op.OpReadHead? || op.OpSetLink? || op.OpPush? || op.OpReadAgain?
    || op.OpReleaseToken? || op.OpPrintByte? || op.OpFinish?
  }

  predicate OfProducer(op: Op) {
    !OfConsumer(op) && !op.OpWrite? && !op.OpMeasure?
  }

  // ----- Putting runs together -----

  lemma {:induction false} RunThen(s: State, a: seq<Op>, b: seq<Op>)
    requires Inv(s) && IsRun(s, a) && IsRun(After(s, a), b)
    ensures IsRun(s, a + b) && After(s, a + b) == After(After(s, a), b)
    decreases |a|
  {
    if a == [] {
      assert a + b == b;
    } else {
      StepKeeps(s, a[0]);
      assert (a + b)[0] == a[0] && (a + b)[1..] == a[1..] + b;
      RunThen(Step(s, a[0]), a[1..], b);
    }
  }

  lemma RunFirst(s: State, op: Op, ops: seq<Op>)
    requires Inv(s) && Enabled(s, op) && Safe(s, op) && IsRun(Step(s, op), ops)
    ensures IsRun(s, [op] + ops) && After(s, [op] + ops) == After(Step(s, op), ops)
  {
    assert ([op] + ops)[0] == op && ([op] + ops)[1..] == ops;
  }

  // ----- The consumer -----

  /** What the consumer does next. */
  function ConsumerOp(s: State): Op {
    match s.c
    case Waiting => if s.sc > 0 then OpClaim else OpTakeOver
    case Claimed => OpFetch
    case Fetched(_) => OpReadHead
    case HeadRead(_, _) => OpSetLink
    case LinkSet(_, _) => OpPush
    case Pushed(_) => OpReleaseToken
    case Printing(k) => if s.prev < |s.bytes| && k < s.bytes[s.prev] then OpPrintByte else OpFinish
  }

  /** How far it is from its next fetch. */
  function ConsumerWork(s: State): nat {
    match s.c
    case Claimed => 0
    case Waiting => if s.sc > 0 then 1 else 2
    case Printing(_) => 3
    case Pushed(_) => 4
    case LinkSet(_, c) => if c == s.head then 5 else 7
    case HeadRead(_, c) => if c == s.head then 6 else 8
    case Fetched(_) => 9
  }

  function BytesLeft(s: State): int {
    if s.c.Printing? && s.prev < |s.bytes| then s.bytes[s.prev] - s.c.k else 0
  }

  /** Nothing is queued that the consumer has been told of. */
  predicate AtRest(s: State) {
    s.c.Waiting? && s.mp + s.sc == 0
  }

  /** The consumer changes nothing that the producer writes. */
  predicate ProducerStays(s: State, s': State) {
    && s'.p == s.p && s'.line == s.line && s'.pending == s.pending && s'.input == s.input && s'.log == s.log
    && s'.current == s.current && s'.cursor == s.cursor
  }

  lemma ConsumerCan(s: State)
    requires Inv(s)
    ensures Enabled(s, ConsumerOp(s))
  {
    if s.c.Printing? {
      PrintingFits(s);
    }
  }

  /** The consumer has not printed more of its buffer than there is. */
  lemma PrintingFits(s: State)
    requires Inv(s) && s.c.Printing?
    ensures s.prev < |s.bytes| && s.c.k <= s.bytes[s.prev]
    ensures s.prev < |s.data| && s.bytes[s.prev] <= |s.data[s.prev]|
  {
    assert TextAt(s.bytes, s.data, s.log, s.got);
  }

  /** The step from s to s' brings the consumer on. */
  predicate Forward(s: State, s': State) {
    && ProducerStays(s, s')
    && (s'.got > s.got
        || (s'.got == s.got && ConsumerWork(s') < ConsumerWork(s))
        || (s'.got == s.got && ConsumerWork(s') == ConsumerWork(s) && 0 <= BytesLeft(s') < BytesLeft(s)))
  }

  lemma WaitingWorks(s: State)
    requires (s.c.Waiting? && !AtRest(s)) || (s.c.Claimed? && s.prev < |s.next| && s.prev < |s.role|)
    ensures Forward(s, Step(s, ConsumerOp(s)))
  {
  }

  lemma ReturningWorks(s: State)
    requires Leaves(s.c) || s.c.Pushed?
    requires Leaves(s.c) ==> s.prev < |s.next| && s.prev < |s.role|
    ensures Forward(s, Step(s, ConsumerOp(s)))
  {
  }

  lemma PrintingWorks(s: State)
    requires s.c.Printing? && s.prev < |s.bytes| && s.c.k <= s.bytes[s.prev]
    requires s.prev < |s.data| && s.bytes[s.prev] <= |s.data[s.prev]|
    ensures Forward(s, Step(s, ConsumerOp(s)))
  {
  }

  lemma ConsumerWorks(s: State)
    requires Inv(s) && !AtRest(s) && Enabled(s, ConsumerOp(s)) && Safe(s, ConsumerOp(s))
    ensures Forward(s, Step(s, ConsumerOp(s)))
  {
    match s.c
    case Waiting | Claimed => WaitingWorks(s);
    case Printing(_) =>
      PrintingFits(s);
      PrintingWorks(s);
    case _ => ReturningWorks(s);
  }

  /** The next step of the consumer. */
  lemma ConsumerNext(s: State) returns (op: Op, s': State)
    requires Inv(s) && !AtRest(s)
    ensures OfConsumer(op) && Enabled(s, op) && Safe(s, op) && s' == Step(s, op)
    ensures Inv(s') && Forward(s, s') && s'.got <= |s.log|
  {
    op := ConsumerOp(s);
    ConsumerCan(s);
    StepKeeps(s, op);
    s' := Step(s, op);
    ConsumerWorks(s);
  }

  /** The consumer alone prints all that it has been told of. */
  lemma {:induction false} ConsumerFinishes(s: State) returns (ops: seq<Op>)
    requires Inv(s)
    ensures IsRun(s, ops) && forall op :: op in ops ==> OfConsumer(op)
    ensures Inv(After(s, ops)) && AtRest(After(s, ops)) && ProducerStays(s, After(s, ops))
    decreases |s.log| - s.got, ConsumerWork(s), BytesLeft(s)
  {
    if AtRest(s) {
      ops := [];
    } else {
      var op, s' := ConsumerNext(s);
      ops := ConsumerFinishes(s');
      RunFirst(s, op, ops);
      ops := [op] + ops;
    }
  }

  /** When all has been flushed the consumer alone prints all that was written. */
  lemma ConsumerPrintsAll(s: State) returns (ops: seq<Op>)
    requires Inv(s) && s.p.Writing? && s.line == []
    ensures IsRun(s, ops) && forall op :: op in ops ==> OfConsumer(op)
    ensures After(s, ops).out == After(s, ops).input == s.input
  {
    ops := ConsumerFinishes(s);
    AllIsPrinted(After(s, ops));
  }

  /** While the producer waits for a token, the consumer alone gives one back. */
  lemma ConsumerFreesBuffer(s: State) returns (ops: seq<Op>)
    requires Inv(s) && s.p.Measured?
    ensures IsRun(s, ops) && forall op :: op in ops ==> OfConsumer(op)
    ensures After(s, ops).p.Measured? && After(s, ops).sem > 0 && ProducerStays(s, After(s, ops))
  {
    ops := ConsumerFinishes(s);
    if After(s, ops).sem == 0 {
      NeverStuck(After(s, ops));
    }
  }

  // ----- The producer -----

  function ProducerOp(s: State): Op {
    match s.p
    case Writing => OpMeasure
    case Measured => OpAcquireToken
    case Token => OpLoadHead
    case Loaded(_) => OpPeek
    case Peeked(_, _) => OpPop
    case Popped(_) => OpSwap
    case Swapped(_) => OpLink
    case Linked(_) => OpMoveTail
    case Tailed => OpAnnounce
  }

  function ProducerWork(s: State): nat {
    match s.p
    case Writing => 0
    case Tailed => 1
    case Linked(_) => 2
    case Swapped(_) => 3
    case Popped(_) => 4
    case Peeked(h, _) => if h == s.head then 5 else 7
    case Loaded(h) => if h == s.head then 6 else 8
    case Token => 9
    case Measured => 10
  }

  /** The line of the producer has not been handed over yet. */
  predicate BeforeSwap(p: Producer) {
    p.Measured? || HasToken(p) || p.Popped?
  }

  predicate Onward(s: State, s': State) {
    && s'.input == s.input && ProducerWork(s') < ProducerWork(s)
    && (s.line == [] || (BeforeSwap(s.p) && !BeforeSwap(s'.p)) ==> s'.line == [])
  }

  lemma ProducerWorks(s: State)
    requires !s.p.Writing? && Enabled(s, ProducerOp(s)) && Safe(s, ProducerOp(s))
    ensures Onward(s, Step(s, ProducerOp(s))) && !Step(s, ProducerOp(s)).p.Measured?
  {
  }

  lemma ProducerCan(s: State)
    requires !s.p.Writing? && (s.p.Measured? ==> s.sem > 0)
    ensures OfProducer(ProducerOp(s)) && Enabled(s, ProducerOp(s))
  {
  }

  lemma ProducerNext(s: State) returns (op: Op, s': State)
    requires Inv(s) && !s.p.Writing? && (s.p.Measured? ==> s.sem > 0)
    ensures OfProducer(op) && Enabled(s, op) && Safe(s, op) && s' == Step(s, op)
    ensures Inv(s') && Onward(s, s') && !s'.p.Measured?
  {
    op := ProducerOp(s);
    ProducerCan(s);
    StepKeeps(s, op);
    s' := Step(s, op);
    ProducerWorks(s);
  }

  /** The producer alone ends its push, once there is a token. */
  lemma {:induction false} ProducerFinishes(s: State) returns (ops: seq<Op>)
    requires Inv(s) && (s.p.Measured? ==> s.sem > 0)
    ensures IsRun(s, ops) && forall op :: op in ops ==> OfProducer(op)
    ensures Inv(After(s, ops)) && After(s, ops).p.Writing? && After(s, ops).input == s.input
    ensures s.line == [] || BeforeSwap(s.p) ==> After(s, ops).line == []
    decreases ProducerWork(s)
  {
    if s.p.Writing? {
      ops := [];
    } else {
      var op, s' := ProducerNext(s);
      ops := ProducerFinishes(s');
      RunFirst(s, op, ops);
      ops := [op] + ops;
    }
  }

  // ----- Both -----

  /** A push that has begun comes to its end. */
  lemma PushEnds(s: State) returns (ops: seq<Op>)
    requires Inv(s)
    ensures IsRun(s, ops) && Inv(After(s, ops)) && After(s, ops).p.Writing? && After(s, ops).input == s.input
    ensures s.line == [] || BeforeSwap(s.p) ==> After(s, ops).line == []
    ensures forall op :: op in ops ==> OfConsumer(op) || OfProducer(op)
  {
    var a := [];
    if s.p.Measured? {
      a := ConsumerFreesBuffer(s);
      RunKeeps(s, a);
    }
    var b := ProducerFinishes(After(s, a));
    RunThen(s, a, b);
    ops := a + b;
  }

  /** What is on the line can be flushed. */
  lemma FlushEnds(s: State) returns (ops: seq<Op>)
    requires Inv(s) && s.p.Writing?
    ensures IsRun(s, ops) && Inv(After(s, ops)) && After(s, ops).p.Writing? && After(s, ops).input == s.input
    ensures After(s, ops).line == [] && forall op :: op in ops ==> !op.OpWrite?
  {
    StepKeeps(s, OpMeasure);
    var b := PushEnds(Step(s, OpMeasure));
    RunFirst(s, OpMeasure, b);
    ops := [OpMeasure] + b;
  }

  /** At any time all that has been written can be printed, without writing more. */
  lemma AllCanBePrinted(s: State) returns (ops: seq<Op>)
    requires Inv(s)
    ensures IsRun(s, ops) && forall op :: op in ops ==> !op.OpWrite?
    ensures After(s, ops).out == After(s, ops).input == s.input
  {
    var a := PushEnds(s);
    var s1 := After(s, a);
    var b := FlushEnds(s1);
    var s2 := After(s1, b);
    var c := ConsumerPrintsAll(s2);
    RunThen(s1, b, c);
    RunThen(s, a, b + c);
    ops := a + (b + c);
  }
}
