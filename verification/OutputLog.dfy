/**
 The asynchronous output log: a producer fills buffers and queues them, a consumer prints them
 and returns them to a lock-free pool.  One `next` field per buffer threads pool and queue.

 The model is a step system; every load, store and exchange is a step of its own.
 */
module OutputLog {
  import opened Bits

  /** Where the producer is in push_to_queue. */
  datatype Producer =
    | Writing
    | Measured                  // has stored the number of bytes of the current buffer
    | Token                     // holds a token of the pool
    | Loaded(h: nat)            // has read the head of the pool
    | Peeked(h: nat, m: nat)    // has also read the link of that buffer
    | Popped(h: nat)            // has taken h from the pool
    | Swapped(full: nat)         // writes to h now; full is to be queued
    | Linked(full: nat)          // has linked full behind the tail
    | Tailed                    // has made it the tail

  /** Where the consumer is in its loop; r is the buffer to print next. */
  datatype Consumer =
    | Waiting
    | Claimed                   // has taken one from the counter
    | Fetched(r: nat)           // has read the link of the buffer it holds
    | HeadRead(r: nat, c: nat)  // has read the head of the pool
    | LinkSet(r: nat, c: nat)   // has linked its buffer in front of c
    | Pushed(r: nat)            // has returned its buffer to the pool
    | Printing(k: nat)          // has printed k bytes of the buffer it holds

  /** History: who has a buffer.  No step reads it. */
  datatype Role =
    | Pool(k: nat)              // k-th buffer of the pool, counted from the bottom
    | Current                   // the producer writes to it
    | Hand                      // the producer has popped it
    | Full                      // the producer is about to queue it
    | Queued(i: nat)            // the i-th of the queue; the consumer holds the first
    | Leaving                   // the consumer is returning it to the pool

  /** History: one buffer put in the queue, with the bytes written to it. */
  datatype Entry = Entry(buffer: nat, text: seq<byte>)

  datatype State = State(
    sem: nat,               // poolTokens
    head: nat,              // bufferListHead; the number of buffers stands for null
    mp: nat,                // queuedBuffers: what the producer has added
    sc: nat,                // queuedBuffers: what the consumer has taken over
    tail: nat,              // queueTail
    current: nat,           // currentBuffer
    cursor: nat,            // currentCursor, from the start of that buffer
    prev: nat,              // the buffer of the consumer
    next: seq<nat>,
    bytes: seq<nat>,        // bytesToWrite
    data: seq<seq<byte>>,
    out: seq<byte>,         // what was printed
    p: Producer,
    c: Consumer,
    // history
    role: seq<Role>,
    pool: seq<nat>,         // bottom first
    mark: nat,              // where in the pool the buffer is that the producer loaded
    log: seq<Entry>,
    got: nat,               // how many entries the consumer has fetched
    pending: seq<byte>,     // the bytes of the buffer about to be queued
    line: seq<byte>,        // the bytes written to the current buffer
    input: seq<byte>        // all bytes ever written
  )

  function Init(n: nat, width: nat, zero: byte): State
    requires n > 2
  {
    State(n - 2, 2, 0, 0, 0, 1, 0, 0,
          seq(n, i requires 0 <= i => i + 1), seq(n, i => width), seq(n, i => seq(width, j => zero)), [],
          Writing, Waiting,
          seq(n, i requires 0 <= i < n => if i == 0 then Queued(0) else if i == 1 then Current else Pool(n - 1 - i)),
          seq(n - 2, k requires 0 <= k < n - 2 => n - 1 - k), 0, [], 0, [], [], [])
  }

  // ----- Steps of the producer -----

  /** Writes one byte to the current buffer. */
  function Write(s: State, b: byte): State
    requires s.p.Writing? && s.current < |s.data| && s.cursor < |s.data[s.current]|
  {
    s.(data := s.data[s.current := s.data[s.current][s.cursor := b]], cursor := s.cursor + 1,
       line := s.line + [b], input := s.input + [b])
  }

  function Measure(s: State): State
    requires s.p.Writing? && s.current < |s.bytes|
  {
    s.(bytes := s.bytes[s.current := s.cursor], p := Measured)
  }

  function AcquireToken(s: State): State
    requires s.p.Measured? && s.sem > 0
  {
    s.(sem := s.sem - 1, p := Token)
  }

  function LoadHead(s: State): State
    requires s.p.Token?
  {
    s.(p := Loaded(s.head), mark := if s.pool == [] then 0 else |s.pool| - 1)
  }

  function Peek(s: State): State
    requires s.p.Loaded? && s.p.h < |s.next|
  {
    s.(p := Peeked(s.p.h, s.next[s.p.h]))
  }

  /** The compare-and-swap of the head. */
  function Pop(s: State): State
    requires s.p.Peeked? && s.p.h < |s.role| && s.pool != []
  {
    if s.head == s.p.h
    then s.(head := s.p.m, p := Popped(s.p.h), pool := s.pool[..|s.pool| - 1], role := s.role[s.p.h := Hand])
    else Retry(s)
  }

  /** A compare-and-swap that fails, for a reason or not, loads the head again. */
  function Retry(s: State): State
    requires s.p.Peeked? && s.pool != []
  {
    s.(p := Loaded(s.head), mark := |s.pool| - 1)
  }

  function Swap(s: State): State
    requires s.p.Popped? && s.p.h < |s.role| && s.current < |s.role|
  {
    s.(current := s.p.h, cursor := 0, p := Swapped(s.current),
       role := s.role[s.current := Full][s.p.h := Current], pending := s.line, line := [])
  }

  function Link(s: State): State
    requires s.p.Swapped? && s.tail < |s.next| && s.p.full < |s.role|
  {
    s.(next := s.next[s.tail := s.p.full], p := Linked(s.p.full), log := s.log + [Entry(s.p.full, s.pending)],
       role := s.role[s.p.full := Queued(|s.log| + 1)], pending := [])
  }

  function MoveTail(s: State): State
    requires s.p.Linked?
  {
    s.(tail := s.p.full, p := Tailed)
  }

  function Announce(s: State): State
    requires s.p.Tailed?
  {
    s.(mp := s.mp + 1, p := Writing)
  }

  // ----- Steps of the consumer -----

  function TakeOver(s: State): State
    requires s.c.Waiting?
  {
    s.(sc := s.sc + s.mp, mp := 0)
  }

  function Claim(s: State): State
    requires s.c.Waiting? && s.sc > 0
  {
    s.(sc := s.sc - 1, c := Claimed)
  }

  function Fetch(s: State): State
    requires s.c.Claimed? && s.prev < |s.next| && s.prev < |s.role|
  {
    s.(c := Fetched(s.next[s.prev]), got := s.got + 1, role := s.role[s.prev := Leaving])
  }

  function ReadHead(s: State): State
    requires s.c.Fetched?
  {
    s.(c := HeadRead(s.c.r, s.head))
  }

  function SetLink(s: State): State
    requires s.c.HeadRead? && s.prev < |s.next|
  {
    s.(next := s.next[s.prev := s.c.c], c := LinkSet(s.c.r, s.c.c))
  }

  /** The compare-and-swap of the head. */
  function Push(s: State): State
    requires s.c.LinkSet? && s.prev < |s.role|
  {
    if s.head == s.c.c
    then s.(head := s.prev, c := Pushed(s.c.r), pool := s.pool + [s.prev], role := s.role[s.prev := Pool(|s.pool|)])
    else ReadAgain(s)
  }

  function ReadAgain(s: State): State
    requires s.c.LinkSet?
  {
    s.(c := HeadRead(s.c.r, s.head))
  }

  /** Releases the token, and holds the fetched buffer from now on. */
  function ReleaseToken(s: State): State
    requires s.c.Pushed?
  {
    s.(sem := s.sem + 1, prev := s.c.r, c := Printing(0))
  }

  function PrintByte(s: State): State
    requires s.c.Printing? && s.prev < |s.data| && s.c.k < |s.data[s.prev]|
  {
    s.(out := s.out + [s.data[s.prev][s.c.k]], c := Printing(s.c.k + 1))
  }

  function Finish(s: State): State
    requires s.c.Printing?
  {
    s.(c := Waiting)
  }

  // ----- Runs -----

  datatype Op =
    | OpWrite(b: byte) | OpMeasure | OpAcquireToken | OpLoadHead | OpPeek | OpPop | OpRetry | OpSwap | OpLink
    | OpMoveTail | OpAnnounce
    | OpTakeOver | OpClaim | OpFetch | OpReadHead | OpSetLink | OpPush | OpReadAgain | OpReleaseToken
    | OpPrintByte | OpFinish

  /** The thread is there, and does not have to wait; the rest the invariant must supply. */
  predicate Enabled(s: State, op: Op) {
    match op
    case OpWrite(_) => s.p.Writing? && s.current < |s.data| && s.cursor < |s.data[s.current]|
    case OpMeasure => s.p.Writing?
    case OpAcquireToken => s.p.Measured? && s.sem > 0
    case OpLoadHead => s.p.Token?
    case OpPeek => s.p.Loaded?
    case OpPop => s.p.Peeked?
    case OpRetry => s.p.Peeked?
    case OpSwap => s.p.Popped?
    case OpLink => s.p.Swapped?
    case OpMoveTail => s.p.Linked?
    case OpAnnounce => s.p.Tailed?
    case OpTakeOver => s.c.Waiting?
    case OpClaim => s.c.Waiting? && s.sc > 0
    case OpFetch => s.c.Claimed?
    case OpReadHead => s.c.Fetched?
    case OpSetLink => s.c.HeadRead?
    case OpPush => s.c.LinkSet?
    case OpReadAgain => s.c.LinkSet?
    case OpReleaseToken => s.c.Pushed?
    case OpPrintByte => s.c.Printing? && s.prev < |s.bytes| && s.c.k < s.bytes[s.prev]
    case OpFinish => s.c.Printing? && s.prev < |s.bytes| && s.c.k == s.bytes[s.prev]
  }

  /** No step reaches outside the buffers, or for the link of null. */
  predicate Safe(s: State, op: Op) {
    match op
    case OpMeasure => s.current < |s.bytes|
    case OpPeek => s.p.Loaded? && s.p.h < |s.next|
    case OpPop | OpRetry => s.p.Peeked? && s.p.h < |s.role| && s.pool != []
    case OpSwap => s.p.Popped? && s.p.h < |s.role| && s.current < |s.role|
    case OpLink => s.p.Swapped? && s.tail < |s.next| && s.p.full < |s.role|
    case OpFetch => s.prev < |s.next| && s.prev < |s.role|
    case OpSetLink => s.prev < |s.next|
    case OpPush => s.prev < |s.role|
    case OpPrintByte => s.c.Printing? && s.prev < |s.data| && s.c.k < |s.data[s.prev]|
    case _ => true
  }

  function Step(s: State, op: Op): State
    requires Enabled(s, op) && Safe(s, op)
  {
    match op
    case OpWrite(b) => Write(s, b)
    case OpMeasure => Measure(s)
    case OpAcquireToken => AcquireToken(s)
    case OpLoadHead => LoadHead(s)
    case OpPeek => Peek(s)
    case OpPop => Pop(s)
    case OpRetry => Retry(s)
    case OpSwap => Swap(s)
    case OpLink => Link(s)
    case OpMoveTail => MoveTail(s)
    case OpAnnounce => Announce(s)
    case OpTakeOver => TakeOver(s)
    case OpClaim => Claim(s)
    case OpFetch => Fetch(s)
    case OpReadHead => ReadHead(s)
    case OpSetLink => SetLink(s)
    case OpPush => Push(s)
    case OpReadAgain => ReadAgain(s)
    case OpReleaseToken => ReleaseToken(s)
    case OpPrintByte => PrintByte(s)
    case OpFinish => Finish(s)
  }

  /** A run: every step enabled where it is taken, and safe. */
  predicate IsRun(s: State, ops: seq<Op>)
    decreases ops
  {
    ops != [] ==> Enabled(s, ops[0]) && (Safe(s, ops[0]) ==> IsRun(Step(s, ops[0]), ops[1..]))
  }
}
