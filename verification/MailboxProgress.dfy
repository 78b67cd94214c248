/**
 That the mailbox gets on: a client alone completes a send or a discard, the consumer alone handles all that was
 sent, and after that all slots but one can be had again.
 */
module MailboxProgress {
  import opened Mailbox
  import opened MailboxInvariant
  import opened MailboxSteps
  import opened MailboxConsumer
  import opened MailboxTheorems
  import opened MailboxSoleSender
  import opened MailboxProperties

  predicate OnlyBy(moves: seq<Move>, t: nat) {
    forall k :: 0 <= k < |moves| ==> moves[k].thread == t
  }

  predicate SendsNothing(moves: seq<Move>) {
    forall k :: 0 <= k < |moves| ==> !moves[k].op.OpAcquireToken?
  }

  // ----- Putting runs together -----

  /** The moves can be made, and lead from s to s'. */
  predicate Leads(s: State, moves: seq<Move>, s': State) {
    IsRun(s, moves) && StateAfter(s, moves) == s'
  }

  lemma {:induction false} LeadsThen(s: State, a: seq<Move>, s': State, b: seq<Move>, s'': State)
    requires Leads(s, a, s') && Leads(s', b, s'')
    ensures Leads(s, a + b, s'')
    ensures SendsNothing(a) && SendsNothing(b) ==> SendsNothing(a + b)
    decreases |a|
  {
    if a == [] {
      assert a + b == b;
    } else {
      assert (a + b)[0] == a[0] && (a + b)[1..] == a[1..] + b;
      LeadsThen(Step(s, a[0].thread, a[0].op), a[1..], s', b, s'');
    }
  }

  lemma LeadsFirst(s: State, t: nat, op: Op, s1: State, rest: seq<Move>, s': State) returns (moves: seq<Move>)
    requires Enabled(s, t, op) && s1 == Step(s, t, op) && Leads(s1, rest, s')
    ensures Leads(s, moves, s')
    ensures OnlyBy(rest, t) ==> OnlyBy(moves, t)
    ensures SendsNothing(rest) && !op.OpAcquireToken? ==> SendsNothing(moves)
  {
    moves := [Move(t, op)] + rest;
    assert moves[0] == Move(t, op) && moves[1..] == rest;
  }

  // ----- A send -----

  /** What a client does next to send a request of a kind. */
  function SendOp(s: State, t: nat, kind: nat): Op
    requires t < |s.pc|
  {
    match s.pc[t]
    case Token => OpLoadTop
    case Loaded(_) => OpPeek
    case Peeked(top, _) => if top == s.top then OpPop else OpPopFails
    case Acquired(_) => OpFill(kind)
    case Filled(_) => OpExchange
    case Exchanged(_, _, _) => OpLink
    case Linked(_) => OpAnnounce
    case _ => OpAcquireToken
  }

  function SendWork(s: State, t: nat): nat
    requires t < |s.pc|
  {
    match s.pc[t]
    case Token => 9
    case Loaded(top) => if top == s.top then 6 else 8
    case Peeked(top, _) => if top == s.top then 5 else 7
    case Acquired(_) => 4
    case Filled(_) => 3
    case Exchanged(_, _, _) => 2
    case Linked(_) => 1
    case _ => 0
  }

  /** The log of s is that of s0 and a request of t. */
  predicate Logged(s0: State, t: nat, kind: nat, s: State) {
    var n := |s0.log|;
    |s.log| == n + 1 && s.log[..n] == s0.log && s.log[n].kind == kind && s.log[n].sender == t
  }

  function HandlesAfter(s0: State, kind: nat): set<nat> {
    s0.handles + if ActionOf(kind).NotifySender? then {|s0.log|} else {}
  }

  /** Thread t, idle at s0, is on its way through a send; when it is idle again the send is complete. */
  predicate SendSoFar(s0: State, t: nat, kind: nat, s: State) {
    && 0 < t < |s0.pc| && |s.pc| == |s0.pc| && s.pc == s0.pc[t := s.pc[t]]
    && s.sc == s0.sc && s.prev == s0.prev && s.received == s0.received && s.given == s0.given
    && s.sem + 1 == s0.sem
    && match s.pc[t]
       case Token | Loaded(_) | Peeked(_, _) | Acquired(_) => s.log == s0.log && s.mp == s0.mp && s.handles == s0.handles
       case Filled(x) => s.log == s0.log && s.mp == s0.mp && s.handles == s0.handles && x < |s.kind| && s.kind[x] == kind
       case Exchanged(_, _, i) => i == |s0.log| && Logged(s0, t, kind, s) && s.mp == s0.mp && s.handles == s0.handles
       case Linked(i) => i == |s0.log| && Logged(s0, t, kind, s) && s.mp == s0.mp && s.handles == s0.handles
       case Idle => Logged(s0, t, kind, s) && s.mp == s0.mp + 1 && s.handles == HandlesAfter(s0, kind)
       case _ => false
  }

  lemma SendGoesOn(s0: State, t: nat, kind: nat, s: State)
    requires SendSoFar(s0, t, kind, s) && !s.pc[t].Idle? && Enabled(s, t, SendOp(s, t, kind))
    ensures SendSoFar(s0, t, kind, Step(s, t, SendOp(s, t, kind)))
    ensures SendWork(Step(s, t, SendOp(s, t, kind)), t) < SendWork(s, t)
  {
    var s' := Step(s, t, SendOp(s, t, kind));
    assert s'.pc == s0.pc[t := s'.pc[t]];
  }

  lemma SendCan(s: State, t: nat, kind: nat)
    requires Inv(s) && 0 < t < |s.pc| && Serviceable(kind) && ReadsStand(s, t) && SendWork(s, t) > 0
    ensures Enabled(s, t, SendOp(s, t, kind)) && Disciplined(s, t, SendOp(s, t, kind))
  {
    ReadyIsEnabled(s, t, SendOp(s, t, kind));
  }

  lemma {:induction false} SendFinishes(s0: State, t: nat, kind: nat, s: State) returns (moves: seq<Move>, s': State)
    requires Inv(s) && SendSoFar(s0, t, kind, s) && Serviceable(kind) && ReadsStand(s, t)
    ensures Leads(s, moves, s') && OnlyBy(moves, t)
    ensures Inv(s') && SendSoFar(s0, t, kind, s') && s'.pc[t].Idle?
    decreases SendWork(s, t)
  {
    if s.pc[t].Idle? {
      moves, s' := [], s;
    } else {
      var op := SendOp(s, t, kind);
      SendCan(s, t, kind);
      StepKeeps(s, t, op);
      SenderReadsStand(s, t, op);
      SendGoesOn(s0, t, kind, s);
      var s1 := Step(s, t, op);
      moves, s' := SendFinishes(s0, t, kind, s1);
      moves := LeadsFirst(s, t, op, s1, moves, s');
    }
  }

  /** While there is a token, an idle client alone completes a send of any kind: its request is the last of the log and
      is counted, it has a handle if the kind is a notify kind, and no other thread has moved. */
  lemma SendCompletes(s: State, t: nat, kind: nat) returns (moves: seq<Move>, s': State)
    requires Inv(s) && 0 < t < |s.pc| && s.pc[t].Idle? && s.sem > 0 && Serviceable(kind)
    ensures Leads(s, moves, s') && OnlyBy(moves, t)
    ensures Inv(s') && s'.pc == s.pc && s'.sem == s.sem - 1 && s'.mp == s.mp + 1 && s'.sc == s.sc
    ensures |s'.log| == |s.log| + 1 && s'.log[..|s.log|] == s.log
    ensures s'.log[|s.log|].kind == kind && s'.log[|s.log|].sender == t
    ensures s'.received == s.received && s'.given == s.given
    ensures s'.handles == s.handles + if ActionOf(kind).NotifySender? then {|s.log|} else {}
  {
    var s1 := SendBegins(s, t, kind);
    moves, s' := SendFinishes(s, t, kind, s1);
    moves := LeadsFirst(s, t, OpAcquireToken, s1, moves, s');
    SameThreads(s.pc, t, s'.pc);
  }

  lemma SendBegins(s: State, t: nat, kind: nat) returns (s1: State)
    requires Inv(s) && 0 < t < |s.pc| && s.pc[t].Idle? && s.sem > 0
    ensures Enabled(s, t, OpAcquireToken) && s1 == Step(s, t, OpAcquireToken) && Inv(s1)
    ensures SendSoFar(s, t, kind, s1) && ReadsStand(s1, t)
  {
    AcquireTokenKeeps(s, t);
    s1 := AcquireToken(s, t);
  }

  lemma SameThreads(pc: seq<Pc>, t: nat, pc': seq<Pc>)
    requires t < |pc| == |pc'| && pc' == pc[t := pc'[t]] && pc'[t] == pc[t]
    ensures pc' == pc
  {
  }

  // ----- Recycling and discarding -----

  function RecycleOp(s: State, t: nat): Op
    requires t < |s.pc| && s.pc[t].Recycling?
  {
    match s.pc[t].stage
    case Clear => OpClear
    case LoadTop => OpRecycleLoad
    case WriteLink(_) => OpRecycleLink
    case Swing(top) => if top == s.top then OpPush else OpPushFails
    case Release => OpRelease
  }

  function RecycleWork(s: State, t: nat): nat
    requires t < |s.pc| && s.pc[t].Recycling?
  {
    match s.pc[t].stage
    case Clear => 7
    case LoadTop => 6
    case WriteLink(top) => if top == s.top then 3 else 5
    case Swing(top) => if top == s.top then 2 else 4
    case Release => 1
  }

  /** Nothing but the free slots and thread t has changed. */
  predicate OnlyRecycled(s0: State, t: nat, s: State) {
    && t < |s0.pc| && |s.pc| == |s0.pc| && s.pc == s0.pc[t := s.pc[t]] && |s.next| == |s0.next|
    && s.mp == s0.mp && s.sc == s0.sc && s.prev == s0.prev && s.log == s0.log && s.received == s0.received
    && s.handles == s0.handles && s.given == s0.given && s.recycled == s0.recycled
  }

  /** How much of recycling slot x is done. */
  predicate RecycleSoFar(s0: State, t: nat, s: State) {
    && OnlyRecycled(s0, t, s) && s0.pc[t].Recycling? && s0.pc[t].stage.Clear?
    && if s.pc[t].Recycling?
       then && s.pc[t].x == s0.pc[t].x && s.pc[t].after == s0.pc[t].after && s.sem == s0.sem
            && s.free == if s.pc[t].stage.Release? then s0.free + [s0.pc[t].x] else s0.free
       else s.pc[t] == Resume(s0.pc[t].after) && s.sem == s0.sem + 1 && s.free == s0.free + [s0.pc[t].x]
  }

  lemma RecycleGoesOn(s0: State, t: nat, s: State)
    requires RecycleSoFar(s0, t, s) && s.pc[t].Recycling? && Enabled(s, t, RecycleOp(s, t))
    ensures var s' := Step(s, t, RecycleOp(s, t));
            RecycleSoFar(s0, t, s') && (s'.pc[t].Recycling? ==> RecycleWork(s', t) < RecycleWork(s, t))
  {
    var s' := Step(s, t, RecycleOp(s, t));
    assert s'.pc == s0.pc[t := s'.pc[t]];
  }

  lemma RecycleNext(s0: State, t: nat, s: State) returns (op: Op, s1: State)
    requires Inv(s) && RecycleSoFar(s0, t, s) && s.pc[t].Recycling?
    ensures Enabled(s, t, op) && s1 == Step(s, t, op) && !op.OpAcquireToken? && Inv(s1) && RecycleSoFar(s0, t, s1)
    ensures s1.pc[t].Recycling? ==> RecycleWork(s1, t) < RecycleWork(s, t)
  {
    op := RecycleOp(s, t);
    ReadyIsEnabled(s, t, op);
    RecyclingStepKeeps(s, t, op);
    RecycleGoesOn(s0, t, s);
    s1 := Step(s, t, op);
  }

  lemma {:induction false} RecyclingFinishes(s0: State, t: nat, s: State) returns (moves: seq<Move>, s': State)
    requires Inv(s) && RecycleSoFar(s0, t, s)
    ensures Leads(s, moves, s') && OnlyBy(moves, t) && SendsNothing(moves)
    ensures Inv(s') && RecycleSoFar(s0, t, s') && !s'.pc[t].Recycling?
    decreases if s.pc[t].Recycling? then RecycleWork(s, t) else 0
  {
    if !s.pc[t].Recycling? {
      moves, s' := [], s;
    } else {
      var op, s1 := RecycleNext(s0, t, s);
      moves, s' := RecyclingFinishes(s0, t, s1);
      moves := LeadsFirst(s, t, op, s1, moves, s');
    }
  }

  /** A client that has begun to recycle a slot, or is idle, ends alone. */
  lemma RecyclingEnds(s: State, t: nat) returns (moves: seq<Move>, s': State)
    requires Inv(s) && 0 < t < |s.pc|
    requires s.pc[t].Idle? || (s.pc[t].Recycling? && s.pc[t].stage.Clear? && s.pc[t].after.ToIdle?)
    ensures Leads(s, moves, s') && OnlyBy(moves, t) && SendsNothing(moves) && Inv(s') && OnlyRecycled(s, t, s')
    ensures s'.pc[t].Idle?
    ensures if s.pc[t].Recycling? then s'.sem == s.sem + 1 && s'.free == s.free + [s.pc[t].x]
            else s'.sem == s.sem && s'.free == s.free
  {
    if s.pc[t].Recycling? {
      moves, s' := RecyclingFinishes(s, t, s);
    } else {
      moves, s' := [], s;
    }
  }

  /** What a discard and the recycling it may start come to. */
  predicate DiscardDone(s: State, i: nat, s': State)
    requires |s.pc| > 0
  {
    && s'.pc == s.pc && s'.mp == s.mp && s'.sc == s.sc && |s'.next| == |s.next|
    && s'.log == s.log && s'.received == s.received
    && s'.handles == s.handles - {i} && s'.given == s.given + {i} && i < |s.log|
    && if i < ProgressOf(s).acted && i < ProgressOf(s).unlocked
       then s'.sem == s.sem + 1 && s'.free == s.free + [s.log[i].slot]
       else s'.sem == s.sem && s'.free == s.free
  }

  lemma DiscardEnds(s: State, t: nat, i: nat, s1: State, s': State)
    requires 0 < t < |s.pc| && s.pc[t].Idle? && i < |s.log| && DiscardBegun(s, t, i, s1) && OnlyRecycled(s1, t, s')
    requires s'.pc[t].Idle?
    requires if s1.pc[t].Recycling? then s'.sem == s1.sem + 1 && s'.free == s1.free + [s1.pc[t].x]
             else s'.sem == s1.sem && s'.free == s1.free
    ensures DiscardDone(s, i, s')
  {
    assert s'.pc == s.pc;
  }

  /** An idle client alone completes the discard of a handle.  If the request has been handled and the next one
      received, its slot is then on top of the free stack and the semaphore is raised; if not, nothing is recycled. */
  lemma DiscardCompletes(s: State, t: nat, i: nat) returns (moves: seq<Move>, s': State)
    requires Inv(s) && 0 < t < |s.pc| && s.pc[t].Idle? && i in s.handles
    ensures Leads(s, moves, s') && OnlyBy(moves, t) && SendsNothing(moves)
    ensures Inv(s') && DiscardDone(s, i, s')
  {
    ReadyIsEnabled(s, t, OpDiscard(i));
    DiscardKeeps(s, t, i);
    var s1 := DiscardBegins(s, t, i);
    moves, s' := RecyclingEnds(s1, t);
    DiscardEnds(s, t, i, s1, s');
    moves := LeadsFirst(s, t, OpDiscard(i), s1, moves, s');
  }

  predicate DiscardBegun(s: State, t: nat, i: nat, s': State)
    requires 0 < t < |s.pc| && i < |s.log|
  {
    && s'.mp == s.mp && s'.sc == s.sc && |s'.next| == |s.next| && s'.log == s.log && s'.received == s.received
    && s'.handles == s.handles - {i} && s'.given == s.given + {i} && s'.sem == s.sem && s'.free == s.free
    && s'.pc == s.pc[t := if i < ProgressOf(s).acted && i < ProgressOf(s).unlocked
                          then Recycling(s.log[i].slot, Clear, ToIdle) else Idle]
  }

  /** The discard recycles exactly when the request has been handled and the next one received. */
  lemma DiscardBegins(s: State, t: nat, i: nat) returns (s': State)
    requires Inv(s) && Enabled(s, t, OpDiscard(i))
    ensures s' == Step(s, t, OpDiscard(i)) == Discard(s, t, i) && DiscardBegun(s, t, i, s')
  {
    s' := Discard(s, t, i);
    HandleStaysGood(s, i);
    assert RequestAt(s.log[i], i, ProgressOf(s), s.given, s.role, s.flags, s.kind, s.latest, s.recycled[i]);
  }

  // ----- The consumer -----

  /** No request is in the queue that is not linked and counted. */
  predicate NoneUnannounced(pc: seq<Pc>) {
    forall t :: 0 <= t < |pc| ==> !pc[t].Exchanged? && !pc[t].Linked?
  }

  /** The consumer waits, and has been told of nothing new. */
  predicate AtRest(s: State)
    requires |s.pc| > 0
  {
    s.pc[0].Waiting? && s.mp + s.sc == 0
  }

  function ConsumerOp(s: State): Op
    requires |s.pc| > 0
  {
    match s.pc[0]
    case Claimed => OpFetch
    case Fetched(_) => OpLock
    case Locked(_) => OpUnlock
    case Unlocked(_) => OpAdvance
    case Handling(_) => OpAct
    case Recycling(_, _, _) => RecycleOp(s, 0)
    case _ => if s.sc > 0 then OpClaim else OpTakeOver
  }

  /** How far the consumer is from its next fetch. */
  function ConsumerWork(s: State): nat
    requires |s.pc| > 0
  {
    match s.pc[0]
    case Claimed => 0
    case Handling(_) => 3
    case Unlocked(_) => 4
    case Recycling(_, _, _) => 4 + RecycleWork(s, 0)
    case Locked(_) => 12
    case Fetched(_) => 13
    case _ => if s.sc > 0 then 1 else 2
  }

  /** The consumer sends and discards nothing, and no other thread moves. */
  predicate ConsumerOnly(s0: State, s: State) {
    && |s0.pc| > 0 && |s.pc| == |s0.pc| && s.pc == s0.pc[0 := s.pc[0]] && |s.next| == |s0.next|
    && s.log == s0.log && s.handles == s0.handles && s.given == s0.given && s0.received <= s.received
  }

  lemma ConsumerCan(s: State)
    requires Inv(s) && NoneUnannounced(s.pc) && !AtRest(s)
    ensures Enabled(s, 0, ConsumerOp(s)) && Disciplined(s, 0, ConsumerOp(s)) && !ConsumerOp(s).OpAcquireToken?
  {
    ReadyIsEnabled(s, 0, ConsumerOp(s));
  }

  /** Fewer requests are left to receive, or less to do until the next is received. */
  predicate Closer(s: State, s1: State)
    requires |s.pc| > 0 && |s1.pc| > 0
  {
    |s.received| < |s1.received| <= |s.log| == |s1.log|
    || (|s.received| == |s1.received| <= |s.log| == |s1.log| && ConsumerWork(s1) < ConsumerWork(s))
  }

  lemma ConsumerGoesOn(s: State)
    requires |s.pc| > 0 && IsConsumer(s.pc[0]) && !AtRest(s) && Enabled(s, 0, ConsumerOp(s))
    requires s.pc[0].Recycling? ==> s.pc[0].after.ToUnlocked?
    requires s.pc[0].Handling? ==> Step(s, 0, OpAct).pc[0].Waiting?
    requires NoneUnannounced(s.pc)
    ensures var s' := Step(s, 0, ConsumerOp(s));
            && ConsumerOnly(s, s') && NoneUnannounced(s'.pc)
            && (|s'.received| <= |s'.log| ==> Closer(s, s'))
  {
  }

  lemma ConsumerNext(s: State) returns (op: Op, s1: State)
    requires Inv(s) && NoneUnannounced(s.pc) && !AtRest(s)
    ensures Enabled(s, 0, op) && s1 == Step(s, 0, op) && !op.OpAcquireToken? && Inv(s1) && ConsumerOnly(s, s1)
    ensures NoneUnannounced(s1.pc) && Closer(s, s1)
  {
    op := ConsumerOp(s);
    ConsumerCan(s);
    StepKeeps(s, 0, op);
    if s.pc[0].Handling? {
      ActShape(s);
    }
    ConsumerGoesOn(s);
    s1 := Step(s, 0, op);
  }

  lemma OnlyThen(s0: State, s1: State, s2: State)
    requires ConsumerOnly(s0, s1) && ConsumerOnly(s1, s2)
    ensures ConsumerOnly(s0, s2)
  {
    assert s2.pc == s0.pc[0 := s2.pc[0]];
  }

  lemma {:induction false} ConsumerFinishes(s: State) returns (moves: seq<Move>, s': State)
    requires Inv(s) && NoneUnannounced(s.pc)
    ensures Leads(s, moves, s') && OnlyBy(moves, 0) && SendsNothing(moves)
    ensures Inv(s') && ConsumerOnly(s, s') && AtRest(s')
    decreases |s.log| - |s.received|, ConsumerWork(s)
  {
    if AtRest(s) {
      moves, s' := [], s;
    } else {
      var op, s1 := ConsumerNext(s);
      moves, s' := ConsumerFinishes(s1);
      OnlyThen(s, s1, s');
      moves := LeadsFirst(s, 0, op, s1, moves, s');
    }
  }

  lemma {:induction false} NothingUnannounced(pc: seq<Pc>)
    requires NoneUnannounced(pc)
    ensures Total(Unannounced, pc) == 0
  {
    if pc != [] {
      assert forall t :: 0 <= t < |pc| - 1 ==> pc[1..][t] == pc[t + 1];
      NothingUnannounced(pc[1..]);
    }
  }

  /** Every request has been received.  Who holds a handle sees READY, and the slot of every request but the last that
      nobody waits for has been recycled once. */
  predicate AllHandled(s: State) {
    && |s.received| == |s.log| == |s.recycled|
    && (forall i :: 0 <= i < |s.log| ==> s.received[i] == s.log[i].slot)
    && (forall i :: 0 <= i < |s.log| && i in s.handles ==> s.log[i].slot < |s.flags| && s.flags[s.log[i].slot].ready)
    && (forall i :: 0 <= i < |s.log| - 1 && (ActionOf(s.log[i].kind).Destroy? || i in s.given) ==> s.recycled[i] == 1)
  }

  lemma RestHandled(s: State)
    requires Inv(s) && NoneUnannounced(s.pc) && AtRest(s)
    ensures AllHandled(s)
  {
    NothingUnannounced(s.pc);
    forall i | 0 <= i < |s.log| && i in s.handles
      ensures s.log[i].slot < |s.flags| && s.flags[s.log[i].slot].ready
    {
      HandleStaysGood(s, i);
    }
    forall i | 0 <= i < |s.log| - 1 && (ActionOf(s.log[i].kind).Destroy? || i in s.given) ensures s.recycled[i] == 1 {
      GivenNotify(s, i);
      RecycledExactlyOnce(s, i);
    }
  }

  lemma GivenNotify(s: State, i: nat)
    requires Inv(s) && i < |s.log|
    ensures i in s.given ==> ActionOf(s.log[i].kind).NotifySender?
  {
    assert i in s.given ==> HandedOut(s.log, i, s.pc);
  }

  /** Once no send is between the exchange and the announcement, the consumer alone receives and handles all that is in
      the queue. */
  lemma ConsumerHandlesAll(s: State) returns (moves: seq<Move>, s': State)
    requires Inv(s) && NoneUnannounced(s.pc)
    ensures Leads(s, moves, s') && OnlyBy(moves, 0) && SendsNothing(moves)
    ensures Inv(s') && ConsumerOnly(s, s') && AtRest(s') && AllHandled(s')
  {
    moves, s' := ConsumerFinishes(s);
    RestHandled(s');
  }

  // ----- All slots return -----

  predicate ClientsIdle(pc: seq<Pc>) {
    forall t :: 1 <= t < |pc| ==> pc[t].Idle?
  }

  function Below(n: nat): (r: set<nat>)
    ensures |r| == n && forall x: nat :: x in r <==> x < n
  {
    if n == 0 then {} else Below(n - 1) + {n - 1}
  }

  ghost function Members(xs: seq<nat>): set<nat> {
    set x | x in xs
  }

  lemma {:induction false} DistinctCount(xs: seq<nat>)
    requires forall j, k :: 0 <= j < k < |xs| ==> xs[j] != xs[k]
    ensures |Members(xs)| == |xs|
  {
    if xs != [] {
      var n := |xs| - 1;
      assert xs == xs[..n] + [xs[n]];
      assert Members(xs) == Members(xs[..n]) + {xs[n]};
      DistinctCount(xs[..n]);
    }
  }

  /** The slots that are not free when all is handled and no handle is held: that of the last request. */
  function Kept(log: seq<Entry>): set<nat> {
    if log == [] then {} else {log[|log| - 1].slot}
  }

  lemma ClientsAnnounced(s: State)
    requires Inv(s) && ClientsIdle(s.pc)
    ensures NoneUnannounced(s.pc)
  {
  }

  lemma AllReceived(s: State)
    requires Inv(s) && ClientsIdle(s.pc) && AtRest(s)
    ensures |s.received| == |s.log|
  {
    ClientsAnnounced(s);
    NothingUnannounced(s.pc);
  }

  lemma AtRestFree(s: State, x: nat)
    requires Inv(s) && ClientsIdle(s.pc) && AtRest(s) && s.handles == {} && x < |s.next|
    ensures x in s.free <==> x != Dummy(s.next) && x !in Kept(s.log)
  {
    PlacesFollowRole(s, x);
    AllReceived(s);
    if s.role[x].Message? {
      var i := s.role[x].i;
      assert i in s.given <==> HandedOut(s.log, i, s.pc);
    }
    if s.log != [] {
      var r := |s.log| - 1;
      assert RequestAt(s.log[r], r, ProgressOf(s), s.given, s.role, s.flags, s.kind, s.latest, s.recycled[r]);
    }
  }

  lemma AtRestSet(s: State)
    requires Inv(s) && ClientsIdle(s.pc) && AtRest(s) && s.handles == {}
    ensures Members(s.free) == Below(|s.next| - 1) - Kept(s.log) && |Members(s.free)| == |s.free|
  {
    forall x: nat | x < |s.next| ensures x in s.free <==> x != Dummy(s.next) && x !in Kept(s.log) {
      AtRestFree(s, x);
    }
    NothingShared(s);
    DistinctCount(s.free);
  }

  /** When all is handled, no client is in a call and no handle is held, all slots are free but the first dummy's and
      that of the last request, and the semaphore counts them. */
  lemma AtRestCount(s: State)
    requires Inv(s) && ClientsIdle(s.pc) && AtRest(s) && s.handles == {}
    ensures s.sem == |s.free| == |s.next| - 1 - if s.log == [] then 0 else 1
  {
    AtRestSet(s);
    if s.log != [] {
      LastBelow(s);
    }
    NoTokens(s.pc);
  }

  lemma LastBelow(s: State)
    requires Inv(s) && s.log != []
    ensures s.log[|s.log| - 1].slot < |s.next| - 1
  {
    var r := |s.log| - 1;
    assert RequestAt(s.log[r], r, ProgressOf(s), s.given, s.role, s.flags, s.kind, s.latest, s.recycled[r]);
  }

  lemma NoTokens(pc: seq<Pc>)
    requires pc != [] && pc[0].Waiting? && ClientsIdle(pc)
    ensures Total(Tokens, pc) == 0
  {
    assert forall t :: 0 <= t < |pc| - 1 ==> pc[1..][t] == pc[t + 1];
    IdleTokens(pc[1..]);
  }

  lemma {:induction false} IdleTokens(pc: seq<Pc>)
    requires forall t :: 0 <= t < |pc| ==> pc[t].Idle?
    ensures Total(Tokens, pc) == 0
  {
    if pc != [] {
      IdleTokens(pc[1..]);
    }
  }

  lemma NextDiscarded(s: State, t: nat) returns (i: nat, moves: seq<Move>, s': State)
    requires Inv(s) && 0 < t < |s.pc| && s.pc[t].Idle? && s.handles != {}
    ensures Leads(s, moves, s') && SendsNothing(moves) && Inv(s') && i in s.handles && DiscardDone(s, i, s')
  {
    i :| i in s.handles;
    moves, s' := DiscardCompletes(s, t, i);
  }

  /** Client t alone gives up all handles. */
  lemma {:induction false} AllDiscarded(s: State, t: nat) returns (moves: seq<Move>, s': State)
    requires Inv(s) && ClientsIdle(s.pc) && AtRest(s) && 0 < t < |s.pc|
    ensures Leads(s, moves, s') && SendsNothing(moves)
    ensures s'.pc == s.pc && s'.log == s.log && |s'.next| == |s.next| && s'.handles == {}
    ensures s'.sem == |s'.free| == |s.next| - 1 - if s.log == [] then 0 else 1
    decreases |s.handles|
  {
    if s.handles == {} {
      moves, s' := [], s;
      AtRestCount(s);
    } else {
      var i, a, s1 := NextDiscarded(s, t);
      var b;
      b, s' := AllDiscarded(s1, t);
      LeadsThen(s, a, s1, b, s');
      moves := a + b;
    }
  }

  lemma StillIdle(s: State, s1: State)
    requires ConsumerOnly(s, s1) && ClientsIdle(s.pc)
    ensures ClientsIdle(s1.pc)
  {
  }

  /** Whenever no client is in a call, all slots but two can be had again without another send: when the consumer has
      handled what is queued and the handles are given up, the semaphore counts all slots but the first dummy's and that
      of the last request. */
  lemma RoomReturns(s: State) returns (moves: seq<Move>, s': State)
    requires Inv(s) && ClientsIdle(s.pc) && |s.pc| > 1
    ensures Leads(s, moves, s') && SendsNothing(moves)
    ensures ClientsIdle(s'.pc) && s'.log == s.log && s'.handles == {}
    ensures s'.sem == |s'.free| == |s.next| - 1 - if s.log == [] then 0 else 1
  {
    ClientsAnnounced(s);
    var a, s1 := ConsumerHandlesAll(s);
    StillIdle(s, s1);
    var b;
    b, s' := AllDiscarded(s1, 1);
    LeadsThen(s, a, s1, b, s');
    moves := a + b;
  }
}
