/**
 The invariant of the output log.
 */
module OutputLogInvariant {
  import opened Bits
  import opened OutputLog

  // ----- The pool -----

  function TopOf(pool: seq<nat>, none: nat): nat {
    if pool == [] then none else pool[|pool| - 1]
  }

  /** Buffer k of the pool is linked to the one below it. */
  predicate PoolAt(next: seq<nat>, pool: seq<nat>, role: seq<Role>, k: nat)
    requires k < |pool|
  {
    && pool[k] < |next| == |role| && role[pool[k]] == Pool(k)
    && next[pool[k]] == TopOf(pool[..k], |next|)
  }

  predicate PoolInv(next: seq<nat>, head: nat, pool: seq<nat>, role: seq<Role>) {
    && head == TopOf(pool, |next|)
    && forall k {:trigger PoolAt(next, pool, role, k)} :: 0 <= k < |pool| ==> PoolAt(next, pool, role, k)
  }

  // ----- The queue -----

  /** The i-th buffer ever in the queue; the first is the one the consumer starts with. */
  function SlotAt(log: seq<Entry>, i: nat): nat
    requires i <= |log|
  {
    if i == 0 then 0 else log[i - 1].buffer
  }

  predicate QueueAt(next: seq<nat>, log: seq<Entry>, role: seq<Role>, i: nat)
    requires i <= |log|
  {
    && SlotAt(log, i) < |next| == |role| && role[SlotAt(log, i)] == Queued(i)
    && (i < |log| ==> next[SlotAt(log, i)] == SlotAt(log, i + 1))
  }

  predicate QueueInv(next: seq<nat>, log: seq<Entry>, got: nat, role: seq<Role>) {
    && got <= |log|
    && forall i {:trigger QueueAt(next, log, role, i)} :: got <= i <= |log| ==> QueueAt(next, log, role, i)
  }

  // ----- The threads -----

  predicate ProducerInv(s: State)
    requires |s.role| == |s.next|
  {
    && s.current < |s.role| && s.role[s.current] == Current
    && (match s.p
        case Loaded(h) => s.mark < |s.pool| && s.pool[s.mark] == h
        case Peeked(h, m) => s.mark < |s.pool| && s.pool[s.mark] == h && m == TopOf(s.pool[..s.mark], |s.next|)
        case Popped(h) => h < |s.role| && s.role[h] == Hand
        case Swapped(full) => full < |s.role| && s.role[full] == Full
        case Linked(full) => full == SlotAt(s.log, |s.log|)
        case _ => true)
    && s.tail == SlotAt(s.log, if s.p.Linked? && |s.log| > 0 then |s.log| - 1 else |s.log|)
    && (s.p.Linked? ==> |s.log| > 0)
  }

  predicate ConsumerInv(s: State)
    requires |s.role| == |s.next| && s.got <= |s.log|
  {
    match s.c
    case Waiting | Claimed | Printing(_) => s.prev == SlotAt(s.log, s.got) && (s.c.Printing? ==> s.got > 0)
    case Fetched(r) => LeavingInv(s, r)
    case HeadRead(r, _) => LeavingInv(s, r)
    case LinkSet(r, c) => LeavingInv(s, r) && s.next[s.prev] == c
    case Pushed(r) => s.got > 0 && r == SlotAt(s.log, s.got)
  }

  predicate LeavingInv(s: State, r: nat)
    requires |s.role| == |s.next| && s.got <= |s.log|
  {
    s.prev < |s.role| && s.role[s.prev] == Leaving && s.got > 0 && r == SlotAt(s.log, s.got)
  }

  // ----- Who has a buffer -----

  function Popping(p: Producer, none: nat): nat {
    if p.Popped? then p.h else none
  }

  function Pushing(p: Producer, none: nat): nat {
    if p.Swapped? then p.full else none
  }

  predicate Leaves(c: Consumer) {
    c.Fetched? || c.HeadRead? || c.LinkSet?
  }

  function Returning(c: Consumer, prev: nat, none: nat): nat {
    if Leaves(c) then prev else none
  }

  predicate RoleAt(role: seq<Role>, pool: seq<nat>, log: seq<Entry>, got: nat, current: nat,
                   popping: nat, pushing: nat, returning: nat, b: nat)
    requires b < |role|
  {
    match role[b]
    case Pool(k) => k < |pool| && pool[k] == b
    case Current => b == current
    case Hand => b == popping
    case Full => b == pushing
    case Queued(i) => got <= i <= |log| && SlotAt(log, i) == b
    case Leaving => b == returning
  }

  predicate AllRoles(role: seq<Role>, pool: seq<nat>, log: seq<Entry>, got: nat, current: nat,
                     popping: nat, pushing: nat, returning: nat) {
    forall b {:trigger RoleAt(role, pool, log, got, current, popping, pushing, returning, b)} :: 0 <= b < |role| ==>
      RoleAt(role, pool, log, got, current, popping, pushing, returning, b)
  }

  /** Buffer b has the role it should. */
  predicate RightRole(s: State, b: nat)
    requires b < |s.role|
  {
    RoleAt(s.role, s.pool, s.log, s.got, s.current,
           Popping(s.p, |s.role|), Pushing(s.p, |s.role|), Returning(s.c, s.prev, |s.role|), b)
  }

  predicate RoleInv(s: State) {
    AllRoles(s.role, s.pool, s.log, s.got, s.current,
             Popping(s.p, |s.role|), Pushing(s.p, |s.role|), Returning(s.c, s.prev, |s.role|))
  }

  lemma AllRightRoles(s: State)
    requires forall b {:trigger RightRole(s, b)} :: 0 <= b < |s.role| ==> RightRole(s, b)
    ensures RoleInv(s)
  {
    var popping, pushing := Popping(s.p, |s.role|), Pushing(s.p, |s.role|);
    var returning := Returning(s.c, s.prev, |s.role|);
    forall b | 0 <= b < |s.role|
      ensures RoleAt(s.role, s.pool, s.log, s.got, s.current, popping, pushing, returning, b)
    {
      assert RightRole(s, b);
    }
  }

  // ----- Counting -----

  function One(b: bool): nat {
    if b then 1 else 0
  }

  predicate HasToken(p: Producer) {
    p.Token? || p.Loaded? || p.Peeked?
  }

  predicate CountInv(s: State) {
    && |s.pool| == s.sem + One(HasToken(s.p)) + One(s.c.Pushed?)
    && s.mp + s.sc + One(s.c.Claimed?) + s.got + One(s.p.Linked? || s.p.Tailed?) == |s.log|
    && |s.pool| + 2 + (|s.log| - s.got) + One(s.p.Popped? || s.p.Swapped?) + One(Leaves(s.c)) == |s.next|
  }

  // ----- What was written and what was printed -----

  function Flatten(log: seq<Entry>): seq<byte> {
    if log == [] then [] else Flatten(log[..|log| - 1]) + log[|log| - 1].text
  }

  /** The bytes that buffer b says it holds. */
  function TextOf(bytes: seq<nat>, data: seq<seq<byte>>, b: nat): seq<byte> {
    if b < |bytes| && b < |data| && bytes[b] <= |data[b]| then data[b][..bytes[b]] else []
  }

  /** Entry i holds its text until it has been printed. */
  predicate TextAt(bytes: seq<nat>, data: seq<seq<byte>>, log: seq<Entry>, i: nat)
    requires 1 <= i <= |log|
  {
    log[i - 1].buffer < |bytes| == |data|
    && bytes[log[i - 1].buffer] <= |data[log[i - 1].buffer]|
    && TextOf(bytes, data, log[i - 1].buffer) == log[i - 1].text
  }

  predicate TextInv(s: State) {
    && |s.bytes| == |s.data| == |s.next|
    && s.current < |s.data| && s.cursor <= |s.data[s.current]| && s.data[s.current][..s.cursor] == s.line
    && (s.p.Measured? || HasToken(s.p) || s.p.Popped? ==> s.bytes[s.current] == s.cursor)
    && (s.p.Swapped? ==>
          && s.p.full < |s.data| && s.bytes[s.p.full] <= |s.data[s.p.full]|
          && TextOf(s.bytes, s.data, s.p.full) == s.pending)
    && (!s.p.Swapped? ==> s.pending == [])
    && s.input == Flatten(s.log) + s.pending + s.line
    && forall i {:trigger TextAt(s.bytes, s.data, s.log, i)} ::
         1 <= i <= |s.log| && s.got <= i ==> TextAt(s.bytes, s.data, s.log, i)
  }

  /** How many entries have been printed to the end. */
  function Printed(s: State): nat {
    if s.got > 0 && (s.c.Printing? || s.c.Pushed? || Leaves(s.c)) then s.got - 1 else s.got
  }

  predicate OutInv(s: State)
    requires s.got <= |s.log|
  {
    if s.c.Printing? && s.got > 0
    then s.c.k <= |s.log[s.got - 1].text| && s.out == Flatten(s.log[..s.got - 1]) + s.log[s.got - 1].text[..s.c.k]
    else s.out == Flatten(s.log[..Printed(s)])
  }

  predicate Inv(s: State) {
    && 2 < |s.next| == |s.role|
    && PoolInv(s.next, s.head, s.pool, s.role)
    && QueueInv(s.next, s.log, s.got, s.role)
    && ProducerInv(s) && ConsumerInv(s) && RoleInv(s) && CountInv(s) && TextInv(s) && OutInv(s)
  }
}
