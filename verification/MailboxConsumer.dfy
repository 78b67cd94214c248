/**
 The consumer's steps that touch the flags of a request keep the invariant.
 */
module MailboxConsumer {
  import opened Mailbox
  import opened MailboxInvariant
  import opened MailboxSteps

  /** Progress of the consumer that lets every request but i stay as it is. */
  predicate OnlyMoves(g: Progress, g': Progress, i: nat) {
    && (g.locked == g'.locked || (g.locked == i && g'.locked == i + 1))
    && (g.unlocked == g'.unlocked || (g.unlocked == i && g'.unlocked == i + 1))
    && (g.acted == g'.acted || (g.acted == i && g'.acted == i + 1))
  }

  lemma RequestsMove(log: seq<Entry>, g: Progress, g': Progress, given: set<nat>, role: seq<Role>, flags: seq<Flags>,
                     kind: seq<nat>, latest: seq<int>, recycled: seq<nat>, i: nat)
    requires RequestInv(log, g, given, role, flags, kind, latest, recycled)
    requires i < |log| && OnlyMoves(g, g', i) && Live(log[i], i, g, given) && Live(log[i], i, g', given)
    ensures role[log[i].slot] == Message(i)
    ensures RequestInv(log, g', given, role, flags[log[i].slot := FlagsAt(log[i], i, g', given)], kind, latest, recycled)
  {
    assert RequestAt(log[i], i, g, given, role, flags, kind, latest, recycled[i]);
    forall j | 0 <= j < |log| && j != i
      ensures Live(log[j], j, g, given) == Live(log[j], j, g', given) && FlagsAt(log[j], j, g, given) == FlagsAt(log[j], j, g', given)
    {
    }
  }

  lemma RequestsMoveEnds(log: seq<Entry>, g: Progress, g': Progress, given: set<nat>, role: seq<Role>, flags: seq<Flags>,
                         kind: seq<nat>, latest: seq<int>, recycled: seq<nat>, i: nat, f: Flags, r: Role)
    requires RequestInv(log, g, given, role, flags, kind, latest, recycled) && r.Owned?
    requires i < |log| && OnlyMoves(g, g', i) && Live(log[i], i, g, given) && !Live(log[i], i, g', given)
    ensures role[log[i].slot] == Message(i)
    ensures RequestInv(log, g', given, role[log[i].slot := r], flags[log[i].slot := f], kind, latest,
                       recycled[i := recycled[i] + 1])
  {
    assert RequestAt(log[i], i, g, given, role, flags, kind, latest, recycled[i]);
    forall j | 0 <= j < |log| && j != i
      ensures Live(log[j], j, g, given) == Live(log[j], j, g', given) && FlagsAt(log[j], j, g, given) == FlagsAt(log[j], j, g', given)
    {
    }
  }

  /** The consumer goes on to p and sets the flags of request i, which keeps its slot n. */
  lemma FlagsMove(s: State, i: nat, n: nat, p: Pc)
    requires SlotsInv(s) && OwnedBy(s.pc[0]) < 0 && IsConsumer(p) && !p.Recycling? && i < |s.log| && n == s.log[i].slot
    requires var g, g' := ProgressOf(s), ProgressAt(p, |s.received|);
             OnlyMoves(g, g', i) && Live(s.log[i], i, g, s.given) && Live(s.log[i], i, g', s.given)
    ensures n < |s.flags| && s.role[n] == Message(i)
    ensures SlotsInv(s.(pc := s.pc[0 := p], flags := s.flags[n := FlagsAt(s.log[i], i, ProgressAt(p, |s.received|), s.given)]))
  {
    var g' := ProgressAt(p, |s.received|);
    assert RequestAt(s.log[i], i, ProgressOf(s), s.given, s.role, s.flags, s.kind, s.latest, s.recycled[i]);
    var flags := s.flags[n := FlagsAt(s.log[i], i, g', s.given)];
    RequestsMove(s.log, ProgressOf(s), g', s.given, s.role, s.flags, s.kind, s.latest, s.recycled, i);
    StackElsewhere(s.free, s.top, s.next, s.role, s.flags, s.next, s.role, flags, n);
    OwnerElsewhere(s.pc, s.next, s.role, s.flags, s.kind, s.next, flags, n);
    OwnerMove(s.pc, s.next, s.role, flags, s.kind, 0, p);
  }

  /** The consumer begins to recycle the slot n of request i. */
  lemma RecyclingMove(s: State, i: nat, n: nat, f: Flags, p: Pc)
    requires SlotsInv(s) && OwnedBy(s.pc[0]) < 0 && i < |s.log| && n == s.log[i].slot
    requires p.Recycling? && p.x == n && p.stage.Clear? && p.after.ToUnlocked?
    requires var g, g' := ProgressOf(s), ProgressAt(p, |s.received|);
             OnlyMoves(g, g', i) && Live(s.log[i], i, g, s.given) && !Live(s.log[i], i, g', s.given)
    ensures n < |s.flags|
    ensures SlotsInv(s.(pc := s.pc[0 := p], flags := s.flags[n := f], role := s.role[n := Owned(0)],
                        recycled := s.recycled[i := s.recycled[i] + 1]))
  {
    var g', flags, role := ProgressAt(p, |s.received|), s.flags[n := f], s.role[n := Owned(0)];
    assert RequestAt(s.log[i], i, ProgressOf(s), s.given, s.role, s.flags, s.kind, s.latest, s.recycled[i]);
    RequestsMoveEnds(s.log, ProgressOf(s), g', s.given, s.role, s.flags, s.kind, s.latest, s.recycled, i, f, Owned(0));
    StackElsewhere(s.free, s.top, s.next, s.role, s.flags, s.next, role, flags, n);
    OwnerElsewhere(s.pc, s.next, s.role, s.flags, s.kind, s.next, flags, n);
    OwnerGains(s.pc, s.next, s.role, flags, s.kind, 0, p, n);
  }

  /** The parts about the queue when the consumer moves on within one round. */
  lemma ConsumerRoundKeeps(s: State, p: Pc)
    requires QueuesInv(s) && IsConsumer(s.pc[0]) && IsConsumer(p) && !p.Claimed? && !s.pc[0].Claimed? && Weight(Tokens, s.pc[0]) == 0 == Weight(Tokens, p)
    requires ConsumerInv(p, s.prev, s.received, s.log, Dummy(s.next))
    ensures QueuesInv(s.(pc := s.pc[0 := p]))
  {
    Tallies(s.pc, 0, p);
    QuietMove(s, 0, p);
  }

  // ----- Lock -----

  lemma LockKeeps(s: State)
    requires Inv(s) && s.pc[0].Fetched?
    ensures Inv(Lock(s))
  {
    LockSlots(s);
    ConsumerRoundKeeps(s, Locked(s.pc[0].n));
  }

  lemma LockSlots(s: State)
    requires SlotsInv(s) && s.pc[0].Fetched? && ConsumerInv(s.pc[0], s.prev, s.received, s.log, Dummy(s.next))
    ensures SlotsInv(Lock(s))
  {
    var i := |s.received| - 1;
    assert RequestAt(s.log[i], i, ProgressOf(s), s.given, s.role, s.flags, s.kind, s.latest, s.recycled[i]);
    FlagsMove(s, i, s.pc[0].n, Locked(s.pc[0].n));
  }

  // ----- Unlock -----

  /** The first round unlocks the dummy. */
  lemma UnlockDummySlots(s: State)
    requires SlotsInv(s) && s.pc[0].Locked? && |s.received| == 1
    requires ConsumerInv(s.pc[0], s.prev, s.received, s.log, Dummy(s.next))
    ensures SlotsInv(Unlock(s)) && Unlock(s) == s.(pc := s.pc[0 := Unlocked(s.pc[0].n)])
  {
    var s' := Unlock(s);
    assert s'.flags == s.flags;
    OwnerMove(s.pc, s.next, s.role, s.flags, s.kind, 0, s'.pc[0]);
    DummyProgress(s.log, ProgressOf(s), ProgressOf(s'), s.given, s.role, s.flags, s.kind, s.latest, s.recycled);
  }

  lemma DummyProgress(log: seq<Entry>, g: Progress, g': Progress, given: set<nat>, role: seq<Role>, flags: seq<Flags>,
                      kind: seq<nat>, latest: seq<int>, recycled: seq<nat>)
    requires RequestInv(log, g, given, role, flags, kind, latest, recycled)
    requires g.unlocked < 0 && g' == g.(unlocked := 0)
    ensures RequestInv(log, g', given, role, flags, kind, latest, recycled)
  {
  }

  lemma UnlockKeeps(s: State)
    requires Inv(s) && s.pc[0].Locked?
    ensures Inv(Unlock(s))
  {
    UnlockSlots(s);
    UnlockQueues(s);
  }

  lemma UnlockQueues(s: State)
    requires QueuesInv(s) && s.pc[0].Locked? && s.prev < |s.next|
    ensures QueuesInv(Unlock(s))
  {
    ConsumerRoundKeeps(s, Unlock(s).pc[0]);
  }

  lemma UnlockSlots(s: State)
    requires SlotsInv(s) && s.pc[0].Locked? && ConsumerInv(s.pc[0], s.prev, s.received, s.log, Dummy(s.next))
    ensures SlotsInv(Unlock(s))
  {
    if |s.received| == 1 {
      UnlockDummySlots(s);
      return;
    }
    var i := |s.received| - 2;
    assert RequestAt(s.log[i], i, ProgressOf(s), s.given, s.role, s.flags, s.kind, s.latest, s.recycled[i]);
    if GivenUp(s.log[i], i, ProgressOf(s), s.given) {
      UnlockEndsSlots(s);
    } else {
      UnlockStaysSlots(s);
    }
  }

  lemma UnlockStaysSlots(s: State)
    requires SlotsInv(s) && s.pc[0].Locked? && |s.received| > 1
    requires ConsumerInv(s.pc[0], s.prev, s.received, s.log, Dummy(s.next))
    requires !GivenUp(s.log[|s.received| - 2], |s.received| - 2, ProgressOf(s), s.given)
    ensures SlotsInv(Unlock(s)) && Unlock(s).pc[0].Unlocked?
  {
    var i := |s.received| - 2;
    assert RequestAt(s.log[i], i, ProgressOf(s), s.given, s.role, s.flags, s.kind, s.latest, s.recycled[i]);
    FlagsMove(s, i, s.prev, Unlocked(s.pc[0].n));
  }

  lemma UnlockEndsSlots(s: State)
    requires SlotsInv(s) && s.pc[0].Locked? && |s.received| > 1
    requires ConsumerInv(s.pc[0], s.prev, s.received, s.log, Dummy(s.next))
    requires GivenUp(s.log[|s.received| - 2], |s.received| - 2, ProgressOf(s), s.given)
    ensures SlotsInv(Unlock(s)) && Unlock(s).pc[0].Recycling?
  {
    var i := |s.received| - 2;
    assert RequestAt(s.log[i], i, ProgressOf(s), s.given, s.role, s.flags, s.kind, s.latest, s.recycled[i]);
    RecyclingMove(s, i, s.prev, Unlock(s).flags[s.prev], Unlock(s).pc[0]);
  }

  // ----- Act -----

  /** The handler's action marks the request and never recycles it: it is still locked. */
  lemma ActKeeps(s: State)
    requires Inv(s) && s.pc[0].Handling?
    ensures Inv(Act(s)) && Act(s).pc[0].Waiting?
  {
    ActSlots(s);
    ConsumerRoundKeeps(s, Waiting);
  }

  /** The request acted upon is locked, so its action only changes its flags. */
  lemma ActShape(s: State)
    requires SlotsInv(s) && s.pc[0].Handling? && ConsumerInv(s.pc[0], s.prev, s.received, s.log, Dummy(s.next))
    ensures Act(s) == s.(pc := s.pc[0 := Waiting], flags := Act(s).flags)
    ensures var i, n := |s.received| - 1, s.pc[0].n;
            && s.log[i].slot == n < |s.flags| && s.role[n] == Message(i)
            && Act(s).flags == s.flags[n := FlagsAt(s.log[i], i, ProgressAt(Waiting, |s.received|), s.given)]
  {
    var i := |s.received| - 1;
    assert RequestAt(s.log[i], i, ProgressOf(s), s.given, s.role, s.flags, s.kind, s.latest, s.recycled[i]);
  }

  lemma ActSlots(s: State)
    requires SlotsInv(s) && s.pc[0].Handling? && ConsumerInv(s.pc[0], s.prev, s.received, s.log, Dummy(s.next))
    ensures SlotsInv(Act(s)) && Act(s).pc[0].Waiting?
    ensures Act(s) == s.(pc := s.pc[0 := Waiting], flags := Act(s).flags)
  {
    ActShape(s);
    FlagsMove(s, |s.received| - 1, s.pc[0].n, Waiting);
  }
}
