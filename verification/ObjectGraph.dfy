/**
 The object manager's heap of descriptors as a value: an ownership tree, and connections that
 are recorded at both ends. Addresses that are not in the heap have been freed.
 */
module ObjectGraph {

  type Ptr = nat

  datatype Connection = Connection(client: Ptr, server: Ptr, callback: bool)

  datatype Descriptor = Descriptor(
    owner: Ptr,
    generation: nat,
    refCount: nat,
    shared: bool,
    children: set<Ptr>,
    usedByList: map<Ptr, Connection>,
    useList: set<Ptr>)

  type Heap = map<Ptr, Descriptor>

  // ----- The invariant -----

  /** p is a child of its owner, one generation later. */
  predicate Owned(h: Heap, root: Ptr, p: Ptr)
    requires p in h
  {
    p != root ==>
      && h[p].owner in h
      && p in h[h[p].owner].children
      && h[p].generation == h[h[p].owner].generation + 1
  }

  /** The children of p name it as their owner; only those of condemned objects may be dead. */
  predicate Owns(h: Heap, root: Ptr, condemned: set<Ptr>, p: Ptr)
    requires p in h
  {
    forall c :: c in h[p].children ==> if c in h then c != root && h[c].owner == p else p in condemned
  }

  /** Every connection of p is recorded at its other end too. */
  predicate Connected(h: Heap, p: Ptr)
    requires p in h
  {
    && (forall s :: s in h[p].useList ==> s in h && p in h[s].usedByList)
    && (forall c :: c in h[p].usedByList ==>
          c in h && p in h[c].useList && h[p].usedByList[c].client == c && h[p].usedByList[c].server == p)
  }

  predicate Right(h: Heap, root: Ptr, condemned: set<Ptr>, p: Ptr)
    requires p in h
  {
    Owned(h, root, p) && Owns(h, root, condemned, p) && Connected(h, p) && h[p].refCount == 1
  }

  /** The objects form a tree under the root, except that condemned ones may have lost children. */
  ghost predicate GraphInv(h: Heap, root: Ptr, condemned: set<Ptr>) {
    && root in h && h[root].generation == 0
    && forall p {:trigger Right(h, root, condemned, p)} :: p in h ==> Right(h, root, condemned, p)
  }

  // ----- Subtrees -----

  /** p is one of the roots, or they own it, directly or not. */
  predicate Under(h: Heap, p: Ptr, roots: set<Ptr>)
    decreases if p in h then h[p].generation else 0
  {
    && p in h
    && (p in roots
        || (h[p].owner in h && h[h[p].owner].generation < h[p].generation && Under(h, h[p].owner, roots)))
  }

  function Subtrees(h: Heap, roots: set<Ptr>): set<Ptr> {
    set p | p in h && Under(h, p, roots)
  }

  lemma {:induction false} UnderEither(h: Heap, p: Ptr, a: set<Ptr>, b: set<Ptr>)
    ensures Under(h, p, a + b) <==> Under(h, p, a) || Under(h, p, b)
    decreases if p in h then h[p].generation else 0
  {
    if p in h && p !in a + b && h[p].owner in h && h[h[p].owner].generation < h[p].generation {
      UnderEither(h, h[p].owner, a, b);
    }
  }

  lemma {:induction false} UnderIsLater(h: Heap, p: Ptr, roots: set<Ptr>, g: nat)
    requires Under(h, p, roots) && forall r :: r in roots && r in h ==> h[r].generation >= g
    ensures h[p].generation >= g
    decreases h[p].generation
  {
    if p !in roots {
      UnderIsLater(h, h[p].owner, roots, g);
    }
  }

  /** What is under x is x, or under a child of x. */
  lemma {:induction false} UnderIsBelow(h: Heap, root: Ptr, condemned: set<Ptr>, p: Ptr, x: Ptr)
    requires GraphInv(h, root, condemned) && x in h && p in h
    ensures Under(h, p, {x}) <==> p == x || Under(h, p, h[x].children)
    decreases h[p].generation
  {
    assert Right(h, root, condemned, p) && Right(h, root, condemned, x);
    if p != x && h[p].owner in h && h[h[p].owner].generation < h[p].generation {
      UnderIsBelow(h, root, condemned, h[p].owner, x);
    }
    assert p in h[x].children ==> h[p].owner == x && Under(h, x, {x});
  }

  /** Nothing is under two siblings. */
  lemma {:induction false} SiblingsApart(h: Heap, p: Ptr, a: set<Ptr>, b: set<Ptr>, x: Ptr)
    requires forall c :: c in a + b ==> c in h && h[c].owner == x
    requires x in h && forall c :: c in a + b ==> h[c].generation == h[x].generation + 1
    requires a !! b
    ensures !(Under(h, p, a) && Under(h, p, b))
    decreases if p in h then h[p].generation else 0
  {
    if Under(h, p, a) && Under(h, p, b) {
      if p in a {
        UnderIsLater(h, x, b, h[p].generation);
      } else if p in b {
        UnderIsLater(h, x, a, h[p].generation);
      } else {
        SiblingsApart(h, h[p].owner, a, b, x);
      }
    }
  }

  // ----- Pruning -----

  /** d without its connections with the objects of s. */
  function Cut(d: Descriptor, s: set<Ptr>): Descriptor {
    d.(useList := d.useList - s, usedByList := d.usedByList - s)
  }

  /** The heap without the objects of s and the connections with them. */
  function Prune(h: Heap, s: set<Ptr>): Heap {
    map p | p in h && p !in s :: Cut(h[p], s)
  }

  /** o no longer counts x among its children. */
  function Forget(h: Heap, o: Ptr, x: Ptr): Heap
    requires o in h
  {
    h[o := h[o].(children := h[o].children - {x})]
  }

  /** What is left when x and all that it owns are destroyed. */
  function Destroyed(h: Heap, x: Ptr): Heap
    requires x in h && h[x].owner in h
  {
    Prune(Forget(h, h[x].owner, x), Subtrees(h, {x}))
  }

  lemma ForgottenThenFreed(h: Heap, o: Ptr, x: Ptr)
    requires o in h && o != x
    ensures Forget(h, o, x) - {x} == Forget(h - {x}, o, x)
  {
    var a, b := Forget(h, o, x) - {x}, Forget(h - {x}, o, x);
    assert a.Keys == b.Keys;
    forall p | p in a ensures a[p] == b[p] {
    }
  }

  lemma PruneTwice(h: Heap, a: set<Ptr>, b: set<Ptr>)
    ensures Prune(Prune(h, a), b) == Prune(h, a + b)
  {
    assert forall p :: p in h ==> Cut(Cut(h[p], a), b) == Cut(h[p], a + b);
  }

  /** Objects of s own nothing outside s. */
  ghost predicate Closed(h: Heap, s: set<Ptr>) {
    && s <= h.Keys
    && forall p {:trigger p in s} :: p in h && h[p].owner in s && h[h[p].owner].generation < h[p].generation ==> p in s
  }

  lemma SubtreesClosed(h: Heap, roots: set<Ptr>)
    ensures Closed(h, Subtrees(h, roots))
  {
  }

  lemma {:induction false} UnderPruned(h: Heap, s: set<Ptr>, p: Ptr, roots: set<Ptr>)
    requires Closed(h, s) && p in h && p !in s
    ensures Under(Prune(h, s), p, roots) <==> Under(h, p, roots)
    decreases h[p].generation
  {
    if h[p].owner in h && h[h[p].owner].generation < h[p].generation {
      UnderPruned(h, s, h[p].owner, roots);
    }
  }

  lemma SubtreesPruned(h: Heap, s: set<Ptr>, roots: set<Ptr>)
    requires Closed(h, s)
    ensures Subtrees(Prune(h, s), roots) == Subtrees(h, roots) - s
  {
    forall p | p in h && p !in s ensures Under(Prune(h, s), p, roots) <==> Under(h, p, roots) {
      UnderPruned(h, s, p, roots);
    }
  }

  /** Pruning whole subtrees keeps the tree, but their owners are left with dead children. */
  lemma PruneKeeps(h: Heap, root: Ptr, condemned: set<Ptr>, s: set<Ptr>, bereft: set<Ptr>)
    requires GraphInv(h, root, condemned) && Closed(h, s) && root !in s && condemned <= bereft
    requires forall p :: p in s ==> h[p].owner in s + bereft
    ensures GraphInv(Prune(h, s), root, bereft)
  {
    var h' := Prune(h, s);
    forall p | p in h' ensures Right(h', root, bereft, p) {
      assert Right(h, root, condemned, p);
    }
  }

  /** Once the owner of a dead child forgets it, the tree is whole again. */
  lemma ForgetDead(h: Heap, root: Ptr, o: Ptr, x: Ptr)
    requires GraphInv(h, root, {o}) && o in h && x !in h
    requires forall c :: c in h[o].children ==> c in h || c == x
    ensures GraphInv(Forget(h, o, x), root, {})
  {
    var h' := Forget(h, o, x);
    forall p | p in h' ensures Right(h', root, {}, p) {
      assert Right(h, root, {o}, p);
    }
  }

  lemma DestroyedSplits(h: Heap, x: Ptr)
    requires x in h && h[x].owner in h && h[x].owner !in Subtrees(h, {x})
    ensures Destroyed(h, x) == Forget(Prune(h, Subtrees(h, {x})), h[x].owner, x)
  {
  }

  /** Destroying x and all that it owns keeps the tree. */
  lemma DestroyedKeeps(h: Heap, root: Ptr, x: Ptr)
    requires GraphInv(h, root, {}) && x in h && x != root
    ensures h[x].owner in h && GraphInv(Destroyed(h, x), root, {})
  {
    var s := Subtrees(h, {x});
    var o := h[x].owner;
    SubtreesClosed(h, {x});
    OnlyRootOfSubtree(h, root, {}, x);
    PruneKeeps(h, root, {}, s, {o});
    OwnerKeepsOthers(h, root, x);
    ForgetDead(Prune(h, s), root, o, x);
    DestroyedSplits(h, x);
  }

  lemma OwnerKeepsOthers(h: Heap, root: Ptr, x: Ptr)
    requires GraphInv(h, root, {}) && x in h && x != root
    ensures h[x].owner in h
    ensures forall c :: c in h[h[x].owner].children ==> c in Prune(h, Subtrees(h, {x})) || c == x
  {
    assert Right(h, root, {}, x) && Right(h, root, {}, h[x].owner);
    OnlyRootOfSubtree(h, root, {}, x);
  }

  /** The owner of x is not under x, and the owners of everything else under x are. */
  lemma OnlyRootOfSubtree(h: Heap, root: Ptr, condemned: set<Ptr>, x: Ptr)
    requires GraphInv(h, root, condemned) && x in h && x != root
    ensures root !in Subtrees(h, {x}) && h[x].owner in h && h[x].owner !in Subtrees(h, {x})
    ensures forall p :: p in Subtrees(h, {x}) && p != x ==> h[p].owner in Subtrees(h, {x})
  {
    assert Right(h, root, condemned, x);
    if Under(h, root, {x}) {
      UnderIsLater(h, root, {x}, h[x].generation);
    }
    if Under(h, h[x].owner, {x}) {
      UnderIsLater(h, h[x].owner, {x}, h[x].generation);
    }
  }

  // ----- One object -----

  /** The clients cs have forgotten the server s. */
  function NotUsing(h: Heap, s: Ptr, cs: set<Ptr>): Heap {
    map p | p in h :: if p in cs then h[p].(useList := h[p].useList - {s}) else h[p]
  }

  /** The servers ss have forgotten the client c. */
  function NotUsedBy(h: Heap, c: Ptr, ss: set<Ptr>): Heap {
    map p | p in h :: if p in ss then h[p].(usedByList := h[p].usedByList - {c}) else h[p]
  }

  lemma NotUsingStep(h: Heap, s: Ptr, done: set<Ptr>, c: Ptr)
    requires c in h && c !in done
    ensures var h' := NotUsing(h, s, done);
            h'[c := h'[c].(useList := h'[c].useList - {s})] == NotUsing(h, s, done + {c})
  {
  }

  lemma NotUsedByStep(h: Heap, c: Ptr, done: set<Ptr>, s: Ptr)
    requires s in h && s !in done
    ensures var h' := NotUsedBy(h, c, done);
            h'[s := h'[s].(usedByList := h'[s].usedByList - {c})] == NotUsedBy(h, c, done + {s})
  {
  }

  lemma DetachedIsPruned(h: Heap, root: Ptr, condemned: set<Ptr>, x: Ptr)
    requires GraphInv(h, root, condemned) && x in h
    ensures NotUsedBy(NotUsing(h, x, h[x].usedByList.Keys), x, h[x].useList - {x}) - {x} == Prune(h, {x})
  {
    assert Right(h, root, condemned, x);
    var h' := NotUsedBy(NotUsing(h, x, h[x].usedByList.Keys), x, h[x].useList - {x});
    forall p | p in h && p != x ensures h'[p] == Cut(h[p], {x}) {
      assert Right(h, root, condemned, p);
      assert x in h[p].useList <==> p in h[x].usedByList;
      assert x in h[p].usedByList <==> p in h[x].useList;
      assert x !in h[p].useList ==> h[p].useList - {x} == h[p].useList;
      assert x !in h[p].usedByList ==> h[p].usedByList - {x} == h[p].usedByList;
    }
  }

  // ----- What is told to whom -----

  datatype DtorCall = DtorCall(target: Ptr, reason: int, indirect: bool)

  datatype DisconnectCall = DisconnectCall(client: Ptr, server: Ptr, reason: int, unexpected: bool, indirect: bool)

  /** t lists the elements of s, each once. */
  ghost predicate Enumerates<T(!new)>(t: seq<T>, s: set<T>) {
    |t| == |s| && forall x {:trigger x in t} {:trigger x in s} :: x in t <==> x in s
  }

  function Objects(t: seq<DtorCall>): (r: seq<Ptr>)
    ensures |r| == |t| && forall i :: 0 <= i < |t| ==> r[i] == t[i].target
  {
    seq(|t|, i requires 0 <= i < |t| => t[i].target)
  }

  function Pairs(t: seq<DisconnectCall>): (r: seq<(Ptr, Ptr)>)
    ensures |r| == |t| && forall i :: 0 <= i < |t| ==> r[i] == (t[i].client, t[i].server)
  {
    seq(|t|, i requires 0 <= i < |t| => (t[i].client, t[i].server))
  }

  /** The connection of client c with server s has a callback. */
  predicate HasCallback(h: Heap, c: Ptr, s: Ptr) {
    c in h && s in h[c].useList && s in h && c in h[s].usedByList && h[s].usedByList[c].callback
  }

  /** The connections, with a callback, of which an end is in s. */
  function Notified(h: Heap, s: set<Ptr>): set<(Ptr, Ptr)> {
    set c, d | c in h && d in h[c].useList && HasCallback(h, c, d) && (c in s || d in s) :: (c, d)
  }

  /** No object is destroyed before one that it owns. */
  predicate OwnersLast(h: Heap, t: seq<Ptr>) {
    forall i, j :: 0 <= i < j < |t| ==> !Under(h, t[j], {t[i]})
  }

  /** The destructor of every object of s is called once, with the reason, after those of all it owns. */
  ghost predicate Dtors(t: seq<DtorCall>, h: Heap, s: set<Ptr>, reason: int) {
    && Enumerates(Objects(t), s) && OwnersLast(h, Objects(t))
    && forall d :: d in t ==> d.reason == reason
  }

  /** Every connection of an object of s is reported once, as unexpected to a client that lives on. */
  ghost predicate Disconnects(t: seq<DisconnectCall>, h: Heap, s: set<Ptr>, reason: int) {
    && Enumerates(Pairs(t), Notified(h, s))
    && forall d :: d in t ==>
         d.reason == reason && (d.client !in s ==> d.unexpected) && (d.server !in s ==> !d.unexpected)
  }

  /** The connections of s are reported, each once and in the same way. */
  ghost predicate Reports(t: seq<DisconnectCall>, s: set<(Ptr, Ptr)>, reason: int, unexpected: bool, indirect: bool) {
    && Enumerates(Pairs(t), s)
    && forall d :: d in t ==> d.reason == reason && d.unexpected == unexpected && d.indirect == indirect
  }

  lemma ReportsMore(t: seq<DisconnectCall>, s: set<(Ptr, Ptr)>, d: DisconnectCall)
    requires Reports(t, s, d.reason, d.unexpected, d.indirect) && (d.client, d.server) !in s
    ensures Reports(t + [d], s + {(d.client, d.server)}, d.reason, d.unexpected, d.indirect)
  {
    PairsBoth(t, [d]);
    assert Pairs([d]) == [(d.client, d.server)];
    EnumeratesBoth(Pairs(t), s, Pairs([d]), {(d.client, d.server)});
  }

  /** The connections with the server x, with a callback, of the clients cs. */
  function ClientsToTell(h: Heap, x: Ptr, cs: set<Ptr>): set<(Ptr, Ptr)> {
    set c | c in cs && HasCallback(h, c, x) :: (c, x)
  }

  /** The connections of the client x, with a callback, with the servers ss. */
  function ServersToTell(h: Heap, x: Ptr, ss: set<Ptr>): set<(Ptr, Ptr)> {
    set s | s in ss && HasCallback(h, x, s) :: (x, s)
  }

  lemma NotifiedOfOne(h: Heap, root: Ptr, condemned: set<Ptr>, x: Ptr)
    requires GraphInv(h, root, condemned) && x in h
    ensures var a, b := ClientsToTell(h, x, h[x].usedByList.Keys), ServersToTell(h, x, h[x].useList - {x});
            a + b == Notified(h, {x}) && a !! b
  {
    assert Right(h, root, condemned, x);
  }

  lemma ClientTold(t: seq<DisconnectCall>, h: Heap, x: Ptr, done: set<Ptr>, c: Ptr, d: DisconnectCall)
    requires Reports(t, ClientsToTell(h, x, done), d.reason, d.unexpected, d.indirect)
    requires c !in done && d.client == c && d.server == x
    ensures Reports(t + (if HasCallback(h, c, x) then [d] else []), ClientsToTell(h, x, done + {c}),
                    d.reason, d.unexpected, d.indirect)
  {
    if HasCallback(h, c, x) {
      ReportsMore(t, ClientsToTell(h, x, done), d);
      assert ClientsToTell(h, x, done + {c}) == ClientsToTell(h, x, done) + {(c, x)};
    } else {
      assert t + [] == t;
      assert ClientsToTell(h, x, done + {c}) == ClientsToTell(h, x, done);
    }
  }

  lemma ServerTold(t: seq<DisconnectCall>, h: Heap, x: Ptr, done: set<Ptr>, s: Ptr, d: DisconnectCall)
    requires Reports(t, ServersToTell(h, x, done), d.reason, d.unexpected, d.indirect)
    requires s !in done && d.client == x && d.server == s
    ensures Reports(t + (if HasCallback(h, x, s) then [d] else []), ServersToTell(h, x, done + {s}),
                    d.reason, d.unexpected, d.indirect)
  {
    if HasCallback(h, x, s) {
      ReportsMore(t, ServersToTell(h, x, done), d);
      assert ServersToTell(h, x, done + {s}) == ServersToTell(h, x, done) + {(x, s)};
    } else {
      assert t + [] == t;
      assert ServersToTell(h, x, done + {s}) == ServersToTell(h, x, done);
    }
  }

  /** The clients done have forgotten the server x, and have been told. */
  ghost predicate ClientsGone(h: Heap, h': Heap, x: Ptr, done: set<Ptr>, calls: seq<DisconnectCall>,
                              reason: int, indirect: bool) {
    h' == NotUsing(h, x, done) && Reports(calls, ClientsToTell(h, x, done), reason, true, indirect)
  }

  /** After all its clients, the servers done have forgotten x as a client, and it has been told. */
  ghost predicate ServersGone(h: Heap, h': Heap, x: Ptr, done: set<Ptr>, calls: seq<DisconnectCall>,
                              reason: int, indirect: bool)
    requires x in h
  {
    && h' == NotUsedBy(NotUsing(h, x, h[x].usedByList.Keys), x, done)
    && Reports(calls, ServersToTell(h, x, done), reason, false, indirect)
  }

  lemma NoneGone(h: Heap, x: Ptr, reason: int, indirect: bool)
    ensures ClientsGone(h, h, x, {}, [], reason, indirect)
  {
  }

  lemma NoServerGone(h: Heap, h': Heap, root: Ptr, condemned: set<Ptr>, x: Ptr, calls: seq<DisconnectCall>,
                     reason: int, indirect: bool)
    requires GraphInv(h, root, condemned) && x in h
    requires ClientsGone(h, h', x, h[x].usedByList.Keys, calls, reason, indirect)
    ensures ServersGone(h, h', x, {}, [], reason, indirect)
    ensures x in h' && h'[x].useList == h[x].useList - {x}
  {
    assert Right(h, root, condemned, x);
  }

  lemma ClientGoes(h: Heap, h': Heap, root: Ptr, condemned: set<Ptr>, x: Ptr, done: set<Ptr>, c: Ptr,
                   calls: seq<DisconnectCall>, reason: int, indirect: bool)
    requires GraphInv(h, root, condemned) && ClientsGone(h, h', x, done, calls, reason, indirect)
    requires x in h && c in h[x].usedByList && c !in done
    ensures x in h' && h'[x].usedByList == h[x].usedByList && c in h'
    ensures h[x].usedByList[c].client == c && h[x].usedByList[c].server == x
    ensures var told := if h[x].usedByList[c].callback then [DisconnectCall(c, x, reason, true, indirect)] else [];
            ClientsGone(h, h'[c := h'[c].(useList := h'[c].useList - {x})], x, done + {c}, calls + told, reason, indirect)
  {
    assert Right(h, root, condemned, x);
    NotUsingStep(h, x, done, c);
    ClientTold(calls, h, x, done, c, DisconnectCall(c, x, reason, true, indirect));
  }

  lemma ServerGoes(h: Heap, h': Heap, root: Ptr, condemned: set<Ptr>, x: Ptr, done: set<Ptr>, s: Ptr,
                   calls: seq<DisconnectCall>, reason: int, indirect: bool)
    requires GraphInv(h, root, condemned) && x in h && ServersGone(h, h', x, done, calls, reason, indirect)
    requires s in h[x].useList && s != x && s !in done
    ensures s in h' && x in h'[s].usedByList && h'[s].refCount == 1
    ensures h'[s].usedByList[x].client == x && h'[s].usedByList[x].server == s
    ensures var told := if h'[s].usedByList[x].callback then [DisconnectCall(x, s, reason, false, indirect)] else [];
            ServersGone(h, h'[s := h'[s].(usedByList := h'[s].usedByList - {x})], x, done + {s}, calls + told,
                        reason, indirect)
  {
    assert Right(h, root, condemned, x) && Right(h, root, condemned, s);
    NotUsedByStep(NotUsing(h, x, h[x].usedByList.Keys), x, done, s);
    ServerTold(calls, h, x, done, s, DisconnectCall(x, s, reason, false, indirect));
  }

  /** Telling the clients of x first and then its other servers tells everybody once. */
  lemma BothEndsTold(h: Heap, root: Ptr, condemned: set<Ptr>, x: Ptr,
                     t: seq<DisconnectCall>, u: seq<DisconnectCall>, reason: int, indirect: bool)
    requires GraphInv(h, root, condemned) && x in h
    requires Reports(t, ClientsToTell(h, x, h[x].usedByList.Keys), reason, true, indirect)
    requires Reports(u, ServersToTell(h, x, h[x].useList - {x}), reason, false, indirect)
    ensures Disconnects(t + u, h, {x}, reason) && forall d :: d in t + u ==> d.indirect == indirect
  {
    var a, b := ClientsToTell(h, x, h[x].usedByList.Keys), ServersToTell(h, x, h[x].useList - {x});
    NotifiedOfOne(h, root, condemned, x);
    EnumeratesBoth(Pairs(t), a, Pairs(u), b);
    PairsBoth(t, u);
    ToldEnds(t, a);
    ToldEnds(u, b);
  }

  lemma ToldEnds(t: seq<DisconnectCall>, s: set<(Ptr, Ptr)>)
    requires Enumerates(Pairs(t), s)
    ensures forall d :: d in t ==> (d.client, d.server) in s
  {
    forall d | d in t ensures (d.client, d.server) in s {
      var i :| 0 <= i < |t| && t[i] == d;
      assert Pairs(t)[i] in Pairs(t);
    }
  }

  /** The objects of s were destroyed, with these calls. */
  ghost predicate Torn(h: Heap, h': Heap, s: set<Ptr>, dtors: seq<DtorCall>, calls: seq<DisconnectCall>, reason: int) {
    h' == Prune(h, s) && Closed(h, s) && Dtors(dtors, h, s, reason) && Disconnects(calls, h, s, reason)
  }

  /** An object without live children is destroyed once it is disconnected and freed. */
  lemma DetachedIsTorn(h: Heap, h1: Heap, h2: Heap, root: Ptr, condemned: set<Ptr>, x: Ptr,
                       t: seq<DisconnectCall>, u: seq<DisconnectCall>, reason: int, indirect: bool)
    requires GraphInv(h, root, condemned) && x in h && forall c :: c in h[x].children ==> c !in h
    requires ClientsGone(h, h1, x, h[x].usedByList.Keys, t, reason, indirect)
    requires ServersGone(h, h2, x, h[x].useList - {x}, u, reason, indirect)
    ensures Torn(h, h2 - {x}, {x}, [DtorCall(x, reason, indirect)], t + u, reason)
    ensures forall d :: d in t + u ==> d.indirect == indirect
    ensures h2.Keys == h.Keys && h2[x].owner == h[x].owner
  {
    DetachedIsPruned(h, root, condemned, x);
    BothEndsTold(h, root, condemned, x, t, u, reason, indirect);
    ChildlessIsClosed(h, root, condemned, x);
    assert Objects([DtorCall(x, reason, indirect)]) == [x];
  }

  lemma ChildlessIsClosed(h: Heap, root: Ptr, condemned: set<Ptr>, x: Ptr)
    requires GraphInv(h, root, condemned) && x in h && forall c :: c in h[x].children ==> c !in h
    ensures Closed(h, {x})
  {
    forall p | p in h ensures h[p].owner == x && h[x].generation < h[p].generation ==> p == x {
      assert Right(h, root, condemned, p);
    }
  }

  /** The elements of all are those done and the rest. */
  predicate Parted(all: set<Ptr>, done: set<Ptr>, rest: set<Ptr>) {
    done !! rest && done + rest == all
  }

  lemma PickOne(all: set<Ptr>, done: set<Ptr>, rest: set<Ptr>, x: Ptr)
    requires Parted(all, done, rest) && x in rest
    ensures x in all && x !in done && done <= all
    ensures Parted(all, done + {x}, rest - {x}) && rest - {x} < rest
  {
  }

  lemma Append<T>(a: seq<T>, b: seq<T>, c: seq<T>)
    ensures a + b + c == a + (b + c)
  {
  }

  lemma ObjectsBoth(t: seq<DtorCall>, u: seq<DtorCall>)
    ensures Objects(t + u) == Objects(t) + Objects(u)
  {
  }

  lemma PairsBoth(t: seq<DisconnectCall>, u: seq<DisconnectCall>)
    ensures Pairs(t + u) == Pairs(t) + Pairs(u)
  {
  }

  lemma EnumeratesBoth<T(!new)>(t: seq<T>, a: set<T>, u: seq<T>, b: set<T>)
    requires Enumerates(t, a) && Enumerates(u, b) && a !! b
    ensures Enumerates(t + u, a + b)
  {
    assert forall x :: x in t + u <==> x in t || x in u;
    assert |a + b| == |a| + |b|;
  }

  lemma {:induction false} ClosedUnder(h: Heap, s: set<Ptr>, a: Ptr, p: Ptr)
    requires Closed(h, s) && a in s && Under(h, p, {a})
    ensures p in s
    decreases h[p].generation
  {
    if p != a {
      ClosedUnder(h, s, a, h[p].owner);
    }
  }

  lemma ClosedBoth(h: Heap, a: set<Ptr>, b: set<Ptr>)
    requires Closed(h, a) && Closed(Prune(h, a), b)
    ensures Closed(h, a + b) && a !! b
  {
    var h' := Prune(h, a);
    forall p | p in h && h[p].owner in a + b && h[h[p].owner].generation < h[p].generation ensures p in a + b {
      assert p !in a ==> p in h' && h'[p].owner == h[p].owner;
    }
  }

  lemma DtorsBoth(t: seq<DtorCall>, u: seq<DtorCall>, h: Heap, a: set<Ptr>, b: set<Ptr>, reason: int)
    requires Closed(h, a) && Closed(Prune(h, a), b)
    requires Dtors(t, h, a, reason) && Dtors(u, Prune(h, a), b, reason)
    ensures Dtors(t + u, h, a + b, reason)
  {
    ClosedBoth(h, a, b);
    EnumeratesBoth(Objects(t), a, Objects(u), b);
    ObjectsBoth(t, u);
    OwnersLastBoth(h, Objects(t), Objects(u), a, b);
  }

  lemma OwnersLastBoth(h: Heap, t: seq<Ptr>, u: seq<Ptr>, a: set<Ptr>, b: set<Ptr>)
    requires Closed(h, a) && b <= Prune(h, a).Keys && Enumerates(t, a) && Enumerates(u, b)
    requires OwnersLast(h, t) && OwnersLast(Prune(h, a), u)
    ensures OwnersLast(h, t + u)
  {
    var n := |t|;
    forall i, j | 0 <= i < j < n + |u| ensures !Under(h, (t + u)[j], {(t + u)[i]}) {
      if j >= n {
        assert u[j - n] in u;
        if i >= n {
          UnderPruned(h, a, u[j - n], {u[i - n]});
        } else {
          assert t[i] in t;
          if Under(h, u[j - n], {t[i]}) {
            ClosedUnder(h, a, t[i], u[j - n]);
          }
        }
      }
    }
  }

  lemma NotifiedBoth(h: Heap, a: set<Ptr>, b: set<Ptr>)
    ensures Notified(h, a + b) == Notified(h, a) + Notified(Prune(h, a), b)
    ensures Notified(h, a) !! Notified(Prune(h, a), b)
  {
    var h' := Prune(h, a);
    assert forall c, d :: HasCallback(h', c, d) <==> HasCallback(h, c, d) && c !in a && d !in a;
  }

  lemma DisconnectsBoth(t: seq<DisconnectCall>, u: seq<DisconnectCall>, h: Heap, a: set<Ptr>, b: set<Ptr>, reason: int)
    requires Disconnects(t, h, a, reason) && Disconnects(u, Prune(h, a), b, reason)
    ensures Disconnects(t + u, h, a + b, reason)
  {
    NotifiedBoth(h, a, b);
    EnumeratesBoth(Pairs(t), Notified(h, a), Pairs(u), Notified(Prune(h, a), b));
    PairsBoth(t, u);
    forall d | d in t + u
      ensures d.reason == reason && (d.client !in a + b ==> d.unexpected) && (d.server !in a + b ==> !d.unexpected)
    {
      assert d in t || d in u;
    }
  }

  /** Destroying the objects of a and then those of b is destroying those of both. */
  lemma TornBoth(h: Heap, h1: Heap, h2: Heap, a: set<Ptr>, b: set<Ptr>, s: set<Ptr>, t: seq<DtorCall>,
                 u: seq<DtorCall>, v: seq<DisconnectCall>, w: seq<DisconnectCall>, reason: int)
    requires Torn(h, h1, a, t, v, reason) && Torn(h1, h2, b, u, w, reason) && s == a + b
    ensures Torn(h, h2, s, t + u, v + w, reason)
  {
    PruneTwice(h, a, b);
    ClosedBoth(h, a, b);
    DtorsBoth(t, u, h, a, b, reason);
    DisconnectsBoth(v, w, h, a, b, reason);
  }

  // ----- A whole subtree -----

  /** The condemned objects live, above x. */
  ghost predicate Above(h: Heap, condemned: set<Ptr>, x: Ptr) {
    x in h && x !in condemned && forall d :: d in condemned ==> d in h && h[d].generation < h[x].generation
  }

  lemma SubtreesBoth(h: Heap, a: set<Ptr>, b: set<Ptr>)
    ensures Subtrees(h, a + b) == Subtrees(h, a) + Subtrees(h, b)
  {
    forall p | p in h ensures Under(h, p, a + b) <==> Under(h, p, a) || Under(h, p, b) {
      UnderEither(h, p, a, b);
    }
  }

  lemma SubtreeOfChildren(h: Heap, root: Ptr, condemned: set<Ptr>, x: Ptr)
    requires GraphInv(h, root, condemned) && x in h
    ensures Subtrees(h, {x}) == Subtrees(h, h[x].children) + {x}
  {
    forall p | p in h ensures Under(h, p, {x}) <==> p == x || Under(h, p, h[x].children) {
      UnderIsBelow(h, root, condemned, p, x);
    }
  }

  lemma MoreCondemned(h: Heap, root: Ptr, condemned: set<Ptr>, more: set<Ptr>)
    requires GraphInv(h, root, condemned) && condemned <= more
    ensures GraphInv(h, root, more)
  {
    forall p | p in h ensures Right(h, root, more, p) {
      assert Right(h, root, condemned, p);
    }
  }

  /** The children of x live, above nothing else that is condemned. */
  lemma ChildrenOf(h: Heap, root: Ptr, condemned: set<Ptr>, x: Ptr)
    requires GraphInv(h, root, condemned) && x in h && x !in condemned
    ensures forall c :: c in h[x].children ==>
              c in h && c != root && h[c].owner == x && h[c].generation == h[x].generation + 1
  {
    assert Right(h, root, condemned, x);
    forall c | c in h[x].children ensures c in h && h[c].generation == h[x].generation + 1 {
      assert Right(h, root, condemned, c);
    }
  }

  /** While the children of x are destroyed one by one, the next is as it was. */
  lemma ChildReady(h: Heap, h': Heap, root: Ptr, condemned: set<Ptr>, x: Ptr, done: set<Ptr>, c: Ptr)
    requires GraphInv(h, root, condemned) && Above(h, condemned, x) && h' == Prune(h, Subtrees(h, done))
    requires done <= h[x].children && c in h[x].children && c !in done
    ensures c in h' && c != root && h'[c].owner == x && Above(h', condemned + {x}, c)
    ensures Subtrees(h', {c}) < Subtrees(h, {x})
  {
    ChildrenOf(h, root, condemned, x);
    SubtreesClosed(h, done);
    forall p | p in condemned + {x} + {c} ensures !Under(h, p, done) {
      if Under(h, p, done) {
        UnderIsLater(h, p, done, h[x].generation + 1);
        SiblingsApart(h, c, done, {c}, x);
      }
    }
    SubtreesPruned(h, Subtrees(h, done), {c});
    SubtreeOfChildren(h, root, condemned, x);
    SubtreesBoth(h, h[x].children - {c}, {c});
    assert h[x].children - {c} + {c} == h[x].children;
    if Under(h, x, {c}) {
      UnderIsLater(h, x, {c}, h[c].generation);
    }
  }

  /** The children done are destroyed with all they own, as a consequence of their owner's end. */
  ghost predicate ChildrenTorn(h: Heap, h': Heap, done: set<Ptr>, dtors: seq<DtorCall>, calls: seq<DisconnectCall>,
                               reason: int) {
    && Torn(h, h', Subtrees(h, done), dtors, calls, reason)
    && (forall d :: d in dtors ==> d.indirect) && (forall d :: d in calls ==> d.indirect)
  }

  lemma ChildTorn(h: Heap, h1: Heap, h2: Heap, done: set<Ptr>, c: Ptr, t: seq<DtorCall>, u: seq<DtorCall>,
                  v: seq<DisconnectCall>, w: seq<DisconnectCall>, reason: int)
    requires ChildrenTorn(h, h1, done, t, v, reason) && ChildrenTorn(h1, h2, {c}, u, w, reason)
    ensures ChildrenTorn(h, h2, done + {c}, t + u, v + w, reason)
  {
    SubtreesStep(h, done, c);
    TornBoth(h, h1, h2, Subtrees(h, done), Subtrees(h1, {c}), Subtrees(h, done + {c}), t, u, v, w, reason);
  }

  lemma SubtreesStep(h: Heap, done: set<Ptr>, c: Ptr)
    ensures Subtrees(h, done + {c}) == Subtrees(h, done) + Subtrees(Prune(h, Subtrees(h, done)), {c})
  {
    SubtreesClosed(h, done);
    SubtreesPruned(h, Subtrees(h, done), {c});
    SubtreesBoth(h, done, {c});
  }

  lemma NothingTorn(h: Heap, reason: int)
    ensures ChildrenTorn(h, h, {}, [], [], reason)
  {
    forall p ensures !Under(h, p, {}) {
      UnderNothing(h, p);
    }
    forall p | p in h ensures Cut(h[p], {}) == h[p] {
      assert h[p].useList - {} == h[p].useList && h[p].usedByList - {} == h[p].usedByList;
    }
    assert Subtrees(h, {}) == {};
    assert Prune(h, {}) == h;
    assert Notified(h, {}) == {};
  }

  lemma {:induction false} UnderNothing(h: Heap, p: Ptr)
    ensures !Under(h, p, {})
    decreases if p in h then h[p].generation else 0
  {
    if p in h && h[p].owner in h && h[h[p].owner].generation < h[p].generation {
      UnderNothing(h, h[p].owner);
    }
  }

  /** x is destroyed with all that it owns: what is left, and what has been told. */
  ghost predicate TornDown(h: Heap, h': Heap, x: Ptr, dtors: seq<DtorCall>, calls: seq<DisconnectCall>, reason: int)
    requires x in h && h[x].owner in h
  {
    && h' == Destroyed(h, x)
    && Dtors(dtors, h, Subtrees(h, {x}), reason) && Disconnects(calls, h, Subtrees(h, {x}), reason)
    && (forall d :: d in dtors ==> (d.indirect <==> d.target != x))
    && (forall d :: d in calls ==>
          (d.indirect <==> d.client in Subtrees(h, h[x].children) || d.server in Subtrees(h, h[x].children)))
  }

  /** The end of x after that of its children. */
  lemma OwnerTorn(h: Heap, h1: Heap, root: Ptr, condemned: set<Ptr>, x: Ptr, indirect: bool,
                  t: seq<DtorCall>, v: seq<DisconnectCall>, w: seq<DisconnectCall>, reason: int)
    requires GraphInv(h, root, condemned) && x in h && x !in condemned && x != root
    requires ChildrenTorn(h, h1, h[x].children, t, v, reason)
    requires Torn(h1, Prune(h1, {x}), {x}, [DtorCall(x, reason, indirect)], w, reason)
    requires forall d :: d in w ==> d.indirect == indirect
    ensures Torn(h, Prune(h1, {x}), Subtrees(h, {x}), t + [DtorCall(x, reason, indirect)], v + w, reason)
    ensures indirect ==> ChildrenTorn(h, Prune(h1, {x}), {x}, t + [DtorCall(x, reason, indirect)], v + w, reason)
  {
    SubtreeOfChildren(h, root, condemned, x);
    TornBoth(h, h1, Prune(h1, {x}), Subtrees(h, h[x].children), {x}, Subtrees(h, {x}),
             t, [DtorCall(x, reason, indirect)], v, w, reason);
  }

  lemma TornIsTornDown(h: Heap, h1: Heap, root: Ptr, x: Ptr, t: seq<DtorCall>, v: seq<DisconnectCall>,
                       w: seq<DisconnectCall>, reason: int)
    requires GraphInv(h, root, {}) && x in h && x != root
    requires ChildrenTorn(h, h1, h[x].children, t, v, reason)
    requires Torn(h1, Prune(h1, {x}), {x}, [DtorCall(x, reason, false)], w, reason)
    requires forall d :: d in w ==> !d.indirect
    ensures h[x].owner in Prune(h1, {x})
    ensures TornDown(h, Forget(Prune(h1, {x}), h[x].owner, x), x, t + [DtorCall(x, reason, false)], v + w, reason)
  {
    OwnerTorn(h, h1, root, {}, x, false, t, v, w, reason);
    OnlyRootOfSubtree(h, root, {}, x);
    DestroyedSplits(h, x);
    OwnerLater(h, h1, x, t, v, reason);
    ChildrenCalls(h, h1, root, x, t, v, w, reason);
  }

  lemma OwnerLater(h: Heap, h1: Heap, x: Ptr, t: seq<DtorCall>, v: seq<DisconnectCall>, reason: int)
    requires x in h && ChildrenTorn(h, h1, h[x].children, t, v, reason) && x !in Subtrees(h, h[x].children)
    ensures forall d :: d in t + [DtorCall(x, reason, false)] ==> (d.indirect <==> d.target != x)
  {
    forall d | d in t ensures d.target != x {
      var i :| 0 <= i < |t| && t[i] == d;
      assert Objects(t)[i] in Objects(t);
    }
  }

  lemma ChildrenCalls(h: Heap, h1: Heap, root: Ptr, x: Ptr, t: seq<DtorCall>, v: seq<DisconnectCall>,
                      w: seq<DisconnectCall>, reason: int)
    requires GraphInv(h, root, {}) && x in h && ChildrenTorn(h, h1, h[x].children, t, v, reason)
    requires Disconnects(w, h1, {x}, reason) && forall d :: d in w ==> !d.indirect
    ensures forall d :: d in v + w ==>
              (d.indirect <==> d.client in Subtrees(h, h[x].children) || d.server in Subtrees(h, h[x].children))
  {
    ToldEnds(v, Notified(h, Subtrees(h, h[x].children)));
    ToldEnds(w, Notified(h1, {x}));
  }

  /** After the children of x are gone, x itself is as it was but for them. */
  lemma Bereft(h: Heap, h1: Heap, root: Ptr, condemned: set<Ptr>, x: Ptr, t: seq<DtorCall>, v: seq<DisconnectCall>,
               reason: int)
    requires GraphInv(h, root, condemned) && Above(h, condemned, x) && x != root
    requires ChildrenTorn(h, h1, h[x].children, t, v, reason)
    ensures x in h1 && (forall c :: c in h1[x].children ==> c !in h1)
    ensures h1[x].owner == h[x].owner && h[x].owner in h1 && h[x].owner != x
  {
    ChildrenOf(h, root, condemned, x);
    assert Right(h, root, condemned, x);
    assert forall c :: c in h[x].children ==> Under(h, c, h[x].children);
    forall p | p in {x, h[x].owner} ensures !Under(h, p, h[x].children) {
      if Under(h, p, h[x].children) {
        UnderIsLater(h, p, h[x].children, h[x].generation + 1);
      }
    }
  }

  /** Once x is gone with all it owned, the tree is whole but for the children of the condemned. */
  lemma IndirectKeeps(h: Heap, root: Ptr, condemned: set<Ptr>, x: Ptr)
    requires GraphInv(h, root, condemned) && x in h && x != root && h[x].owner in condemned
    ensures GraphInv(Prune(h, Subtrees(h, {x})), root, condemned)
  {
    SubtreesClosed(h, {x});
    OnlyRootOfSubtree(h, root, condemned, x);
    PruneKeeps(h, root, condemned, Subtrees(h, {x}), condemned);
  }
}
