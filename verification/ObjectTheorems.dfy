/**
 What holds of the object manager over whole runs of registering, connecting and destroying.
 */
module ObjectTheorems {
  import opened ObjectGraph

  // ----- Registering and connecting -----

  function Registered(h: Heap, owner: Ptr, address: Ptr, shared: bool): Heap
    requires owner in h
  {
    var parent := h[owner];
    h[owner := parent.(children := parent.children + {address})]
     [address := Descriptor(owner, parent.generation + 1, 1, shared, {}, map[], {})]
  }

  function WithServer(h: Heap, client: Ptr, server: Ptr): Heap
    requires client in h
  {
    h[client := h[client].(useList := h[client].useList + {server})]
  }

  function WithClient(h: Heap, client: Ptr, server: Ptr, callback: bool): Heap
    requires server in h
  {
    h[server := h[server].(usedByList := h[server].usedByList[client := Connection(client, server, callback)])]
  }

  /** A connection is entered at both ends, unless it is there already. */
  function Linked(h: Heap, client: Ptr, server: Ptr, callback: bool): Heap
    requires client in h && server in h
  {
    if server in h[client].useList then h else WithClient(WithServer(h, client, server), client, server, callback)
  }

  lemma RegisteredKeeps(h: Heap, root: Ptr, owner: Ptr, address: Ptr, shared: bool)
    requires GraphInv(h, root, {}) && owner in h && address !in h
    ensures GraphInv(Registered(h, owner, address, shared), root, {})
  {
    var h' := Registered(h, owner, address, shared);
    forall p | p in h' ensures Right(h', root, {}, p) {
      assert Right(h, root, {}, owner);
      assert p != address ==> Right(h, root, {}, p);
    }
  }

  lemma LinkedKeeps(h: Heap, root: Ptr, client: Ptr, server: Ptr, callback: bool)
    requires GraphInv(h, root, {}) && client in h && server in h
    ensures GraphInv(Linked(h, client, server, callback), root, {})
  {
    var h' := Linked(h, client, server, callback);
    if server !in h[client].useList {
      forall p | p in h' ensures Right(h', root, {}, p) {
        assert Right(h, root, {}, p);
      }
    }
  }

  // ----- What registering comes to -----

  /** The heap h2 is h with a new object of the given owner. */
  ghost predicate NewObject(h: Heap, h2: Heap, owner: Ptr, address: Ptr, shared: bool)
    requires owner in h
  {
    && h2.Keys == h.Keys + {address}
    && (var d := h2[address];
        && d.owner == owner && d.generation == h[owner].generation + 1 && d.refCount == 1 && d.shared == shared
        && d.children == {} && d.useList == {} && |d.usedByList| == 0)
    && h2[owner].children == h[owner].children + {address}
    && (forall p :: p in h ==> SameButLists(h[p], h2[p]) && h2[p].useList == h[p].useList && h2[p].usedByList == h[p].usedByList)
    && (forall p :: p in h && p != owner ==> h2[p].children == h[p].children)
  }

  /** The descriptors agree, but for what they own and are connected with. */
  predicate SameButLists(d: Descriptor, e: Descriptor) {
    d.owner == e.owner && d.generation == e.generation && d.refCount == e.refCount && d.shared == e.shared
  }

  lemma RegisteredIsNew(h: Heap, owner: Ptr, address: Ptr, shared: bool)
    requires owner in h && address !in h
    ensures NewObject(h, Registered(h, owner, address, shared), owner, address, shared)
  {
  }

  /** A new object is under whatever its owner is under, and the others are where they were. */
  lemma NewIsUnder(h: Heap, h2: Heap, root: Ptr, owner: Ptr, address: Ptr, shared: bool, x: Ptr)
    requires GraphInv(h, root, {}) && owner in h && address !in h && x in h
    requires NewObject(h, h2, owner, address, shared)
    ensures Under(h2, address, {x}) <==> Under(h, owner, {x})
    ensures forall p :: p in h ==> (Under(h2, p, {x}) <==> Under(h, p, {x}))
  {
    forall p | p in h ensures Under(h2, p, {x}) <==> Under(h, p, {x}) {
      StillUnder(h, h2, root, owner, address, shared, p, x);
    }
  }

  lemma {:induction false} StillUnder(h: Heap, h2: Heap, root: Ptr, owner: Ptr, address: Ptr, shared: bool, p: Ptr, x: Ptr)
    requires GraphInv(h, root, {}) && owner in h && address !in h && p in h && x in h
    requires NewObject(h, h2, owner, address, shared)
    ensures Under(h2, p, {x}) <==> Under(h, p, {x})
    decreases h[p].generation
  {
    assert Right(h, root, {}, p);
    if p != x && h[p].owner in h && h[h[p].owner].generation < h[p].generation {
      StillUnder(h, h2, root, owner, address, shared, h[p].owner, x);
    }
  }

  /** So destroying the owner, or anything above it, destroys the new object, and destroying anything else does not. */
  lemma NewGoesWithOwner(h: Heap, h2: Heap, root: Ptr, owner: Ptr, address: Ptr, shared: bool, x: Ptr)
    requires GraphInv(h, root, {}) && owner in h && address !in h && x in h && x != root
    requires NewObject(h, h2, owner, address, shared) && GraphInv(h2, root, {})
    ensures h2[x].owner in h2 && (address in Destroyed(h2, x) <==> !Under(h, owner, {x}))
  {
    assert Right(h2, root, {}, x);
    NewIsUnder(h, h2, root, owner, address, shared, x);
  }

  // ----- What connecting comes to -----

  /** The heap h2 is h with a new connection, entered at both ends. */
  ghost predicate NewConnection(h: Heap, h2: Heap, client: Ptr, server: Ptr, callback: bool)
    requires client in h && server in h
  {
    && h2.Keys == h.Keys
    && server in h2[client].useList && client in h2[server].usedByList
    && h2[server].usedByList[client] == Connection(client, server, callback)
    && (forall p :: p in h ==> SameButLists(h[p], h2[p]) && h2[p].children == h[p].children)
    && (forall p, q :: p in h && (p != client || q != server) ==> (q in h2[p].useList <==> q in h[p].useList))
    && (forall p, q :: p in h && (p != server || q != client) ==>
          (q in h2[p].usedByList <==> q in h[p].usedByList)
          && (q in h[p].usedByList ==> h2[p].usedByList[q] == h[p].usedByList[q]))
  }

  lemma LinkedIsNew(h: Heap, root: Ptr, client: Ptr, server: Ptr, callback: bool)
    requires GraphInv(h, root, {}) && client in h && server in h
    ensures var h2 := Linked(h, client, server, callback);
            if server in h[client].useList then h2 == h else NewConnection(h, h2, client, server, callback)
  {
  }

  /** When an end of a new connection is destroyed, it is reported exactly if it has a callback. */
  lemma NewConnectionReported(h: Heap, h2: Heap, client: Ptr, server: Ptr, callback: bool, x: Ptr, s: set<Ptr>,
                              calls: seq<DisconnectCall>, reason: int)
    requires client in h && server in h && NewConnection(h, h2, client, server, callback)
    requires (client in s || server in s) && Disconnects(calls, h2, s, reason)
    ensures callback <==> exists d :: d in calls && d.client == client && d.server == server
  {
    assert (client, server) in Notified(h2, s) <==> callback;
    assert (client, server) in Pairs(calls) <==> callback;
    if callback {
      var i :| 0 <= i < |calls| && Pairs(calls)[i] == (client, server);
      assert calls[i] in calls;
    }
    if d :| d in calls && d.client == client && d.server == server {
      var i :| 0 <= i < |calls| && calls[i] == d;
      assert Pairs(calls)[i] == (client, server);
    }
  }

  // ----- Runs -----

  datatype Op =
    | Register(owner: Ptr, address: Ptr, shared: bool)
    | Connect(client: Ptr, server: Ptr, callback: bool)
    | ForceDestroy(target: Ptr)

  /** What the manager demands of its callers, and of the allocator of descriptors. */
  predicate Enabled(h: Heap, root: Ptr, op: Op) {
    match op
    case Register(owner, address, _) => owner in h && address !in h
    case Connect(client, server, _) => client in h && server in h
    case ForceDestroy(x) => x in h && x != root && h[x].owner in h
  }

  function Apply(h: Heap, root: Ptr, op: Op): Heap
    requires Enabled(h, root, op)
  {
    match op
    case Register(owner, address, shared) => Registered(h, owner, address, shared)
    case Connect(client, server, callback) => Linked(h, client, server, callback)
    case ForceDestroy(x) => Destroyed(h, x)
  }

  predicate IsRun(h: Heap, root: Ptr, ops: seq<Op>)
    decreases ops
  {
    ops != [] ==> Enabled(h, root, ops[0]) && IsRun(Apply(h, root, ops[0]), root, ops[1..])
  }

  function After(h: Heap, root: Ptr, ops: seq<Op>): Heap
    requires IsRun(h, root, ops)
    decreases ops
  {
    if ops == [] then h else After(Apply(h, root, ops[0]), root, ops[1..])
  }

  /** Over every run the objects stay a tree under the root, connected at both ends. */
  lemma {:induction false} RunKeeps(h: Heap, root: Ptr, ops: seq<Op>)
    requires GraphInv(h, root, {}) && IsRun(h, root, ops)
    ensures GraphInv(After(h, root, ops), root, {})
    decreases ops
  {
    if ops != [] {
      match ops[0] {
        case Register(owner, address, shared) => RegisteredKeeps(h, root, owner, address, shared);
        case Connect(client, server, callback) => LinkedKeeps(h, root, client, server, callback);
        case ForceDestroy(x) => DestroyedKeeps(h, root, x);
      }
      RunKeeps(Apply(h, root, ops[0]), root, ops[1..]);
    }
  }

  // ----- The tree -----

  /** The owner of the owner ... of p, n times. */
  function Ancestor(h: Heap, p: Ptr, n: nat): Ptr
    decreases n
  {
    if n == 0 || p !in h then p else Ancestor(h, h[p].owner, n - 1)
  }

  /** The generation of an object is its depth under the root. */
  lemma {:induction false} GenerationIsDepth(h: Heap, root: Ptr, p: Ptr, n: nat)
    requires GraphInv(h, root, {}) && p in h && n <= h[p].generation
    ensures Ancestor(h, p, n) == root <==> n == h[p].generation
    decreases n
  {
    assert Right(h, root, {}, p);
    if n > 0 {
      GenerationIsDepth(h, root, h[p].owner, n - 1);
    }
  }

  /** An object is under x exactly when x is one of its ancestors: every ancestor has it below ... */
  lemma {:induction false} UnderAncestor(h: Heap, root: Ptr, p: Ptr, n: nat)
    requires GraphInv(h, root, {}) && p in h && n <= h[p].generation
    ensures Under(h, p, {Ancestor(h, p, n)})
    decreases n
  {
    assert Right(h, root, {}, p);
    if n > 0 {
      UnderAncestor(h, root, h[p].owner, n - 1);
    }
  }

  /** ... and whatever has it below is an ancestor. */
  lemma {:induction false} AncestorAbove(h: Heap, p: Ptr, x: Ptr) returns (n: nat)
    requires Under(h, p, {x})
    ensures n <= h[p].generation && Ancestor(h, p, n) == x
    decreases h[p].generation
  {
    if p == x {
      n := 0;
    } else {
      n := AncestorAbove(h, h[p].owner, x);
      n := n + 1;
    }
  }

  // ----- Destroying -----

  /** Of the destroyed objects nothing is left, not even in the lists of those that live. */
  lemma NothingLeft(h: Heap, root: Ptr, x: Ptr, p: Ptr, q: Ptr)
    requires GraphInv(h, root, {}) && x in h && x != root && h[x].owner in h
    requires p in Destroyed(h, x) && Under(h, q, {x})
    ensures q !in Destroyed(h, x)
    ensures var d := Destroyed(h, x)[p]; q !in d.children && q !in d.useList && q !in d.usedByList
  {
    DestroyedKeeps(h, root, x);
    assert Right(Destroyed(h, x), root, {}, p);
  }

  /** The others live on, with the same owner and their other connections. */
  lemma OthersStay(h: Heap, root: Ptr, x: Ptr, p: Ptr)
    requires GraphInv(h, root, {}) && x in h && x != root && h[x].owner in h
    requires p in h && !Under(h, p, {x})
    ensures p in Destroyed(h, x)
    ensures var d := Destroyed(h, x)[p];
            && SameButLists(h[p], d)
            && (forall q :: q in d.children <==> q in h[p].children && !Under(h, q, {x}))
            && (forall q :: q in d.useList <==> q in h[p].useList && !Under(h, q, {x}))
            && (forall q :: q in d.usedByList <==> q in h[p].usedByList && !Under(h, q, {x}))
            && (forall q :: q in d.usedByList ==> d.usedByList[q] == h[p].usedByList[q])
  {
    DestroyedKeeps(h, root, x);
    OnlyRootOfSubtree(h, root, {}, x);
    assert Right(h, root, {}, p) && Right(h, root, {}, x);
    forall q | q in h[p].children ensures Under(h, q, {x}) ==> q == x {
      assert Right(h, root, {}, q);
    }
  }

  /** Destroying a new object undoes its registration. */
  lemma DestroyUndoesRegister(h: Heap, root: Ptr, owner: Ptr, address: Ptr, shared: bool)
    requires GraphInv(h, root, {}) && owner in h && address !in h
    ensures Destroyed(Registered(h, owner, address, shared), address) == h
  {
    var h1 := Registered(h, owner, address, shared);
    assert Right(h, root, {}, owner);
    RegisteredKeeps(h, root, owner, address, shared);
    SubtreeOfChildren(h1, root, {}, address);
    NothingUnder(h1);
    assert Subtrees(h1, {address}) == {address};
    forall p | p in h ensures Cut(h[p], {address}) == h[p] {
      assert Right(h, root, {}, p);
      assert h[p].useList - {address} == h[p].useList && h[p].usedByList - {address} == h[p].usedByList;
    }
    assert h[owner].children + {address} - {address} == h[owner].children;
  }

  lemma NothingUnder(h: Heap)
    ensures Subtrees(h, {}) == {}
  {
    forall p ensures !Under(h, p, {}) {
      UnderNothing(h, p);
    }
  }

  /** A connection makes no difference to what is left when one of its ends is destroyed. */
  lemma DestroyUndoesConnect(h: Heap, root: Ptr, client: Ptr, server: Ptr, callback: bool, x: Ptr)
    requires GraphInv(h, root, {}) && client in h && server in h
    requires x in h && x != root && h[x].owner in h && (Under(h, client, {x}) || Under(h, server, {x}))
    ensures Destroyed(Linked(h, client, server, callback), x) == Destroyed(h, x)
  {
    var h1 := Linked(h, client, server, callback);
    SameSubtrees(h, h1, {x});
    LinkedPruned(h, client, server, callback, Subtrees(h, {x}));
    OnlyRootOfSubtree(h, root, {}, x);
    DestroyedSplits(h, x);
    DestroyedSplits(h1, x);
  }

  lemma LinkedPruned(h: Heap, client: Ptr, server: Ptr, callback: bool, s: set<Ptr>)
    requires client in h && server in h && (client in s || server in s)
    ensures Prune(Linked(h, client, server, callback), s) == Prune(h, s)
  {
    forall p | p in h && p !in s ensures Cut(Linked(h, client, server, callback)[p], s) == Cut(h[p], s) {
      LinkedElsewhere(h, client, server, callback, s, p);
    }
  }

  lemma LinkedElsewhere(h: Heap, client: Ptr, server: Ptr, callback: bool, s: set<Ptr>, p: Ptr)
    requires client in h && server in h && p in h && p !in s && (client in s || server in s)
    ensures Cut(Linked(h, client, server, callback)[p], s) == Cut(h[p], s)
  {
    var d := Linked(h, client, server, callback)[p];
    assert d.useList - s == h[p].useList - s;
    assert d.usedByList - s == h[p].usedByList - s;
  }

  lemma SameSubtrees(h: Heap, h': Heap, roots: set<Ptr>)
    requires h.Keys == h'.Keys
    requires forall p :: p in h ==> h[p].owner == h'[p].owner && h[p].generation == h'[p].generation
    ensures Subtrees(h, roots) == Subtrees(h', roots)
  {
    forall p | p in h ensures Under(h, p, roots) <==> Under(h', p, roots) {
      SameUnder(h, h', p, roots);
    }
  }

  lemma {:induction false} SameUnder(h: Heap, h': Heap, p: Ptr, roots: set<Ptr>)
    requires h.Keys == h'.Keys && p in h
    requires forall p :: p in h ==> h[p].owner == h'[p].owner && h[p].generation == h'[p].generation
    ensures Under(h, p, roots) <==> Under(h', p, roots)
    decreases h[p].generation
  {
    if h[p].owner in h && h[h[p].owner].generation < h[p].generation {
      SameUnder(h, h', h[p].owner, roots);
    }
  }
}
