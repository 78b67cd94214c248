/**
 The object manager: objects own one another in a tree, clients are connected with servers, and
 an object is destroyed together with all that it owns.
 */
module ObjectManager {
  import opened ObjectGraph
  import opened ObjectTheorems

  datatype Option<T> = None | Some(value: T)

  class Manager {
    var heap: Heap  // the live descriptors by address
    const root: Ptr
    var anonymousObjects: set<Ptr>
    var totalObjectCount: nat
    var dtorCalls: seq<DtorCall>  // the calls made so far
    var disconnectCalls: seq<DisconnectCall>

    predicate Counted()
      reads this
    {
      anonymousObjects == heap.Keys - {root} && totalObjectCount == |anonymousObjects|
    }

    ghost predicate Valid()
      reads this
    {
      GraphInv(heap, root, {}) && Counted()
    }

    constructor (address: Ptr)
      ensures Valid() && root == address && totalObjectCount == 0
      ensures heap == map[address := Descriptor(address, 0, 1, false, {}, map[], {})]
      ensures dtorCalls == [] && disconnectCalls == []
    {
      root := address;
      heap := map[address := Descriptor(address, 0, 1, false, {}, map[], {})];
      anonymousObjects, totalObjectCount := {}, 0;
      dtorCalls, disconnectCalls := [], [];
      new;
      assert Right(heap, root, {}, root);
    }

    /** Calls the destructor callback and frees the descriptor. */
    method DoDestroyObject(desc: Ptr, reason: int, indirect: bool)
      requires Counted() && desc in heap && desc != root
      modifies `heap, `anonymousObjects, `totalObjectCount, `dtorCalls
      ensures Counted() && heap == old(heap) - {desc} && totalObjectCount == old(totalObjectCount) - 1
      ensures dtorCalls == old(dtorCalls) + [DtorCall(desc, reason, indirect)]
    {
      dtorCalls := dtorCalls + [DtorCall(desc, reason, indirect)];
      assert desc in anonymousObjects;
      anonymousObjects := anonymousObjects - {desc};
      heap := heap - {desc};
      totalObjectCount := totalObjectCount - 1;
    }

    /** Tells the client of a connection, if it wants to know, that it ends. */
    method DoDisconnect(connection: Connection, reason: int, unexpected: bool, indirect: bool)
      returns (ghost calls: seq<DisconnectCall>)
      modifies `disconnectCalls
      ensures disconnectCalls == old(disconnectCalls) + calls
      ensures calls == if connection.callback
                       then [DisconnectCall(connection.client, connection.server, reason, unexpected, indirect)] else []
    {
      calls := [];
      if connection.callback {
        calls := [DisconnectCall(connection.client, connection.server, reason, unexpected, indirect)];
        disconnectCalls :=
          disconnectCalls + [DisconnectCall(connection.client, connection.server, reason, unexpected, indirect)];
      }
    }

    /** Ends a connection from the server's side. */
    method DoDisconnectServer(connection: Connection, reason: int, indirect: bool)
      returns (ghost calls: seq<DisconnectCall>)
      requires connection.client in heap
      modifies `heap, `disconnectCalls
      ensures disconnectCalls == old(disconnectCalls) + calls
      ensures calls == if connection.callback
                       then [DisconnectCall(connection.client, connection.server, reason, true, indirect)] else []
      ensures var client := old(heap)[connection.client];
              heap == old(heap)[connection.client := client.(useList := client.useList - {connection.server})]
    {
      calls := DoDisconnect(connection, reason, true, indirect);
      var client := heap[connection.client];
      heap := heap[connection.client := client.(useList := client.useList - {connection.server})];
    }

    /** Ends a connection from the client's side; would destroy a server without references. */
    method DoDisconnectClient(client: Ptr, server: Ptr, reason: int, indirect: bool)
      returns (ghost calls: seq<DisconnectCall>)
      requires server in heap && client in heap[server].usedByList && heap[server].refCount == 1
      requires var connection := heap[server].usedByList[client];
               connection.client == client && connection.server == server
      modifies `heap, `disconnectCalls
      ensures disconnectCalls == old(disconnectCalls) + calls
      ensures calls == if old(heap)[server].usedByList[client].callback
                       then [DisconnectCall(client, server, reason, false, indirect)] else []
      ensures var desc := old(heap)[server];
              heap == old(heap)[server := desc.(usedByList := desc.usedByList - {client})]
    {
      calls := DoDisconnect(heap[server].usedByList[client], reason, false, indirect);
      var desc := heap[server];
      heap := heap[server := desc.(usedByList := desc.usedByList - {client})];
      if heap[server].usedByList == map[] && heap[server].refCount == 0 {
        assert false;  // every object has a reference
      }
    }

    method EndUse(obj: Ptr, client: Ptr, reason: int, indirect: bool, ghost h: Heap, ghost condemned: set<Ptr>,
                  ghost done: set<Ptr>, ghost log: seq<DisconnectCall>, ghost calls: seq<DisconnectCall>)
      returns (ghost calls': seq<DisconnectCall>)
      requires GraphInv(h, root, condemned) && obj in h && ClientsGone(h, heap, obj, done, calls, reason, indirect)
      requires client in h[obj].usedByList && client !in done && disconnectCalls == log + calls
      modifies `heap, `disconnectCalls
      ensures ClientsGone(h, heap, obj, done + {client}, calls', reason, indirect) && disconnectCalls == log + calls'
    {
      ClientGoes(h, heap, root, condemned, obj, done, client, calls, reason, indirect);
      var connection := heap[obj].usedByList[client];
      assert connection.client == client && connection.server == obj;
      var more := DoDisconnectServer(connection, reason, indirect);
      Append(log, calls, more);
      calls' := calls + more;
    }

    /** Ends all the connections with obj as server. */
    method DisconnectClients(obj: Ptr, reason: int, indirect: bool, ghost condemned: set<Ptr>)
      returns (ghost calls: seq<DisconnectCall>)
      requires GraphInv(heap, root, condemned) && obj in heap
      modifies `heap, `disconnectCalls
      ensures disconnectCalls == old(disconnectCalls) + calls
      ensures ClientsGone(old(heap), heap, obj, old(heap)[obj].usedByList.Keys, calls, reason, indirect)
    {
      calls := [];
      ghost var h, log, done := heap, disconnectCalls, {};
      NoneGone(h, obj, reason, indirect);
      var rest := heap[obj].usedByList.Keys;
      while rest != {}
        invariant Parted(h[obj].usedByList.Keys, done, rest)
        invariant ClientsGone(h, heap, obj, done, calls, reason, indirect) && disconnectCalls == log + calls
        decreases rest
      {
        var client :| client in rest;
        PickOne(h[obj].usedByList.Keys, done, rest, client);
        calls := EndUse(obj, client, reason, indirect, h, condemned, done, log, calls);
        done, rest := done + {client}, rest - {client};
      }
    }

    method EndService(obj: Ptr, server: Ptr, reason: int, indirect: bool, ghost h: Heap, ghost condemned: set<Ptr>,
                      ghost done: set<Ptr>, ghost log: seq<DisconnectCall>, ghost calls: seq<DisconnectCall>)
      returns (ghost calls': seq<DisconnectCall>)
      requires GraphInv(h, root, condemned) && obj in h && ServersGone(h, heap, obj, done, calls, reason, indirect)
      requires server in h[obj].useList && server != obj && server !in done && disconnectCalls == log + calls
      modifies `heap, `disconnectCalls
      ensures ServersGone(h, heap, obj, done + {server}, calls', reason, indirect) && disconnectCalls == log + calls'
    {
      ServerGoes(h, heap, root, condemned, obj, done, server, calls, reason, indirect);
      var more := DoDisconnectClient(obj, server, reason, indirect);
      Append(log, calls, more);
      calls' := calls + more;
    }

    /** Ends all the connections with obj as client; h is the heap before any of its connections ended. */
    method DisconnectServers(obj: Ptr, reason: int, indirect: bool, ghost h: Heap, ghost condemned: set<Ptr>)
      returns (ghost calls: seq<DisconnectCall>)
      requires GraphInv(h, root, condemned) && obj in h && ServersGone(h, heap, obj, {}, [], reason, indirect)
      requires obj in heap && heap[obj].useList == h[obj].useList - {obj}
      modifies `heap, `disconnectCalls
      ensures disconnectCalls == old(disconnectCalls) + calls
      ensures ServersGone(h, heap, obj, old(heap)[obj].useList, calls, reason, indirect)
    {
      calls := [];
      var rest := heap[obj].useList;
      ghost var log, servers, done := disconnectCalls, rest, {};
      while rest != {}
        invariant Parted(servers, done, rest)
        invariant ServersGone(h, heap, obj, done, calls, reason, indirect) && disconnectCalls == log + calls
        decreases rest
      {
        var server :| server in rest;
        PickOne(servers, done, rest, server);
        calls := EndService(obj, server, reason, indirect, h, condemned, done, log, calls);
        done, rest := done + {server}, rest - {server};
      }
    }

    /** What has been done since the logs were d and c, and there were n objects. */
    ghost predicate Logged(d: seq<DtorCall>, c: seq<DisconnectCall>, n: nat,
                           dtors: seq<DtorCall>, calls: seq<DisconnectCall>)
      reads this
    {
      Counted() && dtorCalls == d + dtors && disconnectCalls == c + calls && totalObjectCount == n - |dtors|
    }

    /** Where the destruction of the children of obj stands. */
    ghost predicate ChildrenGone(obj: Ptr, condemned: set<Ptr>, h: Heap, done: set<Ptr>, reason: int,
                                 d: seq<DtorCall>, c: seq<DisconnectCall>, n: nat,
                                 dtors: seq<DtorCall>, calls: seq<DisconnectCall>)
      reads this
    {
      && ChildrenTorn(h, heap, done, dtors, calls, reason)
      && GraphInv(heap, root, condemned + {obj}) && Logged(d, c, n, dtors, calls)
    }

    method DestroyChild(obj: Ptr, child: Ptr, reason: int, ghost condemned: set<Ptr>, ghost h: Heap, ghost done: set<Ptr>,
                        ghost d: seq<DtorCall>, ghost c: seq<DisconnectCall>, ghost n: nat,
                        ghost dtors: seq<DtorCall>, ghost calls: seq<DisconnectCall>)
      returns (ghost dtors': seq<DtorCall>, ghost calls': seq<DisconnectCall>)
      requires GraphInv(h, root, condemned) && Above(h, condemned, obj)
      requires child in h[obj].children && child !in done && done <= h[obj].children
      requires ChildrenGone(obj, condemned, h, done, reason, d, c, n, dtors, calls)
      modifies `heap, `anonymousObjects, `totalObjectCount, `dtorCalls, `disconnectCalls
      ensures ChildrenGone(obj, condemned, h, done + {child}, reason, d, c, n, dtors', calls')
      decreases Subtrees(h, {obj}), 0
    {
      ChildReady(h, heap, root, condemned, obj, done, child);
      assert heap[child].owner == obj;
      ghost var h1 := heap;
      var t, v := DoForceDestroy(child, reason, true, condemned + {obj});
      ChildTorn(h, h1, heap, done, child, dtors, t, calls, v, reason);
      Append(d, dtors, t);
      Append(c, calls, v);
      dtors', calls' := dtors + t, calls + v;
    }

    /** Destroys everything that obj owns. */
    method DestroyChildren(obj: Ptr, reason: int, ghost condemned: set<Ptr>)
      returns (ghost dtors: seq<DtorCall>, ghost calls: seq<DisconnectCall>)
      requires GraphInv(heap, root, condemned) && Counted() && Above(heap, condemned, obj)
      modifies `heap, `anonymousObjects, `totalObjectCount, `dtorCalls, `disconnectCalls
      ensures ChildrenGone(obj, condemned, old(heap), old(heap)[obj].children, reason,
                           old(dtorCalls), old(disconnectCalls), old(totalObjectCount), dtors, calls)
      decreases Subtrees(heap, {obj}), 1
    {
      dtors, calls := [], [];
      ghost var h, d, c, n, done := heap, dtorCalls, disconnectCalls, totalObjectCount, {};
      NothingTorn(h, reason);
      MoreCondemned(h, root, condemned, condemned + {obj});
      var rest := heap[obj].children;
      while rest != {}
        invariant Parted(h[obj].children, done, rest)
        invariant ChildrenGone(obj, condemned, h, done, reason, d, c, n, dtors, calls)
        decreases rest
      {
        var child :| child in rest;
        PickOne(h[obj].children, done, rest, child);
        dtors, calls := DestroyChild(obj, child, reason, condemned, h, done, d, c, n, dtors, calls);
        done, rest := done + {child}, rest - {child};
      }
    }

    /** Ends all the connections of obj, whose children are dead already. */
    method DisconnectAll(obj: Ptr, reason: int, indirect: bool, ghost condemned: set<Ptr>)
      returns (ghost calls: seq<DisconnectCall>)
      requires GraphInv(heap, root, condemned) && obj in heap && forall c :: c in heap[obj].children ==> c !in heap
      modifies `heap, `disconnectCalls
      ensures disconnectCalls == old(disconnectCalls) + calls && forall d :: d in calls ==> d.indirect == indirect
      ensures Torn(old(heap), heap - {obj}, {obj}, [DtorCall(obj, reason, indirect)], calls, reason)
      ensures heap.Keys == old(heap).Keys && heap[obj].owner == old(heap)[obj].owner
    {
      ghost var h := heap;
      var t := DisconnectClients(obj, reason, indirect, condemned);
      ghost var h1, log := heap, disconnectCalls;
      NoServerGone(h, h1, root, condemned, obj, t, reason, indirect);
      var u := DisconnectServers(obj, reason, indirect, h, condemned);
      DetachedIsTorn(h, h1, heap, root, condemned, obj, t, u, reason, indirect);
      Append(old(disconnectCalls), t, u);
      calls := t + u;
    }

    /** Destroys obj, whose children are dead already. */
    method DestroyItself(obj: Ptr, reason: int, indirect: bool, ghost condemned: set<Ptr>)
      returns (ghost calls: seq<DisconnectCall>)
      requires GraphInv(heap, root, condemned) && Counted() && obj in heap && obj != root
      requires forall c :: c in heap[obj].children ==> c !in heap
      requires heap[obj].owner in heap && heap[obj].owner != obj
      modifies `heap, `anonymousObjects, `totalObjectCount, `dtorCalls, `disconnectCalls
      ensures var h := Prune(old(heap), {obj});
              heap == if indirect then h else Forget(h, old(heap)[obj].owner, obj)
      ensures Torn(old(heap), Prune(old(heap), {obj}), {obj}, [DtorCall(obj, reason, indirect)], calls, reason)
      ensures forall d :: d in calls ==> d.indirect == indirect
      ensures Logged(old(dtorCalls), old(disconnectCalls), old(totalObjectCount), [DtorCall(obj, reason, indirect)], calls)
    {
      calls := DisconnectAll(obj, reason, indirect, condemned);
      FreeObject(obj, reason, indirect);
    }

    /** Takes obj from its owner, unless that is being destroyed too, and destroys it. */
    method FreeObject(obj: Ptr, reason: int, indirect: bool)
      requires Counted() && obj in heap && obj != root && heap[obj].owner in heap && heap[obj].owner != obj
      modifies `heap, `anonymousObjects, `totalObjectCount, `dtorCalls
      ensures heap == if indirect then old(heap) - {obj} else Forget(old(heap) - {obj}, old(heap)[obj].owner, obj)
      ensures Counted() && totalObjectCount == old(totalObjectCount) - 1
      ensures dtorCalls == old(dtorCalls) + [DtorCall(obj, reason, indirect)]
    {
      if !indirect {
        var owner := heap[obj].owner;
        ForgottenThenFreed(heap, owner, obj);
        heap := heap[owner := heap[owner].(children := heap[owner].children - {obj})];
      }
      DoDestroyObject(obj, reason, indirect);
    }

    /** Destroys obj, everything that it owns first. */
    method DoForceDestroy(obj: Ptr, reason: int, indirect: bool, ghost condemned: set<Ptr>)
      returns (ghost dtors: seq<DtorCall>, ghost calls: seq<DisconnectCall>)
      requires GraphInv(heap, root, condemned) && Counted() && Above(heap, condemned, obj) && obj != root
      requires if indirect then heap[obj].owner in condemned else condemned == {}
      modifies `heap, `anonymousObjects, `totalObjectCount, `dtorCalls, `disconnectCalls
      ensures GraphInv(old(heap), root, condemned) && old(heap)[obj].owner in old(heap)
      ensures if indirect then ChildrenTorn(old(heap), heap, {obj}, dtors, calls, reason)
              else TornDown(old(heap), heap, obj, dtors, calls, reason)
      ensures GraphInv(heap, root, condemned)
      ensures Logged(old(dtorCalls), old(disconnectCalls), old(totalObjectCount), dtors, calls)
      decreases Subtrees(heap, {obj}), 2
    {
      ghost var h, d, c := heap, dtorCalls, disconnectCalls;
      ghost var t, v := DestroyChildren(obj, reason, condemned);
      ghost var h1 := heap;
      Bereft(h, h1, root, condemned, obj, t, v, reason);
      ghost var w := DestroyItself(obj, reason, indirect, condemned + {obj});
      Append(d, t, [DtorCall(obj, reason, indirect)]);
      Append(c, v, w);
      dtors, calls := t + [DtorCall(obj, reason, indirect)], v + w;
      if indirect {
        OwnerTorn(h, h1, root, condemned, obj, indirect, t, v, w, reason);
        IndirectKeeps(h, root, condemned, obj);
      } else {
        TornIsTornDown(h, h1, root, obj, t, v, w, reason);
        DestroyedKeeps(h, root, obj);
      }
    }

    // ----- The interface -----

    /** Makes address the descriptor of a new object; without an owner the root owns it. */
    method RegisterAnonymousObject(owner: Option<Ptr>, address: Ptr, shared: bool) returns (newDescriptor: Ptr)
      requires Valid() && address !in heap && (owner.Some? ==> owner.value in heap)
      modifies `heap, `anonymousObjects, `totalObjectCount
      ensures Valid() && newDescriptor == address
      ensures var parent := if owner.Some? then owner.value else root;
              parent in old(heap) && heap == Registered(old(heap), parent, address, shared)
              && NewObject(old(heap), heap, parent, address, shared)
      ensures totalObjectCount == old(totalObjectCount) + 1
    {
      var parent := if owner.Some? then owner.value else root;
      RegisteredKeeps(heap, root, parent, address, shared);
      RegisteredIsNew(heap, parent, address, shared);
      EnterObject(parent, address, shared);
      newDescriptor := address;
    }

    method EnterObject(parent: Ptr, address: Ptr, shared: bool)
      requires Counted() && root in heap && address !in heap && parent in heap
      modifies `heap, `anonymousObjects, `totalObjectCount
      ensures Counted() && heap == Registered(old(heap), parent, address, shared)
      ensures totalObjectCount == old(totalObjectCount) + 1
    {
      var generation := heap[parent].generation + 1;
      heap := heap[address := Descriptor(parent, generation, 1, shared, {}, map[], {})];
      anonymousObjects := anonymousObjects + {address};
      heap := heap[parent := heap[parent].(children := heap[parent].children + {address})];
      totalObjectCount := totalObjectCount + 1;
      assert heap == Registered(old(heap), parent, address, shared);
    }

    /** Connects a client with a server; false if they are connected already. */
    method Connect(client: Ptr, server: Ptr, callback: bool) returns (isNew: bool)
      requires Valid() && client in heap && server in heap
      modifies `heap
      ensures Valid() && heap == Linked(old(heap), client, server, callback)
      ensures isNew == (server !in old(heap)[client].useList)
      ensures if isNew then NewConnection(old(heap), heap, client, server, callback) else heap == old(heap)
      ensures server in heap[client].useList && client in heap[server].usedByList
    {
      assert Right(heap, root, {}, client);
      LinkedIsNew(heap, root, client, server, callback);
      LinkedKeeps(heap, root, client, server, callback);
      if server in heap[client].useList {
        return false;
      }
      assert Right(heap, root, {}, server);
      heap := heap[client := heap[client].(useList := heap[client].useList + {server})];
      assert client !in heap[server].usedByList;
      var connection := Connection(client, server, callback);
      heap := heap[server := heap[server].(usedByList := heap[server].usedByList[client := connection])];
      isNew := true;
    }

    /** Destroys target with all that it owns. */
    method ForceDestroy(target: Ptr, reason: int) returns (ghost dtors: seq<DtorCall>, ghost calls: seq<DisconnectCall>)
      requires Valid() && target in heap && target != root
      modifies `heap, `anonymousObjects, `totalObjectCount, `dtorCalls, `disconnectCalls
      ensures Valid() && old(heap)[target].owner in old(heap)
      ensures TornDown(old(heap), heap, target, dtors, calls, reason)
      ensures dtorCalls == old(dtorCalls) + dtors && disconnectCalls == old(disconnectCalls) + calls
      ensures totalObjectCount == old(totalObjectCount) - |Subtrees(old(heap), {target})|
    {
      dtors, calls := DoForceDestroy(target, reason, false, {});
    }
  }
}
