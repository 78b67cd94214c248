# Verified models of the Quartz mailbox, the output log, the object manager, the dictionary, type layout and the request queue

The project models six parts of the repository in Dafny and proves what they are for.
`dafny verify dfyconfig.toml` checks all of it.

**The request mailbox** (`Mailbox*.dfy`). A fixed array of slots; one link per slot threads both a
lock-free stack of free slots and a queue of requests with a dummy in front; three flags decide whether
the handler, the sender or the queue moving on returns a slot to the stack. The model is a step system:
one step per load, exchange, compare-and-exchange, fetch-or, plain write to a slot, or counter operation.
Thread 0 runs the consumer loop, every other thread may send and may discard its handles. History
components (`role`, `free`, `log`, `latest`, `received`, `handles`, `given`, `recycled`) record who has
which slot; no step reads them. `MailboxInvariant` holds the invariant, in parts that name the components
they speak of; `MailboxSteps` and `MailboxConsumer` show step by step that it is kept; `MailboxTheorems`
and `MailboxSoleSender` lift this to runs; `MailboxProperties` says what follows for a user. With one
sending thread nothing is assumed, nor with any number of clients that take turns at sending
(`MailboxTurns`). Otherwise two conditions on the run are needed: a successful pop installs the true
successor, and the consumer follows only links that are written. `MailboxOvertaking` shows that each
condition is exactly what the invariant needs at that step, and that the code by itself does not ensure
either of them: runs of two clients reach both failures. `MailboxClients` says what this means for the
numbers of slots and clients, whatever the clients do. Links lead to slots in every run exactly when there
is at most one client, or at most two slots; the free stack offers only free slots in every run exactly
when there is at most one client, or at most three slots. With three slots the one thing that can go wrong
is that the consumer stops for ever (`MailboxThreeSlots`).
`MailboxProgress` says that work gets done: from every state that meets the invariant an idle client alone
completes a send while there is a token, and a discard; the consumer alone handles all that is queued; and
whenever no client is in a call, all slots but the dummy and that of the last request can be had again
without another send.

**The asynchronous output log** (`OutputLog*.dfy`). One producer, one consumer, a lock-free pool and a
counted queue of buffers. Every load, link write, exchange, counter step and even every printed byte is a
step of its own, and nothing is assumed about the interleaving. The main results: no step is ever unsafe,
every buffer is in exactly one place, what has been printed is always a prefix of what was written, and
from every state the consumer alone prints all that has been flushed and gives back the token that the
producer may wait for (`OutputLogProgress`).

**The object manager** (`ObjectGraph.dfy`, `ObjectManager.dfy`, `ObjectTheorems.dfy`). Objects own one
another in a tree, and client/server connections are recorded at both ends. `Manager` has a field `heap`,
a map from addresses to descriptors that the methods reassign; a freed descriptor leaves the map, so every
dereference in a method is proved to hit a live one. `ObjectGraph` says what destroying a set of objects
leaves and what is told to whom; `DoForceDestroy` and its loops are proved against it while ancestors that
are being torn down still list dead children.

**The string dictionary** (`Bits.dfy`, `Probing.dfy`, `HashTable.dfy`, `DictionaryLoad.dfy`,
`Dictionary.dfy`). An open-addressing table with triangular probing, tombstones and cached hashes. `Table`
keeps the arrays and counters of the source, and every method is proved against the map that the table
stands for. A ghost field holds, for every key, the number of steps its search takes. The number theory
shows that the probe sequence visits every bucket of a power-of-two table exactly once, which is why the
unbounded probe loops end. The source says that `explicit_init(n)` makes room for n insertions; because
`entries * 4` and `NumBuckets * 3` are 32-bit products this is so exactly for n below 0x30000000
(`ReserveExactly`). `clear` of an empty table keeps its tombstones.

**Type layout** (`Aligning.dfy`, `Layout.dfy`, `Aggregates.dfy`, `NestedLayout.dfy`). Offsets and
alignments of bases, virtual-table pointer and members, in 64-bit arithmetic with the bit trick
`((x-1)|(a-1))+1`, offsets kept in 32 bits. `Laid` is what the loops compute for any input; `LaidHasParts`
and `LaidHasNoGaps` say what that is in terms of the parameters and of the type alone. Order,
alignment and room are separate matters. Where nothing wraps around, whatever the alignments, the parts
lie one after the other exactly when none of alignment 0 comes after one that takes room. Parts that are
no less aligned than their types keep every scalar aligned; packed members give that up and nothing else.
Where all alignments are powers of two, no layout in the same order is smaller. `NestedLayout` carries
this to types nested to any depth. `silica.cpp` computes the same layout but starts from whatever
alignment the descriptor holds; that start value is the parameter `alignment`.

**The request queue** (`Heaps.dfy`, `LeftChains.dfy`, `PoppedHeaps.dfy`, `Ranks.dfy`, `LeastFirst.dfy`,
`PriorityQueue.dfy`). A binary heap, counted from 1, in a circular array. Its methods are proved against
the sequence of requests that the array stands for. A pop moves all requests one place forward and then
puts every chain of left children 2p, 4p, ... in order by itself (`LeftChains`). This does not always leave a
heap: `PoppedHeaps` says exactly when it does, and that every heap of n requests is left a heap exactly for
n up to five. Nevertheless the queue serves its requests least first in every run of insertions and
removals (`LeastFirst`), because a weaker property is kept. The rank of node x is the number of ones in
x - 1: the top of the chain to which a pop takes node x has one rank less, and the root has rank 0. For every
priority, among the nodes up to that priority, whenever one has rank r or more, r of them have a lower
rank and none of rank r or more above them (`Ranks`). A heap has this property, an insertion and a pop keep
it, and it puts a least request at the root.

Nothing here executes the original program.

## Steps and the code they stand for

| step functions | code |
|---|---|
| `Mailbox`: AcquireToken, LoadFreeTop, Peek, PopSlot | src/quartz/internal.hpp, lines 1310-1326 |
| `Mailbox`: Fill | src/quartz/mailbox.cpp, lines 330-337 |
| `Mailbox`: ExchangeLast, Link, Announce | src/quartz/internal.hpp, lines 1513-1524 |
| `Mailbox`: Discard, Unlock, Act | src/quartz/internal.hpp, lines 1529-1554 |
| `Mailbox`: ClearFlags, RecycleLoadTop, RecycleLink, PushSlot, ReleaseToken | src/quartz/internal.hpp, lines 1396-1411 |
| `Mailbox`: TakeOver, Claim, Fetch, Lock, Advance | src/quartz/internal.hpp, lines 1343-1355 and src/support/atomicutils.hpp, lines 739-799 |
| `Mailbox`: ActionOf, Serviceable | src/quartz/internal.hpp, lines 1424-1448 and src/quartz/mailbox.cpp, lines 23-214 |
| `OutputLog`: Write, Measure, Swap, Link, MoveTail, Announce | src/quartz/internal.hpp, lines 278-290 and 536-546 |
| `OutputLog`: AcquireToken, LoadHead, Peek, Pop, Retry | src/quartz/internal.hpp, lines 315-328 |
| `OutputLog`: TakeOver, Claim, Fetch, ReadHead, SetLink, Push, ReadAgain, ReleaseToken | src/quartz/internal.hpp, lines 298-313 and 329-337 |
| `OutputLog`: PrintByte, Finish | src/quartz/internal.hpp, lines 400-424 |

## Model

| member | source | states |
|---|---|---|
| MailboxTheorems.InitHolds | src/quartz/internal.hpp:1273-1297 | the constructed mailbox meets the invariant: slot slotCount-1 is the first dummy and the end marker of the free stack, all other slots are free, linked and fresh, one token each |
| MailboxSteps.AcquireTokenKeeps | src/support/atomicutils.hpp:561-573 | taking a token of the slot semaphore keeps the invariant; the token stands for a free slot not yet popped |
| MailboxSteps.LoadTopKeeps | src/quartz/internal.hpp:1312 | loading the head of the free stack, at first or after a failed exchange, keeps the invariant |
| MailboxSteps.PeekKeeps | src/quartz/internal.hpp:1316-1317 | reading the link of the loaded slot keeps the invariant |
| MailboxSteps.PopKeeps | src/quartz/internal.hpp:1319 | a successful compare-exchange that installs the true successor keeps the whole invariant |
| MailboxSteps.FillKeeps | src/quartz/mailbox.cpp:330-337 | the sender writes the kind into the slot that it alone owns; the invariant stays |
| MailboxSteps.ExchangeKeeps | src/quartz/internal.hpp:1514-1515 | the exchange of the queue end appends exactly one request, with all counts adjusted |
| MailboxSteps.LinkKeeps | src/quartz/internal.hpp:1520 | the link goes to the exchanged predecessor and keeps queue, stack and ownership |
| MailboxSteps.AnnounceKeeps | src/quartz/internal.hpp:1521 | raising the counter after the link keeps the accounting of linked and announced requests; from here on, and not before, the sender of a notify kind has a handle |
| MailboxSteps.DiscardKeeps | src/quartz/internal.hpp:1529-1534 | a discard sets DISCARDED and starts the recycling exactly when NOT_PRESERVED and READY were both set |
| MailboxSteps.ClearFlagsKeeps | src/quartz/internal.hpp:1397 | recycling resets the flags to exactly NOT_PRESERVED |
| MailboxSteps.RecycleLoadTopKeeps | src/quartz/internal.hpp:1406 | loading the stack head for the push keeps the invariant |
| MailboxSteps.RecycleLinkKeeps | src/quartz/internal.hpp:1408 | the recycler writes the link of the slot it alone owns |
| MailboxSteps.PushSlotKeeps | src/quartz/internal.hpp:1409 | a successful push puts the slot on top of the free stack, linked to the old top |
| MailboxSteps.ReleaseTokenKeeps | src/quartz/internal.hpp:1410 | releasing the token pairs the pushed slot with a token again |
| MailboxSteps.TakeOverKeeps | src/support/atomicutils.hpp:797-799 | moving the producers' count to the consumer's keeps the sum of both |
| MailboxSteps.ClaimKeeps | src/support/atomicutils.hpp:743-749 | taking one from the counter claims one linked or pending request |
| MailboxSteps.FetchKeeps | src/quartz/internal.hpp:1343-1350 | when the link is written the fetch receives the next request in exchange order |
| MailboxSteps.AdvanceKeeps | src/quartz/internal.hpp:1353 | making the fetched request the previous one keeps the invariant |
| MailboxConsumer.LockKeeps | src/quartz/internal.hpp:857-859 | lock clears NOT_PRESERVED on the fetched request only |
| MailboxConsumer.UnlockKeeps | src/quartz/internal.hpp:1549-1554 | unlock sets NOT_PRESERVED on the previous request and recycles it exactly when it was ready and discarded; the first dummy is never recycled |
| MailboxConsumer.ActKeeps | src/quartz/internal.hpp:1535-1548 | action_notify_sender and action_destroy mark the request and never recycle it inside the consumer loop |
| MailboxTheorems.StepKeeps | src/quartz/internal.hpp:1310-1554 | every step of every thread under the discipline keeps the invariant |
| MailboxTheorems.DisciplinedRunKeeps | src/quartz/internal.hpp:1310-1354 | with any number of senders the invariant holds all along every run whose pops install the true successor and whose fetches follow a written link |
| MailboxSoleSender.SoleSenderRunKeeps | src/quartz/internal.hpp:1310-1354 | with one sending thread and any number of discarding threads the invariant holds along every run, without any assumption |
| MailboxSoleSender.SoleSenderFromStart | src/quartz/internal.hpp:1273-1354 | the same from the constructed mailbox |
| MailboxSoleSender.SoleFetchFindsLink | src/quartz/internal.hpp:1347-1350 | with one sender the count alone guarantees that the link the consumer follows has been written |
| MailboxSoleSender.SoleStepDisciplined | src/quartz/internal.hpp:1312-1319 | with one sender every pop installs the true successor and every fetch finds its link |
| MailboxTurns.TurnsRunKeeps | src/quartz/internal.hpp:1310-1354 | for any number of clients of which none begins to send before the last send has ended, the invariant holds along every run, whatever else interleaves |
| MailboxTurns.TurnsSafety | src/quartz/internal.hpp:1273-1354 | so from the constructed mailbox, at the end of every such run, each slot is in one place, requests were received in order, none was recycled twice or under a held handle, and exactly the requests of notify kinds whose send has returned have a handle, which an idle client can give up |
| MailboxTurns.TurnFetchFindsLink | src/quartz/internal.hpp:1343-1350 | when clients take turns a claimed request has its link written |
| MailboxTurns.SoleSenderTakesTurns | src/quartz/internal.hpp:1310-1354 | the runs of a sole sender are among those in which clients take turns |
| MailboxOvertaking.PopKeepsExactly | src/quartz/internal.hpp:1315-1319 | a pop keeps the invariant if and only if the link it read is still that of the top |
| MailboxOvertaking.FetchKeepsExactly | src/quartz/internal.hpp:1347-1350 | at a state that meets the invariant, a fetch keeps it if and only if the link it follows has been written; what this means for a run is MailboxClients.LinksSafeExactly |
| MailboxOvertaking.FetchOvertakesLink | src/quartz/internal.hpp:1513-1521 | for any three or more slots and two or more clients, a reachable state in which the counter lets the consumer follow a link that is not written and leads to no slot |
| MailboxOvertaking.PopOvertaken | src/quartz/internal.hpp:1312-1319 | for any four or more slots and two or more clients, a reachable state in which a pop succeeds with a stale link and puts a slot that carries a request on top of the stack |
| MailboxClients.LinksSafeExactly | src/quartz/internal.hpp:1343-1355 | in every run, whatever the clients do, the consumer follows only links to slots, if and only if there is at most one client or at most one slot besides the dummy |
| MailboxClients.StackSafeExactly | src/quartz/internal.hpp:1310-1326 | in every run, whatever the clients do, the free stack offers only free slots, if and only if there is at most one client or at most two slots besides the dummy |
| MailboxThreeSlots.ThreeSlotsEnd | src/quartz/internal.hpp:1310-1355 | with two slots besides the dummy every run of any clients ends with the whole invariant, or with the consumer stopped at a link to no slot, the free stack empty, no token left and no request ready to be recycled |
| MailboxThreeSlots.TightStep | src/quartz/internal.hpp:1310-1355 | with two slots besides the dummy every step keeps the invariant and what threads have peeked at, or stops the consumer |
| MailboxThreeSlots.FetchStops | src/quartz/internal.hpp:1347-1350 | a fetch that overtakes its link stops the consumer with the free stack empty, no token left and no request ready |
| MailboxThreeSlots.OvertakenLink | src/quartz/internal.hpp:1347-1350 | such a fetch is the first, and both slots are queued |
| MailboxThreeSlots.StuckStays | src/quartz/internal.hpp:1310-1554 | once the consumer has stopped no step frees a slot |
| MailboxClients.SafeRuns | src/quartz/internal.hpp:1310-1355 | both hold in every run of at most one client, and of any number of clients with at most one slot besides the dummy |
| MailboxClients.SmallStepKeeps | src/quartz/internal.hpp:1310-1355 | with at most one slot besides the dummy every step of every client meets both disciplines and keeps the invariant |
| MailboxProperties.EverySlotOnce | src/quartz/internal.hpp:1199-1224 | every slot is in exactly one of: free stack, held by one thread, in the queue and not received, received and awaiting its recycling, first dummy |
| MailboxProperties.NothingShared | src/quartz/internal.hpp:1310-1322 | no two threads, stack positions or live requests share a slot |
| MailboxProperties.NotReusedAfter | src/quartz/internal.hpp:1529-1554 | no later request uses the slot of a live one |
| MailboxProperties.StackIsChain | src/quartz/internal.hpp:1396-1411 | the links lead from the stack head through exactly the free slots, and end at the retired marker |
| MailboxProperties.QueueIsChain | src/quartz/internal.hpp:1343-1354 | the links lead from the last received request through the following ones in exchange order, as far as they are written |
| MailboxProperties.SoleSenderSafety | src/quartz/internal.hpp:1273-1554 | with one sending thread, in every reachable state: each slot in one place, the received slots a prefix of the exchange order, no request recycled twice, none recycled while its handle is held, and exactly the requests of notify kinds whose send has returned have a handle, which an idle client can give up |
| MailboxProperties.TokensAccountForStack | src/quartz/internal.hpp:1274-1326 | stack length equals semaphore value plus tokens held by poppers plus slots pushed but not released; with a token in the semaphore the head is a real free slot |
| MailboxProperties.PendingLinkHitsQueue | src/quartz/internal.hpp:1515-1520 | a link still to be written goes to a slot in the queue, one awaiting its recycling, or the dummy, never to a free or thread-owned slot |
| MailboxProperties.HandleStaysGood | src/quartz/mailbox.cpp:286-342 | from the send to its discard a notify-kind request keeps its slot, no later request uses it, and READY there means that this request was handled |
| MailboxProperties.HandlesExactly | src/quartz/mailbox.cpp:339-341 | a request has a handle, held or given up, if and only if its kind notifies the sender and the thread that sent it is no longer inside the enqueue routine for it |
| MailboxProperties.HandlesAreUsable | src/quartz/mailbox.cpp:286-312 | an idle client can discard every such request that has not been given up |
| MailboxProperties.AcquiredIsFresh | src/quartz/internal.hpp:1396-1411 | a slot handed out has flags exactly NOT_PRESERVED and is nobody else's |
| MailboxProperties.RecycledExactlyOnce | src/quartz/internal.hpp:1529-1554 | a request is recycled once when handled, given up and followed by the next received one, and not before |
| MailboxProperties.RecyclerIsUnlockOrDiscard | src/quartz/internal.hpp:1529-1554 | whatever step recycles a request is the unlock of it or the discard of its own handle |
| MailboxProperties.ReceivedInOrder | src/quartz/internal.hpp:1343-1354 | the received slots are a prefix of the exchange order |
| MailboxProperties.CounterIsBounded | src/support/atomicutils.hpp:739-749 | the message counter never exceeds the number of slots less one, so 32 bits suffice |
| MailboxProperties.CounterBelowLinked | src/quartz/internal.hpp:1513-1521 | the message counter never exceeds the number of linked requests not yet received |
| MailboxProperties.ReadyIsEnabled | src/quartz/internal.hpp:1302-1305 | no slot number that a step uses is out of range, and a pop never takes the end marker |
| MailboxProgress.SendCompletes | src/quartz/mailbox.cpp:314-342 | while the semaphore is not 0 an idle client alone, in steps of its own, completes a send of any kind: the log has exactly this request more, by this client, the counter is one higher and the semaphore one lower, the client has a handle exactly for a notify kind, and it is idle again |
| MailboxProgress.DiscardCompletes | src/quartz/mailbox.cpp:310-312 | an idle client alone completes the discard of a handle: if the request was handled and the next one received, its slot is then on top of the free stack and the semaphore one higher; otherwise both are as before |
| MailboxProgress.ConsumerHandlesAll | src/quartz/internal.hpp:1343-1355 | whenever no send is between its exchange and its announcement, the consumer alone receives and handles every request in the queue: all holders of handles then see READY, and every request but the last that is of a destroy kind or given up has been recycled once |
| MailboxProgress.AtRestCount | src/quartz/internal.hpp:1273-1297 | when all is handled, no client is in a call and no handle is held, the semaphore and the free stack count all slots but the dummy and that of the last request |
| MailboxProgress.RoomReturns | src/quartz/internal.hpp:1310-1411 | from every state in which no client is in a call there is a run without sends after which the semaphore is that high: no slot is lost for good |
| MailboxSteps.TokenMeansSlot | src/quartz/internal.hpp:1323-1326 | whoever holds a token finds a real free slot on top |
| OutputLogTheorems.InitHolds | src/quartz/internal.hpp:431-462 | the initialised log meets the invariant for every number of buffers above two |
| OutputLogSteps.WriteKeeps | src/quartz/internal.hpp:536-546 | writing a byte touches only the current buffer |
| OutputLogSteps.MeasureKeeps | src/quartz/internal.hpp:280 | storing the byte count is seen only by the buffer being pushed |
| OutputLogSteps.PopIsOfTop | src/quartz/internal.hpp:318-325 | when the exchange succeeds the buffer is still on top and the link that was read is its true successor |
| OutputLogSteps.PopKeeps | src/quartz/internal.hpp:325 | the pop, failed or not, keeps the invariant |
| OutputLogSteps.SwapKeeps | src/quartz/internal.hpp:283-285 | the popped buffer becomes current and the full one is set aside |
| OutputLogSteps.LinkHitsEnd | src/quartz/internal.hpp:287 | the link is written to the last buffer of the queue, never to a pool buffer |
| OutputLogSteps.LinkKeeps | src/quartz/internal.hpp:287 | linking queues the full buffer with exactly the bytes written to it |
| OutputLogSteps.AnnounceKeeps | src/quartz/internal.hpp:289 | the counter is raised after the link |
| OutputLogSteps.FetchIsNext | src/quartz/internal.hpp:306-309 | what the counter promises is linked: the consumer fetches the next queued buffer |
| OutputLogSteps.FetchKeeps | src/quartz/internal.hpp:306-309 | fetching keeps the invariant and leaves the old buffer to be returned |
| OutputLogSteps.SetLinkKeeps | src/quartz/internal.hpp:330-333 | the consumer writes only the link of the buffer it returns |
| OutputLogSteps.PushKeeps | src/quartz/internal.hpp:334 | the push, failed or not, keeps pool and queue apart |
| OutputLogSteps.ReleaseTokenKeeps | src/quartz/internal.hpp:336 | the token is released after the push |
| OutputLogSteps.PrintByteKeeps | src/quartz/internal.hpp:400-406 | each printed byte is the next byte of the buffer as it was queued |
| OutputLogSteps.FinishKeeps | src/quartz/internal.hpp:408-424 | after the last byte the whole text of the buffer has been printed |
| OutputLogSteps.InvIsSafe | src/quartz/internal.hpp:318-325 | no step reaches outside the buffers; the pool head is not null when the producer uses it |
| OutputLogTheorems.RunKeeps | src/quartz/internal.hpp:278-337 | along every run of one producer and one consumer, at the granularity of single loads and stores, every step is safe and the invariant holds |
| OutputLogTheorems.OutputIsQueued | src/quartz/internal.hpp:408-424 | the output is always a prefix of the queued texts in queue order |
| OutputLogTheorems.OutputIsPrefix | src/quartz/internal.hpp:278-424 | over all runs from the start the output is a prefix of the bytes that the write steps of the run wrote, in their order |
| OutputLogTheorems.InputIsWritten | src/quartz/internal.hpp:536-546 | what the log holds as written is what its write steps wrote, no other step adds to it |
| OutputLogTheorems.AllIsPrinted | src/quartz/internal.hpp:422-424 | once all is flushed and the consumer finds nothing to do, the output is all that was written |
| OutputLogTheorems.EveryBufferOnce | src/quartz/internal.hpp:265-269 | every buffer is in exactly one of pool, current, producer's hand, set aside, queue (the consumer's included), being returned |
| OutputLogTheorems.PoolDistinct | src/quartz/internal.hpp:315-337 | no buffer is twice in the pool |
| OutputLogTheorems.QueueDistinct | src/quartz/internal.hpp:287-289 | no buffer is twice in the queue |
| OutputLogTheorems.WriterAlone | src/quartz/internal.hpp:278-313 | the buffer being written is neither the consumer's nor queued nor in the pool |
| OutputLogTheorems.TokenMeansBuffer | src/quartz/internal.hpp:315-319 | a producer with a token finds the pool not empty |
| OutputLogTheorems.NeverStuck | src/quartz/internal.hpp:570 | while the producer waits for a token and there is none, the consumer has something to do; that it then gives a token back is OutputLogProgress.ConsumerFreesBuffer |
| OutputLogProgress.ConsumerFinishes | src/quartz/internal.hpp:298-313 | from every state the consumer alone comes to rest with nothing left to print, and changes nothing of the producer's |
| OutputLogProgress.ConsumerPrintsAll | src/quartz/internal.hpp:400-424 | from every state in which all has been flushed, the consumer alone prints all that was written |
| OutputLogProgress.ConsumerFreesBuffer | src/quartz/internal.hpp:329-337 | from every state in which the producer waits for a token, the consumer alone raises the semaphore above 0 |
| OutputLogProgress.PushEnds | src/quartz/internal.hpp:278-290 | a push that has begun can always be brought to its end, and hands the line over |
| OutputLogProgress.AllCanBePrinted | src/quartz/internal.hpp:278-424 | from every state there is a run without further writes after which the output is exactly what was written |
| ObjectManager.Manager.RegisterAnonymousObject | src/support/handles.hpp:179-210 | the new descriptor has the given owner, or the root, its generation plus one, count 1, the given flag and no lists; it is entered among the children of that owner; nothing else changes |
| ObjectManager.Manager.Connect | src/support/handles.hpp:258-277 | afterwards the server is in the client's useList and the client in the server's usedByList; a new connection has these ends and this callback and everything else stays; an existing one is left alone and reported |
| ObjectManager.Manager.DoDisconnect | src/support/handles.hpp:146-149 | the callback, if any, is called once with the ends, the reason and the flags |
| ObjectManager.Manager.DoDisconnectServer | src/support/handles.hpp:132-135 | the client forgets the server, and is told as unexpected |
| ObjectManager.Manager.DoDisconnectClient | src/support/handles.hpp:122-127 | the server forgets the client, and the branch for a server without references is never taken |
| ObjectManager.Manager.DisconnectClients | src/support/handles.hpp:158-162 | all clients of an object forget it and are told once each |
| ObjectManager.Manager.DisconnectServers | src/support/handles.hpp:164-165 | all servers of an object forget it and their connections are reported once each |
| ObjectManager.Manager.DoDestroyObject | src/support/handles.hpp:97-120 | the destructor is called, the descriptor freed, the count lowered by one; the asserts on count and registration hold |
| ObjectManager.Manager.DestroyChildren | src/support/handles.hpp:153-156 | destroying the children one by one removes exactly their subtrees, with every call indirect |
| ObjectManager.Manager.DoForceDestroy | src/support/handles.hpp:151-171 | the recursion terminates, destroys exactly the subtree and keeps the graph invariant at every level |
| ObjectManager.Manager.ForceDestroy | src/support/handles.hpp:290-292 | the heap becomes the old one without the subtree of the target; destructors and callbacks are called once each; the count falls by the size of the subtree |
| ObjectGraph.DestroyedKeeps | src/support/handles.hpp:151-171 | what is left after destroying a subtree is again a tree with connections recorded at both ends |
| ObjectGraph.TornBoth | src/support/handles.hpp:153-156 | destroying one set of objects and then another is destroying both together, calls included |
| ObjectGraph.OwnersLastBoth | src/support/handles.hpp:153-170 | destructors run after those of everything the object owns |
| ObjectGraph.DetachedIsTorn | src/support/handles.hpp:158-170 | an object without live children is gone from every list once it is disconnected and freed |
| ObjectGraph.ChildReady | src/support/handles.hpp:153-156 | while siblings are destroyed the next child is untouched, and its subtree is smaller: the recursion ends |
| ObjectGraph.UnderIsBelow | src/support/handles.hpp:153-156 | a subtree is its root and the subtrees of the children |
| ObjectGraph.TornIsTornDown | src/support/handles.hpp:167-170 | the direct call also removes the target from its owner's children; only the target's own calls are direct |
| ObjectTheorems.RegisteredKeeps | src/support/handles.hpp:197-207 | registration keeps the invariant |
| ObjectTheorems.RegisteredIsNew | src/support/handles.hpp:179-210 | what registration does, field by field and for every other object |
| ObjectTheorems.NewIsUnder | src/support/handles.hpp:198-205 | a new object is in exactly the subtrees that its owner is in, and no other object changes subtree |
| ObjectTheorems.NewGoesWithOwner | src/support/handles.hpp:151-156 | destroying an object destroys the new one exactly when its owner is in the subtree destroyed |
| ObjectTheorems.LinkedKeeps | src/support/handles.hpp:262-276 | connecting keeps the invariant, also for an object connected with itself |
| ObjectTheorems.LinkedIsNew | src/support/handles.hpp:262-276 | what connecting does, at both ends, field by field and for every other object and connection |
| ObjectTheorems.NewConnectionReported | src/support/handles.hpp:146-165 | when an end of a new connection is destroyed, this connection is reported exactly when it has a callback |
| ObjectTheorems.RunKeeps | src/support/handles.hpp:179-292 | over every run of registering, connecting and destroying the objects stay a tree connected at both ends |
| ObjectTheorems.GenerationIsDepth | src/support/handles.hpp:199 | the generation of an object is its distance from the root |
| ObjectTheorems.UnderAncestor | src/support/handles.hpp:198-205 | every ancestor of an object has it in its subtree |
| ObjectTheorems.AncestorAbove | src/support/handles.hpp:198-205 | only ancestors have it in their subtrees |
| ObjectTheorems.NothingLeft | src/support/handles.hpp:151-171 | no destroyed object is left in the children, useList or usedByList of a live one |
| ObjectTheorems.OthersStay | src/support/handles.hpp:151-171 | all other objects live on with the same owner, generation and remaining lists |
| ObjectTheorems.DestroyUndoesRegister | src/support/handles.hpp:179-210 | destroying a new object restores the heap from before its registration |
| ObjectTheorems.DestroyUndoesConnect | src/support/handles.hpp:258-277 | a connection makes no difference to what is left once one of its ends is destroyed |
| HashTable.HashString | src/support/dictionary.cpp:17-36 | the shift-and-add loop computes the hash of all bytes, from 5381, in 32 bits; what that is in closed form says HashTable.HashIsWeightedSum |
| HashTable.HashIsWeightedSum | src/support/dictionary.cpp:17-36 | for n bytes the hash is 5381 * 33^n plus the sum of all bytes, each times 33 to the number of bytes after it, modulo 2^32 |
| Probing.ProbesDistinct | src/support/dictionary.cpp:137-182 | in a table of 2^k buckets the first 2^k probes are all different |
| Probing.ProbeReaches | src/support/dictionary.cpp:137-182 | and they visit every bucket, from any hash |
| Probing.ProbeIsTriangle | src/support/dictionary.cpp:178-182 | after i steps the probe is at hash plus the i-th triangular number, modulo the table size |
| HashTable.SearchStarts | src/support/dictionary.cpp:143-183 | a search meets an empty bucket within the first NumBuckets probes: the unbounded loops end |
| HashTable.SearchStep | src/support/dictionary.cpp:212-242 | at a bucket that is not empty the search has found the key or goes on |
| HashTable.AbsentAtEmpty | src/support/dictionary.cpp:146-156 | an empty bucket on the way proves that the key is absent |
| HashTable.OfferedAtEmpty | src/support/dictionary.cpp:146-162 | the bucket offered for a new key, empty or the first tombstone, has only entries before it on the way of the key |
| HashTable.InsertKeeps | src/support/dictionary.hpp:492-495 | storing a new key in an offered bucket inserts it in the map and keeps all other keys reachable |
| HashTable.RemoveKeeps | src/support/dictionary.cpp:250-253 | a tombstone removes the key from the map and keeps all other keys reachable |
| HashTable.CountUpdate | src/support/dictionary.hpp:492-496 | replacing a bucket changes the counts of entries and tombstones by exactly that bucket |
| HashTable.SomeEmpty | src/support/dictionary.cpp:143-183 | fewer entries and tombstones than buckets leave an empty bucket |
| HashTable.RebuiltTakes | src/support/dictionary.cpp:94-120 | moving one entry into the new table adds exactly it to the map moved so far |
| HashTable.RebuiltAll | src/support/dictionary.cpp:94-127 | after all buckets the new table holds the same map |
| Dictionary.Table.Init | src/support/dictionary.cpp:48-65 | an empty map in the asked number of buckets, or 16 |
| Dictionary.Table.FindKey | src/support/dictionary.cpp:204-243 | the bucket that holds the entry of the key, or -1 exactly when the key is absent |
| Dictionary.Table.SearchKey | src/support/dictionary.cpp:208-242 | the probe loop ends and finds the key exactly when it is there |
| Dictionary.Table.LookupBucketFor | src/support/dictionary.cpp:131-184 | the map stays; the bucket holds the key, or is the first on its way without an entry, with its hash stored |
| Dictionary.Table.SearchBucketFor | src/support/dictionary.cpp:141-183 | the probe loop ends at the key or at the bucket to use |
| Dictionary.Table.FindHole | src/support/dictionary.cpp:98-112 | the fast case and the probe loop find the first empty bucket on the way of the entry |
| Dictionary.Table.MoveEntries | src/support/dictionary.cpp:94-120 | all entries are moved, and the bucket number asked about is followed |
| Dictionary.Table.RehashTable | src/support/dictionary.cpp:67-129 | map and count stay, and the returned bucket holds the given entry; the table is kept exactly when numItems * 4 <= NumBuckets * 3 and more than NumBuckets / 8 buckets were never used; else it is new, without tombstones, and doubled exactly above three quarters |
| Dictionary.Table.TryEmplace | src/support/dictionary.hpp:485-500 | insert-if-absent, with the position of the entry; the table doubles exactly when an insertion takes it above three quarters, and is kept when that is not so and more than 1/8 of it was never used; afterwards the load is light |
| Dictionary.Table.RemoveKey | src/support/dictionary.cpp:245-257 | the key is removed and its entry returned, or nothing happens |
| Dictionary.Table.Find | src/support/dictionary.hpp:384-389 | the position of the entry, or the end |
| Dictionary.Table.Erase | src/support/dictionary.hpp:525-537 | removal, and whether there was an entry |
| Dictionary.Table.Clear | src/support/dictionary.hpp:503-519 | the map is empty afterwards; tombstones go unless there was no entry |
| Dictionary.Table.ExplicitInit | src/support/dictionary.cpp:186-202 | an empty map with room reserved, or no table at all |
| Dictionary.Table.FromList | src/support/dictionary.hpp:299-306 | the dictionary of a list holds the first value of every key, in the table it started with |
| Dictionary.Table.InsertAll | src/support/dictionary.hpp:303-305 | any insertions for which room was reserved leave the table in place |
| Dictionary.Table.AdvancePastEmptyBuckets | src/support/dictionary.hpp:193-196 | the iterator stops at the next entry or the sentinel |
| Dictionary.Table.Entries | src/support/dictionary.hpp:370-377 | iteration lists every entry of the map once |
| Dictionary.Table.Equals | src/support/dictionary.hpp:426-441 | true exactly when the two maps are equal |
| HashTable.ListsAll | src/support/dictionary.hpp:193-196 | a list of as many distinct entries as the map has misses none |
| HashTable.SameEntries | src/support/dictionary.hpp:426-441 | of two maps of the same size one has all entries of the other exactly when they are equal |
| HashTable.FirstWinsExactly | src/support/dictionary.hpp:299-306 | the map of a list holds exactly its keys, each with its first value |
| DictionaryLoad.LoadRestored | src/support/dictionary.cpp:71-82 | after an insertion the 32-bit tests are exact, and each of the three outcomes leaves the load light |
| DictionaryLoad.KeptExactly | src/support/dictionary.cpp:71-82 | up to 2^30 buckets the 32-bit tests keep the table if and only if items * 4 <= buckets * 3 and more than buckets / 8 have never been used |
| DictionaryLoad.LoadRestoredExactly | src/support/dictionary.cpp:71-82 | for a table of any power of two of buckets that 32 bits hold: the load is looked after at every insertion if and only if there are at most 2^30 buckets |
| DictionaryLoad.LargestTable | src/support/dictionary.cpp:71-82 | the one larger table, of 2^31 buckets, seems too full when a quarter full, and twice its size is 0 in 32 bits |
| DictionaryLoad.ReservedSize | src/support/dictionary.cpp:11-15 | below the limit the reserved size is a power of two with more than 4/3 of the entries |
| DictionaryLoad.ReservedIsLeast | src/support/dictionary.cpp:11-15 | and no smaller power of two has |
| DictionaryLoad.ReserveExactly | src/support/dictionary.cpp:186-195 | reserving for n entries keeps its promise that no insertion replaces the table exactly for n below 0x30000000 |
| DictionaryLoad.ReserveFails | src/support/dictionary.cpp:11-15 | for every larger n a number of insertions that does replace it, because the 32-bit arithmetic wraps |
| Aligning.AlignOffset | src/quartz/types.hpp:136-141 | for a power of two the result is the least multiple at or after the offset; for alignment 0 it is 0 |
| Aligning.TrickNeedsPow2 | src/quartz/types.hpp:136-141 | the bit trick rounds all offsets up exactly when the alignment is a power of two |
| Aligning.AlignedIsRoundUp | src/silica/silica.cpp:164-169 | the bit trick in 64 bits equals rounding up, as long as nothing wraps |
| Aligning.OverrideNeedsRoom | src/quartz/types.hpp:488 | a member alignment keeps the type aligned at every offset exactly when it is at least the type's |
| Aggregates.MakeAggregate | src/quartz/types.hpp:439-524 | the loops over bases and members, the vptr and the padding compute Laid; where the bases do not wrap around, the fields are the bases in order, then a pointer at offset 0 exactly if the aggregate is virtual and its bases take no room, then the members in order, each of its own type and with its override or its type's alignment; the final alignment is the largest of all |
| Aggregates.LaidHasParts | src/quartz/types.hpp:439-524 | the same of Laid: its fields and alignment in terms of the parameters alone, for all parameters but for what wraps around among the bases |
| Aggregates.BasesTakeNoRoomExactly | src/quartz/types.hpp:466-481 | where nothing wraps around the bases end at offset 0 if and only if from some base on none takes room, that one being the first or of alignment 0 |
| Aggregates.PlaceBases | src/quartz/types.hpp:466-479 | after the loop every base is placed and the alignment is the largest so far |
| Aggregates.PlaceVptr | src/quartz/types.hpp:481-485 | a virtual aggregate whose bases end at offset 0 gets a pointer there, and nothing else is placed; when that is so says Aggregates.BasesTakeNoRoomExactly |
| Aggregates.PlaceMembers | src/silica/silica.cpp:309-339 | after the loop every member is placed, with its own alignment if it has one |
| Layout.CodeIsTight | src/quartz/types.hpp:466-517 | as long as nothing overflows each offset is the least multiple at or after the end of the item before |
| Layout.TightIsLawful | src/quartz/types.hpp:466-517 | the wanted offsets obey alignments and order |
| Layout.NothingIsTighter | src/quartz/types.hpp:466-517 | no offsets that obey alignments and order are smaller anywhere |
| Layout.NothingIsSmaller | src/quartz/types.hpp:519-520 | nor is any smaller size possible |
| Layout.AlignmentsBelow | src/quartz/types.hpp:142-144 | the final alignment is at least that of every item |
| Layout.AlignmentTaken | src/quartz/types.hpp:142-144 | and it is that of an item, or the one given |
| Layout.EndIsZeroExactly | src/quartz/types.hpp:481 | where nothing wraps around items end at offset 0 if and only if from some item on none takes room, that one being the first or of alignment 0 |
| Layout.InSequenceExactly | src/quartz/types.hpp:466-517 | for any alignments, where nothing wraps around: each item ends before the next ones begin, if and only if no item of alignment 0 comes after one that takes room |
| Layout.OffsetAfterEnd | src/quartz/types.hpp:136-141 | then no item is put before the end of those in front of it |
| Layout.FitsInRange | src/quartz/types.hpp:466-517 | layouts whose tight end fits in 32 bits do not wrap around |
| NestedLayout.LaidInOrderExactly | src/quartz/types.hpp:439-524 | the parts of a constructed aggregate, whose types are in order, lie in order and within it, if and only if nothing of alignment 0 comes after a part that takes room, the padding at the end included |
| NestedLayout.LeavesInside | src/quartz/types.hpp:373-387 | at every depth of nested aggregates and arrays in order, whatever their alignments, all scalars lie inside their type and one after the other |
| NestedLayout.ArrayGrows | src/quartz/types.hpp:373-376 | an array of none has size 0 and no scalars; of one element more, it is that much larger and has the scalars of that element from the old end on |
| NestedLayout.AggregateKeepsInside | src/silica/silica.cpp:268-351 | so an aggregate of parts in order, packed ones included, keeps all its scalars inside it and disjoint |
| NestedLayout.LeavesAligned | src/quartz/types.hpp:373-387 | at every depth of a well-aligned type all scalars are aligned wherever an instance is |
| NestedLayout.LaidIsAligned | src/quartz/types.hpp:439-524 | an aggregate of well-aligned parts, none but empty ones less aligned than their types, is well-aligned |
| NestedLayout.BareExactly | src/quartz/types.hpp:373-387 | the types that alignment does not concern are exactly those without scalars |
| NestedLayout.LaidIsTight | src/quartz/types.hpp:466-520 | where all alignments are powers of two, packed members included, the stored 32-bit offsets are the least multiples, and the size is the least multiple of the final alignment |
| NestedLayout.LaidHasNoGaps | src/quartz/types.hpp:466-520 | the same said of the type alone: every field lies at the least multiple of its alignment from the end of the field before on, and the size is the least multiple of the alignment from the end of the last |
| NestedLayout.PacksIsRegular | src/quartz/types.hpp:466-520 | such a layout does not wrap around, and its parts are in order |
| NestedLayout.AggregateKeepsApart | src/silica/silica.cpp:268-351 | an aggregate of well-aligned parts in order keeps all its scalars, however deep, aligned, inside it and disjoint |
| NestedLayout.AggregateIsSmallest | src/quartz/types.hpp:466-520 | no layout in the same order, packed members included, has a smaller offset anywhere or a smaller size |
| NestedLayout.SizeIsMultiple | src/quartz/types.hpp:373-376 | the size of a well-aligned type that holds a scalar, arrays included, is a multiple of its alignment |
| NestedLayout.EmptyMemberOverlaps | src/quartz/types.hpp:488-510 | an instance of the failing case: a member of an empty aggregate type, which has alignment 0, sends the offset back to 0, so two members overlap |
| PriorityQueue.Queue.constructor | src/quartz/internal.hpp:1123-1129 | an empty queue, ready to serve, whose number of places is a power of two and at least the number asked for |
| PriorityQueue.Queue.Exchange | src/quartz/internal.hpp:898-900 | two requests change places in the circular array |
| PriorityQueue.Queue.Heapify | src/quartz/internal.hpp:903-939 | restores the order below a node, permuting the requests |
| PriorityQueue.Queue.BuildHeap | src/quartz/internal.hpp:941-944 | makes a heap, ready to serve, of any contents, permuting them |
| PriorityQueue.Queue.RebalanceAfterInsert | src/quartz/internal.hpp:1084-1096 | for any contents the last request is exchanged with its parent while it is less; no request is lost |
| PriorityQueue.Queue.Insert | src/quartz/internal.hpp:1149-1152 | adds exactly the request to any contents; the queue stays ready to serve least first, and a heap stays a heap |
| PriorityQueue.Queue.RebalanceAfterPop | src/quartz/internal.hpp:999-1083 | for any contents every chain of left children is put in order, and no request leaves its chain |
| PriorityQueue.Queue.Pop | src/quartz/internal.hpp:1141-1147 | removes exactly the request returned, which is a least one if the queue was ready, as it then is again; a heap is left exactly when the chains of right children fit |
| LeftChains.SweepSortsChains | src/quartz/internal.hpp:1023-1082 | the sweep puts every chain of left children in order by itself and moves no request to another chain |
| LeftChains.ClimbSorts | src/quartz/internal.hpp:1041-1081 | the climb from the last left child of a chain puts that chain in order and leaves all other nodes alone |
| LeftChains.BubbleSorts | src/quartz/internal.hpp:1055-1077 | moving a node down a chain that is in order below it puts the chain in order from that node |
| PoppedHeaps.PopLeavesHeapExactly | src/quartz/internal.hpp:1141-1147 | for any contents: a pop leaves a heap if and only if each request of the chain of a right child finds enough requests not greater than it in the chain of its parent |
| PoppedHeaps.PopKeepsHeapsExactly | src/quartz/internal.hpp:1141-1147 | every heap of n requests is left a heap by a pop if and only if n is at most five |
| LeastFirst.RunTakesLeast | src/quartz/internal.hpp:1131-1160 | in every run of insertions and removals from a ready queue each removal takes a least of the requests then in it, as a bag of requests would give them |
| LeastFirst.DrainedAscends | src/quartz/internal.hpp:1141-1147 | popping all requests gives them in ascending order |
| LeastFirst.InsertKeepsReady | src/quartz/internal.hpp:1149-1152 | an insertion keeps the queue ready, heap or not |
| LeastFirst.PopKeepsReady | src/quartz/internal.hpp:1141-1147 | a pop keeps the queue ready, heap or not |
| LeastFirst.RootServes | src/quartz/internal.hpp:1137-1140 | the root of a ready queue is at most every request in it |
| LeastFirst.HeapIsReady | src/quartz/internal.hpp:941-944 | a heap is ready |
| LeastFirst.RankFalls | src/quartz/internal.hpp:1143-1145 | the top of the chain to which a pop takes a node has one rank less than that node |
| Ranks.LiftStep | src/quartz/internal.hpp:1088-1093 | moving the parent of the lifted request down keeps the support of all ranks, the lifted one not counted |
| Ranks.LiftEnds | src/quartz/internal.hpp:1090-1091 | where the lifted request stays, the support is complete again |
| Ranks.PopKeeps | src/quartz/internal.hpp:999-1083 | moving every node one place forward and putting each chain in order keeps the support of all ranks |
| Ranks.HeapIsSupported | src/quartz/internal.hpp:1098-1119 | the nodes of a heap up to any priority are supported |
| Ranks.SupportedHasRoot | src/quartz/internal.hpp:1137-1140 | supported nodes include the root |
| PriorityQueue.Queue.IsValidHeapSubtree | src/quartz/internal.hpp:1098-1119 | true exactly when every node below is at least its parent |
| PriorityQueue.Queue.IsValidHeap | src/quartz/internal.hpp:1173-1175 | true exactly for a heap |
| PriorityQueue.SlotsDiffer | src/quartz/internal.hpp:891-893 | positions less than the capacity apart are different places of the circular array |
| PriorityQueue.ViewPopped | src/quartz/internal.hpp:1143-1144 | moving the head by one drops exactly the first request |
| PriorityQueue.FullQueueWraps | src/quartz/internal.hpp:1149-1150 | the place an insertion into a full queue writes to is that of its first request |
| Heaps.SinkStep | src/quartz/internal.hpp:922-928 | an exchange with the lesser child moves the disorder down |
| Heaps.RiseStep | src/quartz/internal.hpp:1088-1093 | an exchange with the parent moves the disorder up |
| Heaps.LiftedHeap | src/quartz/internal.hpp:1084-1096 | lifting a request that alone may be less than its parent makes a heap |
| Heaps.RootIsLeast | src/quartz/internal.hpp:1137-1140 | the root of a heap is least |

## Left out

- MailboxTheorems.DisciplinedRunKeeps: assumes of a run with several senders that successful pops install the true successor and that fetches follow written links; the code ensures this for clients that take turns by MailboxTurns.TurnsRunKeeps, and whatever they do only for one client or few slots, by MailboxClients.LinksSafeExactly (at most two slots) and MailboxClients.StackSafeExactly (at most three).
- MailboxProperties.HandleStaysGood: a handle is discarded at most once, by its sender, and never for a fire-and-forget kind; this is what the mailbox demands of its clients.
- MailboxProgress.ConsumerHandlesAll: for states in which no send is between its exchange and its announcement; while one is, the consumer may have to wait for its link.
- MailboxTheorems.StepKeeps: steps are sequentially consistent; weaker memory orders, timeouts, wake-ups and overflow of the semaphore are not modelled.
- The kill message and the shutdown of the consumer loop, the payload, status, sender and foreign-process fields of a request, and the message kind written while recycling.
- OutputLogSteps.WriteKeeps: one byte is written to a buffer with room for it; write_bytes copies without looking at the room, and number formatting only decides which bytes come.
- The end of the log's consumer thread, which frees the buffers, and the big buffered log.
- ObjectManager.Manager.RegisterAnonymousObject: the fields of the object itself are part of its descriptor, so an object is registered once; the allocator hands out an unused address; type ids, time stamps and user data are not kept.
- ObjectManager.Manager.ForceDestroy: not for the root, which has no owner; a destructor callback is always present, and callbacks do not call the manager.
- Named objects, whose name is recovered by a pointer cast, and import and export of objects.
- Dictionary.Table.Init: a fresh table is all empty; the allocation at src/support/dictionary.cpp:44 leaves it uninitialised, while the commented-out one at line 56 zeroes it.
- Dictionary.Table.TryEmplace: for tables of at most 2^30 buckets, exactly those whose load is looked after by DictionaryLoad.LoadRestoredExactly.
- Dictionary.Table.RehashTable: for the same tables; the one larger table would be given 0 buckets, by DictionaryLoad.LargestTable.
- Dictionary.Table.FromList: for lists of fewer than 0x30000000 entries, exactly those for which the reserved room is enough by DictionaryLoad.ReserveExactly.
- Dictionary.Table.InsertAll: for insertions for which room was reserved, in the same range.
- The members of the dictionary that do not compile when used: insert of an entry, insert_or_assign and the copy constructor.
- Allocation and destruction of dictionary entries; an entry is its key and value.
- NestedLayout.LaidInOrderExactly: where nothing wraps around and all offsets fit in 32 bits.
- NestedLayout.LaidIsAligned: for members that are not packed below the alignment of their type; Aligning.OverrideNeedsRoom says that this is needed.
- Bitfield members, whose first field gets no storage unit, and the kind of inheritance, which does not affect the layout.
- PriorityQueue.Queue.Insert: for a queue that is not full; by PriorityQueue.FullQueueWraps the code would overwrite the first request.
- append_n and insert_n of the request queue: the wrap-around copy has the wrong length.
- The slab pools, the page and cell managers and the Agate mailboxes.
