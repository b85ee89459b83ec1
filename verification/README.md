# A verified model of shmipc-cpp

shmipc-cpp moves messages between two processes through shared memory: a lock-free allocator of
fixed-size buffers, a ring per direction with a wake-up flag, a segmented byte buffer whose segments
travel as chains linked through buffer headers, and a socket that carries wake-ups, closes and the
messages that did not fit in shared memory. This project models that core in Dafny and proves what
holds in every run.

`dafny verify dfyconfig.toml` checks all of it.

## What is proved

**Allocator.** `FreeListProtocol` runs any number of concurrent pushes and pops of one free list, every
shared access a step of its own. Every run keeps the list one sequence of distinct buffers from head to
tail, linked or owed a link by exactly one pusher, with exact accounting of `size` and `counter`, if and
only if every successful head exchange installs the current link (`RunInvIff`). Runs whose pops do not
overlap satisfy this (`FreshListStaysIntact`); since the exchange compares only an offset, an overtaken
popper can break it, and `StaleExchange` is a run from a fresh list of four buffers that does. `PopProgress`
shows that an overtaken popper reloads and, left alone, takes the head, and that in every run a pop comes back
empty-handed only after it saw at most one buffer or used up its 200 attempts.
`BufferList` does one list byte by byte and `PoolLayout` carves all lists out of one region:
`CreatePool` succeeds exactly when the memory holds the headers, the percentages sum to at most 100 and
every class gets a buffer, each class then has as many buffers as its percentage holds and not one more, and
`MapPool` finds the same geometry after any history; on any other memory `MapGeometry` finds only lists that
lie in it and do not overlap. `PoolRefinement` reads
those bytes as the pool value on which the buffer modules work, and shows that pops and pushes of the bytes
are exactly its pops and recyclings; `HolderRefinement` does the same for data, header updates and resets.

**Ring and wake-up.** `Ring` stores 12-byte records at `index % cap` in a byte array and refines a bounded
FIFO; `RingProtocol` does the same word by word with producers and consumer interleaved. `WakeUp` shows
that no wake-up is lost, and that without further puts the ring drains within a bounded number of steps. In
both, `History` ties the state to the list of steps alone: a put with room is accepted, a pop of a non-empty
ring is served, the flag is up exactly when it was raised since it was lowered.

**Byte buffer.** `LinkedBuffer` is the class of the same name over a shared pool. Its operations refine a
plain byte queue (`QueueRefinement.Run`, chains that land from the ring included), the write cursor never
leaves the list, views of shared memory stay backed until they are released (`ViewThenRun`), and blocks only
move between the pool and the buffer (`Transfer`). The flag that decides between ring and socket goes down
exactly when a heap slice joins, and one joins only when no class could serve the request.
`Publish`, `Receive` and `EndToEnd` take a written buffer through its headers to the peer's read;
`Transports` shows that the socket path delivers the same bytes, stream id and state.

**Sessions.** `Sessions` runs two endpoints with any number of streams, two rings and a socket. In every
reachable state each block is free, or in one buffer, or in one message that waits in exactly one place
(`Run`, `OneHome`); `check_buffer_returned` holds exactly when nothing is held and nothing waits
(`ReturnedIff`); and draining the rings, releasing the views and closing the streams gives everything back if
and only if the streams closed before hold nothing in their sending buffers (`Shutdown`). Every run of the
endpoints is a run of `SessionModel`, in which streams, rings and wires are plain byte queues (`Run` again,
through `SessionView`). `SessionWakeUps` adds the polling events that tell an endpoint when to look at its
ring, and proves where the bytes go: while a stream is in the table all data of its id goes to it, what is
read is a prefix of what its peer flushed, the rest is at hand or on its way (`ReadInOrder`), and an endpoint
that goes on reading its socket gets all of it (`CanBeServed`, `NothingMissing`). `Pair.Drive` and
`DrivenInOrder` say this of the real endpoints. `Delivery` splits flushes, closes and wake-ups into their
steps and proves per-stream order across the two channels against what each stream was asked to send, that
everything arrives, and exactly which resets keep the order in every continuation;
`CloseRace` and `FlushRace` treat arrivals, reads and flushes that overlap a close; `Framing` shows that
dispatch does not depend on how the socket splits the bytes and stops at the first faulty header; `Handshake`
proves agreement, absence of deadlock and termination of the opening exchange over byte channels, and
`HandshakePeers` says which bytes of any peer bring a party to its end, and what it answers.

Where the code and a property disagree, with the input and the exact condition:

- After `Stream::reset` a message may overtake an earlier one (`Delivery.ResetOvertakes`). Every continuation
  keeps the order if and only if no frame of the stream is behind a drain of the ring (`ResetIff`); the guard
  of `put_or_close_stream` ensures that (`ResetGuard`).
- A server that has closed its stream opens a second one under the same id when more data comes, and what that
  one sends may overtake a frame of the first (`SessionOvertake.TwoSenders`). With one sender under an id the
  order is kept (`SessionWakeUps.ReadInOrder`), which from client to server the counter of ids ensures
  (`OneClient`); which steps break it, `SessionModel.FlowIff` says exactly.
- Overlapping pops may hand out a buffer that is held (`StaleExchange.HandedOutTwice`, condition in
  `FreeListProtocol.ActionInvIff`).
- `release_previous_read_and_reserve` resets a slice that is held and with it the in-used bit, so recycling
  passes over its block (`ReadReuse.LosesBlock`); `ReuseThenRecycle` and `ReuseThenClose` say exactly when.
- A stream that is written to after its close keeps the block (`Sessions.WriteAfterClose`, condition in
  `Shutdown`).
- A close that recycles the send buffer between a flush's look at the state and the end of its put or copy gives
  back a chain that was sent, or lets an empty one be sent (`FlushRace.FairIff`, `FlushAlone`).
- A reader that took pending chains before a close may append them after it, and they stay in the receive
  buffer (`CloseRace.ReaderLeavesChain`, conditions in `EmptiedIff` and `EmptiedAtStart`).
- A view of a heap slice may dangle although it was not released (`QueueRefinement.HeapViewDropped`). Over any
  reads, peeks, discards and appends it stays backed if and only if the reads and discards take no more than
  its slice had left (`HeapViewIff`).
- `write_fallback` copies from the start of a slice rather than from its read index (`Transports.RawIff`; send
  buffers are never read, so it does not show).
- Paths of 65536 bytes or more are not decoded as sent (`Handshake.ExtractIff`).

Integers are unbounded in Dafny; widths that matter (16-bit counts and path lengths, 32-bit offsets and
frame lengths, the 32-bit end in `read_buffer_slice`) are written out. Steps are sequentially consistent.

## Model

| member | source | states |
|---|---|---|
| FreeListProtocol.InitInv | src/buffer/list.cpp:103-138 | the list `create` leaves satisfies the invariant of the concurrent protocol |
| FreeListProtocol.ActionInv | src/buffer/list.cpp:201-256 | every step of every push and pop, and every write of a holder, keeps shape, ownership, links, debts, locals and accounting when head exchanges install the current link |
| FreeListProtocol.StaleLinkBreaks | src/buffer/list.cpp:230-244 | a head exchange that installs any other link leaves a broken list |
| FreeListProtocol.ActionInvIff | src/buffer/list.cpp:201-256 | from an intact list, a step keeps it intact if and only if it is not an exchange of a stale link |
| FreeListProtocol.RunInvIff | src/buffer/list.cpp:201-256 | over every interleaving of any number of threads the list is intact in every state if and only if no exchange of the run installs a stale link |
| FreeListProtocol.NoOverlapIsSound | src/buffer/list.cpp:229-253 | runs in which no two poppers are between flag read and exchange at a successful exchange never install a stale link |
| FreeListProtocol.FreshListStaysIntact | src/buffer/list.cpp:103-138 | from a fresh list, every run without overlapping pops keeps the list intact |
| FreeListProtocol.ExclusiveOwners | src/buffer/list.cpp:201-256 | no buffer is both free and held, and none is in two calls |
| FreeListProtocol.QuietList | src/buffer/list.cpp:201-256 | between calls the header links spell out the list from head to tail, `size` is its length and `size + counter` the capacity |
| StaleExchange.ReachPop | src/buffer/list.cpp:218-256 | a pop with no step of others in between takes the head, clears its link, marks it in use and counts it |
| StaleExchange.ReachPush | src/buffer/list.cpp:201-216 | a push with no step of others in between resets the buffer and links it behind the old tail |
| StaleExchange.HeldBufferIsFree | src/buffer/list.cpp:229-244 | a run from a fresh list of four buffers in which a popper that was overtaken makes a held buffer the head |
| StaleExchange.HandedOutTwice | src/buffer/list.cpp:218-256 | the run goes on until a pop takes that buffer while its first holder still has it |
| PopProgress.LoserReloads | src/buffer/list.cpp:233-252 | a popper whose exchange fails goes on to reload the head, and changes nothing |
| PopProgress.LoserTakesHead | src/buffer/list.cpp:229-252 | from any intact list with a linked head, a popper whose exchange failed and whose attempts are not used up ends, left alone, holding that head |
| PopProgress.PopAlone | src/buffer/list.cpp:218-256 | a pop on an intact list with more than one buffer and a linked head ends, left alone, holding that head |
| PopProgress.EmptyHanded | src/buffer/list.cpp:218-256 | in every run a pop returns empty-handed only if it saw a size of at most 1 since it began or made 200 attempts, counted over the list of steps |
| PopProgress.LastIsKept | src/buffer/list.cpp:221-226 | in every run a pop that returns a buffer never saw a size of at most 1 |
| PopProgress.PopIsBounded | src/buffer/list.cpp:229-252 | in every run a pop is over after a bounded number of its own steps, whatever the others do |
| BufferLists.PopKeeps | src/buffer/list.cpp:218-244 | the bytes a pop leaves are a well-formed list of the remaining free nodes |
| BufferLists.PushKeeps | src/buffer/list.cpp:201-216 | the bytes a push leaves are a well-formed list with the node at its end |
| BufferLists.BufferList.Init | src/buffer/list.cpp:103-138 | on any memory, header and nodes become a well-formed list of all nodes in address order |
| BufferLists.BufferList.Pop | src/buffer/list.cpp:218-256 | fails exactly when one node is left, then changing no byte; else hands out the oldest node with size 0, start 0, no link and the in-used bit |
| BufferLists.BufferList.Push | src/buffer/list.cpp:201-216 | the node is reset, joins at the back, and `size + counter` stays the capacity |
| BufferLists.BufferList.Scribble | src/buffer/slice.cpp:64-82 | whatever a holder writes behind the capacity of its node, the list stays well-formed and other nodes are untouched |
| PoolLayout.TakenFits | src/buffer/manager.cpp:310-328 | lists cut by percentages that sum to at most 100 never take more than the region and their headers |
| PoolLayout.CreateList | src/buffer/list.cpp:43-141 | fails exactly on an empty geometry, a 32-bit overflow or too little memory, then changing nothing; else all nodes are free and memory outside the list is untouched |
| PoolLayout.MapList | src/buffer/list.cpp:143-199 | on any memory, the geometry that the list header announces, refused exactly when its nodes do not lie in the memory |
| PoolLayout.CreatePool | src/buffer/manager.cpp:278-340 | succeeds exactly when the memory holds the headers, percentages sum to at most 100 and every class gets a buffer; then the lists lie one behind the other with all nodes free, and each has as many buffers as its percentage of the region holds and not one more |
| PoolLayout.ShareIsCut | src/buffer/manager.cpp:316-318 | the quotients of the code are the largest count whose nodes fit the percentage |
| PoolLayout.CreateCramped | src/buffer/manager.cpp:289-328 | when the headers do not fit and the subtraction wraps, the creation still fails, whatever the numbers become |
| PoolLayout.BuffersApart | src/buffer/manager.cpp:306-328 | any two buffers of any lists occupy disjoint byte ranges behind the manager's header and inside the used length |
| PoolLayout.MapGeometry | src/buffer/manager.cpp:342-408 | on any memory, succeeds exactly when the manager header and every list it announces lie in the memory, and then gives their geometry in order |
| PoolLayout.MappedInside | src/buffer/list.cpp:171-199 | whatever the memory holds, the lists that are found lie in it one behind the other |
| PoolLayout.MapPool | src/buffer/manager.cpp:342-408 | on a pool that was created and used, recovers every list with the same offset, count, size and free nodes |
| PoolLayout.PoolMemory.PopFrom | src/buffer/list.cpp:218-256 | a pop of one list leaves every other list and the manager's header intact |
| PoolLayout.PoolMemory.PushTo | src/buffer/list.cpp:201-216 | a push to one list leaves every other list and the manager's header intact |
| PoolLayout.PoolMemory.WriteTo | src/buffer/slice.cpp:150-158 | a write of a holder changes exactly those bytes and leaves every list and the manager's header intact |
| PoolLayout.History | src/buffer/list.cpp:201-256 | any history of pops, pushes and holders' writes leaves the pool well-formed with the free nodes a family of plain queues would hold |
| PoolLayout.ReadBack | src/buffer/manager.cpp:550-574 | every buffer of a pool can be read back by its offset, with the capacity of its class |
| PoolRefinement.PoolInOk | src/buffer/manager.cpp:306-338 | the bytes of a pool with ascending classes stand for a well-formed pool in which exactly the buffers off the free lists are in use |
| PoolRefinement.PopRefines | src/buffer/list.cpp:218-244 | the bytes a pop leaves stand for the pool after the abstract pop: the oldest buffer in use, every other block the same |
| PoolRefinement.PushRefines | src/buffer/list.cpp:201-216 | the bytes a push leaves stand for the pool after recycling the slice, when its in-used bit is set |
| PoolRefinement.NewPool | src/buffer/manager.cpp:278-340 | creation succeeds under the same condition, and with ascending classes the pool is well-formed with nothing in use |
| PoolRefinement.PopPool | src/buffer/list.cpp:218-256 | on mapped memory, pop fails exactly when the abstract list cannot pop, and else is the abstract pop with the same slice |
| PoolRefinement.PushPool | src/buffer/list.cpp:201-216 | on mapped memory, push is the abstract recycling and keeps the pool well-formed |
| HolderRefinement.HeldRefines | src/buffer/slice.cpp:59-82 | whatever the holder of a buffer writes behind its capacity, the bytes stand for the same pool with only that block read anew |
| HolderRefinement.WriteData | src/buffer/slice.cpp:150-158 | on mapped memory, an append to a slice is the write of the same bytes into the block's data |
| HolderRefinement.UpdateHeader | src/buffer/slice.cpp:116-122 | length and start go into exactly that block's header |
| HolderRefinement.LinkNext | src/buffer/slice.cpp:59-62 | the block gets its successor and the link bit, and keeps its in-used bit |
| HolderRefinement.ResetHeader | src/buffer/slice.cpp:129-139 | the reset of a held slice leaves the pool in which its block has lost the in-used bit |
| BufferPool.PoppedOk | src/buffer/list.cpp:218-244 | a pop keeps the pool well-formed and adds exactly the oldest free block to those in use |
| BufferPool.RecycledOk | src/buffer/manager.cpp:485-516 | recycling a block in use puts it at the end of its own class and changes no other block |
| BufferPool.ClearedIsLost | src/buffer/manager.cpp:497-511 | a block that lost its in-used bit while held is on no free list, stays off it when recycled, and the pool never has all its buffers again |
| BufferPool.AllReturnedIff | src/buffer/manager.cpp:576-586 | `check_buffer_returned` is true exactly when no block is in use |
| Manager.BufferManager.AllocBuffer | src/buffer/manager.cpp:455-468 | the smallest class that fits, and nothing when that class is down to its last buffer |
| Manager.BufferManager.AllocBuffers | src/buffer/manager.cpp:470-483 | buffers from the largest class downward, none taken while a larger one was there; short of the request only if every class is exhausted, and never one more than needed |
| Manager.BufferManager.Recycle | src/buffer/manager.cpp:485-516 | of a well-formed pool exactly the given block leaves use, everything else in use is unchanged |
| LinkedBuffers.LinkedBuffer.ReadNextSlice | src/buffer/linked.cpp:140-150 | an exhausted front slice is pinned if it is shared memory and a view of it is out, recycled or dropped otherwise; unread bytes, views and the shared-memory flag are unchanged and the write cursor keeps its slice |
| LinkedBuffers.LinkedBuffer.ReadBytes | src/buffer/linked.cpp:171-208 | fails exactly when fewer bytes are left; else yields and removes exactly the next bytes, as a view exactly when one slice holds them, and slices leave the list only while they hold less than what is still to be taken; exactly a front slice left behind with a view out is pinned; views stay backed; blocks only move between pool and buffer |
| LinkedBuffers.LinkedBuffer.ReadView | src/buffer/linked.cpp:183-188 | the fast path hands out a view backed by its block and pins it |
| LinkedBuffers.LinkedBuffer.CopyAcross | src/buffer/linked.cpp:190-207 | the slow path copies the same prefix across slices and drops the same slices |
| LinkedBuffers.LinkedBuffer.Peek | src/buffer/linked.cpp:210-235 | the bytes a read would give, with contents, blocks and earlier views unchanged |
| LinkedBuffers.LinkedBuffer.Discard | src/buffer/linked.cpp:237-257 | removes exactly a prefix of the given length, with the slices a read would drop, or fails without effect |
| LinkedBuffers.AdvancedLength | src/buffer/linked.cpp:140-150 | a read or discard leaves the front slice in its place if and only if it takes no more than that slice holds |
| LinkedBuffers.AdvancedTwice | src/buffer/linked.cpp:190-257 | for the list, taking twice is taking the sum at once |
| LinkedBuffers.LinkedBuffer.AppendSlice | src/buffer/linked.cpp:68-75 | a received slice's bytes join at the end, the cursor moves to it, and the shared-memory flag goes down exactly for a heap slice |
| LinkedBuffers.LinkedBuffer.Alloc | src/buffer/linked.cpp:24-42 | adds capacity for the request, none of it superfluous; the smallest fitting class when it has a buffer; a heap slice only when every class is exhausted; the shared-memory flag goes down exactly when one was added |
| LinkedBuffers.LinkedBuffer.WriteBytes | src/buffer/linked.cpp:317-342 | the bytes are appended whole over however many slices, in one shared slice when the list was empty and the class has a buffer; the shared-memory flag goes down exactly when a heap slice joined, and then every class was exhausted; the cursor ends on the last slice |
| LinkedBuffers.LinkedBuffer.Reserve | src/buffer/linked.cpp:277-315 | the contents grow by exactly the reserved span, which lies in the last slice, where the cursor is; a new slice is taken only when the current one, or the first two of an empty list, have no room; the shared-memory flag goes down exactly when a heap slice joined, and then no class could serve the request |
| LinkedBuffers.LinkedBuffer.FillReserved | src/buffer/linked.cpp:277-315 | writing into the reserved span replaces exactly the last bytes |
| LinkedBuffers.LinkedBuffer.CleanPinned | src/buffer/linked.cpp:152-165 | pinned blocks go back, unread bytes stay |
| LinkedBuffers.LinkedBuffer.ReleasePreviousRead | src/buffer/linked.cpp:259-271 | pinned blocks and a single exhausted slice go back, contents stay |
| LinkedBuffers.LinkedBuffer.ReleaseAndReserve | src/buffer/linked.cpp:77-95 | pinned blocks go back and no byte is lost; a single exhausted slice is dropped if heap, else kept for writing, with everything in order but its in-used bit |
| LinkedBuffers.LinkedBuffer.RecycleAll | src/buffer/linked.cpp:97-110 | the slices are recycled in order; of a sound buffer all go back and the pinned list is kept |
| LinkedBuffers.LinkedBuffer.Clean | src/buffer/linked.cpp:112-123 | the list is forgotten and its blocks stay in use |
| ReadReuse.ReuseThenRecycle | src/buffer/linked.cpp:77-110 | after that call a recycle returns every block the buffer held if and only if no slice was kept for writing; otherwise the pool never has all its buffers again |
| ReadReuse.ReuseThenClose | src/stream.cpp:372-379 | `release_read_and_reuse` and a later recycle of both buffers return every block of the stream if and only if the receive buffer had no slice to reuse |
| ReadReuse.LosesBlock | src/buffer/linked.cpp:77-95 | one byte written, read and released for reuse: the block of a small pool is lost |
| QueueRefinement.Step | src/buffer/linked.cpp:68-342 | each operation, the landing of a chain included, answers and changes the contents as the plain byte queue does; a write lowers the shared-memory flag only when the pool could not serve it |
| QueueRefinement.Run | src/buffer/linked.cpp:68-342 | any mix of writes, reads, peeks, discards, releases, recycles and appends of heap bytes and of chains in flight gives the plain queue's answers and contents, with the cursor on the last slice and the length exact; without writes and releases the slice list is what the bytes taken leave of the old and the added slices |
| QueueRefinement.ViewThenRun | src/buffer/linked.cpp:140-150 | a read or a peek and any later reads, peeks, discards and appends of either kind answer as the plain queue does, and a shared-memory view handed out by the first is still in use and holds the same bytes |
| QueueRefinement.HeapViewIff | src/buffer/linked.cpp:140-208 | after any later reads, peeks, discards and appends, the slice of a view is still the front of the list if and only if no more was taken than it had left; heap slices are in no other list |
| QueueRefinement.HeapViewDropped | src/buffer/linked.cpp:140-150 | two reads, the second of which drops the heap slice whose view the first handed out |
| Publish.PublishedChain | src/buffer/slice.cpp:116-127 | the headers of a buffer that was only written form one chain whose slices carry the buffer's bytes |
| Publish.Done | src/buffer/linked.cpp:44-66 | the contents become a message in the headers; only headers of the buffer's own blocks change |
| Receive.TakeSlice | src/stream.cpp:99-128 | one slice of a chain joins the receive buffer, or goes back to the pool when it is empty; behind the last one the buffer ends in a slice that is not linked on |
| Receive.MoveChain | src/stream.cpp:98-128 | the walk from the root appends exactly the message's bytes and the slices that carry any, and each block ends in the buffer or in its free list; the buffer ends in a slice that is not linked on; earlier views stay backed |
| EndToEnd.WriteAll | src/buffer/linked.cpp:277-342 | any history of writes and filled reservations appends the concatenation of what was written |
| EndToEnd.Hand | src/stream.cpp:81-128 | `done`, the handing over of the first offset, the walk of the chain and the read yield exactly the sender's contents |
| EndToEnd.RoundTrip | src/stream.cpp:81-128 | for any write history the receiver reads exactly the concatenated bytes unless nothing was written or a heap slice was needed, which happens only when the pool could not serve one of the writes; and blocks are conserved |
| Transports.RawIff | src/stream.cpp:219-228 | copying from the start of a slice gives its unread bytes, whatever the storage holds, exactly when nothing was read from it or nothing is left |
| Transports.Gather | src/stream.cpp:219-228 | the copying loop up to the write cursor collects exactly the contents |
| Transports.WriteFallback | src/stream.cpp:194-233 | the frame is the encoding of the contents under id and status and every block goes back; a buffer too long for the length field is dropped |
| Transports.TakeFallback | src/session.cpp:578-616 | a data frame followed by anything gives the receiver its payload, id and low status byte |
| Transports.ViaSocket | src/stream.cpp:250-257 | over the socket the receiver gets the sender's bytes behind its own under the same id and state, for any mix of slices |
| Transports.ViaRing | src/stream.cpp:259-265 | over any ring with room the receiver gets the same, after the elements that were ahead |
| Conservation.OnePlace | src/buffer/manager.cpp:485-540 | a block is in the free list of its class exactly when nobody claims it, and has at most one claimant |
| Conservation.AllBackIff | src/buffer/manager.cpp:576-586 | all buffers are returned exactly when no buffer holds a block and no message is in flight |
| Conservation.MovedConserves | src/stream.cpp:81-128 | a step that moves blocks between the pool, one buffer and messages handed to it keeps every block accounted for once |
| Conservation.LaunchConserves | src/stream.cpp:259-264 | handing a published message to the ring keeps every block accounted for once |
| Conservation.ScrapConserves | src/buffer/manager.cpp:518-540 | giving back a message's chain keeps every block accounted for once |
| Arenas.RecycleChain | src/buffer/manager.cpp:518-540 | exactly the blocks of the chain go back to their free lists |
| Arenas.Arena.Call | src/buffer/linked.cpp:97-342 | a call on one buffer follows the plain queue and leaves the bytes of all others alone; the flag of a sending buffer says whether all its slices are in shared memory, and goes down only when the pool could not serve a write |
| Arenas.Arena.Publish | src/buffer/linked.cpp:44-66 | a send buffer in shared memory becomes a message that is ready to go, no buffer's bytes change |
| Arenas.Arena.Launch | src/stream.cpp:259-264 | the message in flight carries exactly the bytes the buffer held |
| Arenas.Arena.Fallback | src/stream.cpp:194-233 | the payload is what the buffer held unless that is too long for a frame, and its blocks go back |
| Arenas.Arena.Land | src/stream.cpp:98-128 | the message's bytes are appended to exactly one buffer and it leaves the flight |
| Arenas.Arena.Scrap | src/stream.cpp:338-343 | an unwanted message leaves the flight and no buffer changes |
| Sessions.Pair.CleanPending | src/stream.cpp:318-345 | every chain waiting with the stream goes back, no other message moves |
| Sessions.Pair.Fill | src/stream.cpp:381-395 | arriving data waits behind what waits with its stream, and a closed stream keeps none |
| Sessions.Pair.Arrive | src/session.cpp:650-684 | data reaches the stream of its id, which a server opens and enters in its table on first contact; it is refused exactly by a client that does not know the id; no text changes |
| Sessions.Pair.Poll | src/session.cpp:543-576 | one ring element is taken off and does to the streams and the table what its kind says; data nobody takes is recycled; conservation is kept |
| Sessions.Pair.Deliver | src/session.cpp:578-648 | one frame leaves the wire and does to the streams and the table what its kind says, a close taking its id out of the table; conservation is kept |
| Sessions.Pair.Pull | src/stream.cpp:81-129 | the bytes of all that waits with a stream are appended to its receive buffer in order, nothing waits any more, conservation is kept |
| Sessions.Pair.Flush | src/stream.cpp:235-264 | in each case the text ends where it should: given back when not open, a frame when fallen back or on the heap, a ring message when there is room, and else waiting; conservation is kept |
| Sessions.Pair.Retry | src/stream.cpp:271-303 | a retry puts the message exactly when the stream is open and the ring has room, gives up when it is not open or after the tenth, and else counts; conservation is kept |
| Sessions.Pair.Close | src/stream.cpp:423-460 | the stream ends closed, out of the table, with nothing pending and holding only pinned blocks; the peer of an open one is told over ring or socket; a second close changes nothing |
| Sessions.Pair.Do | src/session.cpp:543-684 | each action does to the endpoints exactly what the model does to the byte queues they stand for, a flush needing the socket exactly when its stream has fallen back or one of its slices is on the heap |
| Sessions.Pair.Run | src/stream.cpp:235-345 | any run of opens, writes, flushes, retries, polls, socket frames, reads, releases and closes keeps every block accounted for once and every message waiting in one place, and is, step by step, the model's run on plain byte queues |
| Sessions.Pair.Drive | src/session.cpp:507-576 | a script of calls and looks at the socket, without exactly the steps that are not in turn when they come, is a permitted run of the model: each endpoint polls its ring when it reaches a polling event and until it is empty, and takes frames in order |
| Sessions.Pair.DrivenInOrder | src/session.cpp:543-684 | after such a run, what was read from the first stream under an id with one sender is a prefix of what the sender flushed; while it is in the table the rest is in its receive buffer, pending, in the ring or on the wire |
| Sessions.Pair.OneHome | src/buffer/manager.cpp:485-540 | in every reachable state a block is free, in one buffer, or in one message that waits exactly once |
| Sessions.Pair.ReturnedIff | src/buffer/manager.cpp:576-586 | in every reachable state `check_buffer_returned` holds exactly when no buffer holds a block and no message waits |
| Sessions.Pair.Shutdown | src/stream.cpp:310-316 | draining both rings, releasing views and closing every stream returns every buffer if and only if the streams closed before hold nothing in their sending buffers |
| Sessions.WriteAfterClose | src/stream.cpp:423-433 | open, close, write, close: the pool lacks a buffer |
| SessionModel.BytesInOrder | src/session.cpp:650-684 | the same of the byte queues, for every run that takes the frames of an id in turn |
| SessionModel.FlowIff | src/stream.cpp:248-264 | exactly which steps break the order: a put while frames of the id are on the wire, or a frame taken while messages of the id are in the ring, unless swapping the two shows no difference |
| SessionWakeUps.PermittedInTurn | src/session.cpp:366-378 | in every run led by polling events, a frame of an id with one sender is taken only when no message of that id is left in the ring |
| SessionWakeUps.ReadInOrder | src/session.cpp:543-684 | so in every such run all data of an id arriving while its stream is in the table goes to that stream, in the order it was flushed |
| SessionWakeUps.OneClient | src/session.cpp:269-284 | as long as the counter gives each id once, a client stream is the only sender of its id |
| SessionWakeUps.ServerReadsInOrder | src/session.cpp:269-284 | from client to server the ids of the counter make every sender the only one |
| SessionWakeUps.CanBeServed | src/session.cpp:543-576 | every such run can go on, by moves of one endpoint alone, until its ring and its wire are empty |
| SessionWakeUps.NothingMissing | src/session.cpp:543-576 | then everything flushed to a stream that is in the table was read, can be read, or waits with it |
| SessionOvertake.TwoSenders | src/session.cpp:650-668 | a run in which the server, its stream closed, opens a second one under the same id, whose message overtakes a frame of the first: the client reads out of order |
| Ring.PutAppends | src/queue.cpp:135-148 | the bytes a put leaves are the queue with the record at its end, for any number of wraps |
| Ring.PopDrops | src/queue.cpp:150-162 | the bytes a pop leaves are the queue without its first record |
| Ring.SlotsApart | src/queue.cpp:140-145 | records less than a capacity apart lie in disjoint slots |
| Ring.Queue.constructor | src/queue.cpp:82-91 | an empty queue of the given capacity on any memory |
| Ring.Queue.Put | src/queue.cpp:135-148 | fails exactly when full, changing no byte; else the record joins at the back |
| Ring.Queue.Pop | src/queue.cpp:150-162 | fails exactly when empty, changing no byte; else yields and removes the oldest record |
| RingProtocol.StepInv | src/queue.cpp:135-162 | every step of a put or pop, word by word with the tail store last, keeps every record between head and tail whole |
| RingProtocol.FifoOfWholeRecords | src/queue.cpp:135-162 | in every interleaving the completed pops returned a prefix of the completed puts, record by record, never more than the capacity apart |
| RingProtocol.History | src/queue.cpp:135-162 | in every run a put is accepted exactly when there is room and published after its words, and a pop is served exactly when a record is there, counted over the list of steps |
| WakeUp.StepInv | src/queue.cpp:168-181 | every step keeps a raised flag and a non-empty ring covered by the consumer, an event or a producer in its call |
| WakeUp.NoLostWakeUp | src/session.cpp:366-378 | in every reachable quiescent state the ring is empty and the flag down |
| WakeUp.Drains | src/session.cpp:548-574 | without further puts every run is bounded, and where it stops the ring is empty |
| WakeUp.History | src/queue.cpp:168-181 | in every run the ring holds what a bounded counter would, the flag is up exactly when raised since lowered, and one event is sent for each raise by a producer |
| Delivery.StepInv | src/stream.cpp:248-264 | every flush, close, wake-up, poll and frame keeps per-stream order over ring and socket |
| Delivery.InOrderAcrossChannels | src/session.cpp:543-576 | what a peer saw of a stream is a prefix of what the stream was asked to send, a close comes last, and with both channels empty nothing is missing |
| Delivery.SentIsAsked | src/stream.cpp:248-303 | what a stream was asked to send, read off the list of actions, is what was sent and the one message still in hand |
| Delivery.FallbackIff | src/stream.cpp:248-253 | in every run a stream has fallen back exactly when a flush of it, or its peer, did since its last reset |
| Delivery.ChannelIff | src/stream.cpp:253-303 | in every run a flush goes for the ring if and only if it is in shared memory and its stream has not fallen back, and is in it as soon as there is room |
| Delivery.FlagIff | src/queue.cpp:168-181 | in every run the flag is up exactly when it was raised since it was last lowered |
| Delivery.EverythingArrives | src/session.cpp:543-576 | from any state of a sound run, once nothing new is asked for every way to go on is bounded, and where it ends all that was sent has arrived in order |
| Delivery.ResetIff | src/stream.cpp:347-370 | after `reset` every continuation keeps the order if and only if the stream has no frame in the socket, or the consumer waits and no polling frame is ahead of one, or the ring has no slots |
| Delivery.ResetGuard | src/session.cpp:227-236 | a stream that has not fallen back may be reset: the guard of `put_or_close_stream` is enough |
| Delivery.ResetOvertakes | src/stream.cpp:347-370 | a run in which, after `reset`, a later message arrives before an earlier one |
| CloseRace.StepConserves | src/stream.cpp:318-345 | no step of an arrival, a read or a close loses or duplicates a chain |
| CloseRace.NoChainLeft | src/stream.cpp:381-395 | in every interleaving of arrivals, reads and closes, when all calls returned and the stream is closed, nothing is pending and each chain was recycled exactly once or is in the receive buffer |
| CloseRace.EmptiedIff | src/stream.cpp:81-98 | from any open state, nothing is left in the receive buffer of the closed stream in any interleaving if and only if no call closes it or no reader has, or may still get, chains it has not appended |
| CloseRace.EmptiedAtStart | src/stream.cpp:81-98 | from the start of the calls, something may stay in the receive buffer if and only if an arrival, a read and a close are among them |
| CloseRace.ReaderLeavesChain | src/stream.cpp:81-98 | one arrival, one read and one close that may leave a chain behind |
| CloseRace.ClosedIff | src/stream.cpp:423-433 | the stream ends closed exactly when some call closed it |
| CloseRace.LateClose | src/stream.cpp:423-428 | a close that comes after another one returns at once and touches nothing |
| CloseRace.RunsEnd | src/stream.cpp:310-345 | every interleaving is of bounded length |
| CloseRace.Progress | src/stream.cpp:310-345 | a run stops only when all calls have returned |
| FlushRace.RunInv | src/stream.cpp:194-303 | over every run of a flush through the ring with its retries or over the socket, closes and half-closes the chain is accounted for in every state, as long as nothing went wrong |
| FlushRace.FairIff | src/stream.cpp:194-264 | in every continuation the chain is sent or recycled, not both, and no empty buffer is sent, if and only if no close can recycle the send buffer between the flush's look at the state and the end of its put or copy |
| FlushRace.FlushAlone | src/stream.cpp:310-316 | from its start a flush is safe in every interleaving if and only if no close runs beside it |
| FlushRace.CloseAfterFlush | src/stream.cpp:423-433 | once the flush has returned, its chain went exactly one way and any closes are safe |
| FlushRace.FlushIsBounded | src/stream.cpp:271-303 | whatever runs beside it, a flush returns within 24 steps of its own |
| FlushRace.FlushOutcome | src/stream.cpp:248-303 | an undisturbed flush of a stream that has not fallen back puts into the ring unless eleven puts in a row find it full; one that has puts nothing |
| FlushRace.HalfClosedFirst | src/stream.cpp:242-246 | a stream half-closed before the flush looks gives its chain back |
| Framing.ScanFrame | src/protocol/event.cpp:57-73 | a prefix of an encoded frame asks for exactly that frame, and a whole frame is decoded whatever follows |
| Framing.ScanFault | src/protocol/event.cpp:146-161 | exactly the headers with a wrong magic number, version zero or a type a session does not take are refused, each for its fault |
| Framing.HandleEvents | src/session.cpp:507-541 | exactly the complete frames at the front are dispatched, in order; what is asked for next is more than is left and no more than the next frame; a faulty header behind them ends it with its fault |
| Framing.BufReader.Compact | src/util/buf_reader.cpp:57-68 | the unread bytes move to the front unchanged |
| Framing.BufReader.FillAtLeast | src/util/buf_reader.cpp:25-55 | enough bytes are buffered or the connection ended; no byte is lost and no read has an empty range |
| Framing.BufReader.ReadLoop | src/session.cpp:442-462 | for any way the socket splits, delays or cuts the bytes, exactly the frames sent whole are dispatched, once and in order; a faulty header ends the loop with its fault exactly when it has arrived whole |
| Handshake.ExtractIff | src/protocol/initializer.cpp:236-287 | the paths are decoded as encoded if and only if both are shorter than 65536 bytes |
| Handshake.StepKeeps | src/protocol/initializer.cpp:293-391 | every step of either party, with partial reads and writes, keeps the conversation on track |
| Handshake.Agreement | src/protocol/adapter.cpp:26-99 | in every interleaving no party meets an unexpected event, and when both are done they agree on the version and the server has the client's paths |
| Handshake.NoDeadlock | src/protocol/initializer.cpp:165-193 | until both parties are done some step is possible |
| Handshake.RunsEnd | src/protocol/initializer.cpp:293-391 | every run of the handshake is of bounded length |
| HandshakePeers.ReadIff | src/protocol/initializer.cpp:182-193 | a header is taken exactly when it is the encoding of its fields, for a version and a type there are |
| HandshakePeers.ExtractWhen | src/protocol/initializer.cpp:236-250 | paths are taken from a body exactly when it starts with their encoding |
| HandshakePeers.ClientEnds | src/protocol/adapter.cpp:26-70 | against any peer, the client ends with version 3 exactly on version, ready and acknowledgement headers, and with version 2 exactly when it shares a file or its peer announces version 2 |
| HandshakePeers.ClientPasses | src/protocol/initializer.cpp:136-163 | descriptors are passed exactly after a peer of version 3 or later said it is ready |
| HandshakePeers.ClientSends | src/protocol/adapter.cpp:26-70 | the client sends its paths in the format both sides know, and nothing more to a peer it cannot talk to |
| HandshakePeers.ServerEnds | src/protocol/initializer.cpp:302-391 | against any peer, the server ends with version 2 or 3 exactly on the message sequences of those versions, with the paths of the body |
| HandshakePeers.ServerAnswers | src/protocol/initializer.cpp:336-391 | the server answers with its version, readiness and acknowledgement exactly when each is due |
| Bytes.BigRoundTrip | src/protocol/event.cpp:28-49 | network-order integers are read back as written |
| Bytes.LittleRoundTrip | src/buffer/slice.cpp:25-33 | native-order integers are read back as written |

## Left out

- Sessions.Pair.Run: calls of the two endpoints are single steps here; their overlap is treated by the protocol modules, not in one model.
- Sessions.Pair.Drive: a wake-up and the put before it are one step, as are the last look at an empty ring and the lowering of its flag; `WakeUp` and `Delivery` take them apart.
- QueueRefinement.Run: the chains that land during a run are in flight when it starts; messages made while it goes on are the subject of `Sessions`.
- QueueRefinement.ViewThenRun: speaks of views of shared memory only; for those of heap slices see `HeapViewIff`.
- LinkedBuffers.LinkedBuffer.Reserve: a reservation of zero bytes on an empty buffer is excluded when the smallest class has no buffer, because the source would then dereference a missing slice.
- PoolLayout.CreatePool: percentages and offsets near 2^32, whose 32-bit sums wrap, and memory of one byte behind the offset, where the source writes two, are excluded.
- PoolRefinement.PushRefines: buffer classes must have different, ascending sizes, because recycling picks the first list of equal size.
- Further use of a block without its in-used bit: the runs of `QueueRefinement` and `Sessions` do not reuse read slices for writing.
- The branch of `done` that splits unused slices off: the cursor is always on the last slice, so it is never taken.
- Framing.BufReader.ReadLoop: a data frame that announces less than its own sixteen bytes of header is excluded, as the source asserts; and so are frames longer than the buffer.
- PoolLayout.MapGeometry: a memory that ends inside the manager's length field is excluded, because the source would read past its end.
- Malformed chains in shared memory from a broken peer.
- Weak memory, unaligned access and the aarch64 layout of the queue header.
- mmap, memfd, file creation, socket calls and the transfer of descriptors, which is a FIFO of pairs here.
- Threads, condition variables, timeouts, the circuit breaker, hot restart and session rebuilding.
- Logging, statistics, configuration, stream pools and the convenience wrappers around buffers.
