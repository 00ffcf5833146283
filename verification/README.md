# Models of the audio framework, the boot downloader and the Bluetooth transport

This project models, in Dafny, the message-passing kernel of the Cadence audio framework for the HiFi
DSP (`hifi/xaf`), the checksum and framing of the serial boot downloader (`installer/hikey/hisi-idt.py`)
and the H4 transport of the Bluetooth HAL (`bluetooth`), and proves what they promise.

`dafny verify dfyconfig.toml` checks everything.

## Map

| files | what they model |
|---|---|
| `RbTree` | the ordered tree: insertion at a leaf, deletion, replacement, any rotations; a descent is a path back to the root |
| `Blocks`, `Allocator`, `MemPool`, `MemRuns` | the best-fit allocator: sets of free blocks, the two tree indices, the pool object, and whole runs of allocations and releases |
| `Deadlines`, `Scheduler` | the earliest-deadline-first scheduler: an ideal queue with unbounded time, and the tree of 32-bit timestamps that refines it |
| `FlagWords` | flag words as sets of bits, and their exclusive or |
| `InputPort` | the input port: a stream re-blocked into a buffer, and its end-of-stream flags |
| `OutputPort`, `Handshake`, `HandshakeRuns` | the output port and its memory; the flush and unroute handshake between a source, the core queue and a sink, as a state machine and over whole runs |
| `PlaceRuns`, `ReleaseRuns`, `UnrouteRuns`, `FlushRuns` | where each message is; exactly when a release leaves messages of the pool under way; exactly which unroute and flush commands are answered |
| `Ring`, `RingRuns` | the packed ring indices, and one producer and one consumer interleaved at every access |
| `Messages`, `Shmem` | intrusive queue and pool; the shared-memory service loop and the conservation of messages |
| `Clients`, `Core` | the free list inside the component map; completion, proxy commands and dispatch |
| `CodecControl`, `Codec` | the state word of a codec component coupled with the scheduler |
| `ExtParam` | the extended-parameter format: host writer and DSP parser |
| `CrcTable`, `Crc`, `Division`, `Frames` | the checksum table, the table-driven checksum, polynomial division (generator of ITU-T V.41, section 2), and the frames |
| `H4` | packets in a byte stream (Bluetooth Core Specification Volume 4 Part A section 2, Volume 2 Part E sections 5.4.1 to 5.4.4) |

## How the code is modelled

- An object whose methods update fields is a class; its methods are proved against specification
  functions or predicates, about which lemmas and runs are proved. Tree nodes are values: a tree is
  a datatype held in a field, and a descent is a zipper.
- A flag word is the set of its set bits; `^=` is the symmetric difference.
- A 32-bit timestamp or ring word is a number below 2^32 with its wrap-around written out, next to a
  ghost counter without bound. The checksum's unbounded Python integer is a `nat`, next to a ghost
  register that it is proved to contain.
- Codec plugins, the component factory, ports seen from the control state, `read`, `write` and the
  remote peer are inputs: every answer they can give is an argument that the theorems quantify over.
- Addresses and sizes of the allocator are multiples of the block descriptor's size, and sizes are
  positive, as its alignment checks demand.

## What the proofs found

- A data buffer that bounces off a vanished sink while a flush is going on makes the source's cleanup
  send it out behind the control message; when the sink does not drop it in time, the returning
  control message releases the pool while the buffer is under way (`ReleaseRuns.FreedInFlight`).
  `ReleaseRuns.ReleasedInFlightExactly` is the exact condition over all runs.
- An unroute command that finds the port busy is lost when the end of the stream is under way, when
  the source leaves service before the flush ends, and when another unroute command follows
  (`UnrouteRuns.LostToEndOfStream`, `LostToUnregister`, `LostToAnother`).
  `UnrouteRuns.UnrouteAnsweredExactly` says that it is answered in all other runs in which the flush
  ends.
- A flush command that waits while an unroute command is carried out is passed over
  (`FlushRuns.FlushLost`); `FlushRuns.FlushAnsweredExactly` is the exact condition.
- An unroute command is not refused on a port that is not routed, and releases the former pool again
  (`OutputPort.UnrouteRestoresExactly`, `OutputPort.SecondUnroute`, `HandshakeRuns.BalancedExactly`).
- After a route command that fails half-way, messages of the released pool stay in the port's queue, and
  the next flush sends them (`OutputPort.FailedRoute`).
- A descriptor of extended parameters that is longer than 65532 bytes passes the length check, and its
  padding is zeroed beyond the message (`ExtParam.OverrunExactly`).
- A read error within an H4 packet passes the check for a positive number and moves the parser back
  by one byte (`H4.H4Protocol.LoseByte`).
- Restarting a completed stream assigns the whole state word. If a route command has scheduled the
  task in the meantime, the flag is lost, and the task is put into the scheduler twice
  (`CodecControl.ScheduledTwice`) or left there when the component is destroyed
  (`CodecControl.LeftBehind`). `CodecControl.StepKeepsExactly` and `CodecControl.LeftBehindExactly` are
  the exact conditions.
- The proxy's command table has entries without a function (types 0, 2, 3, 6, 7, 8) which are called
  nevertheless (`Core.Core.ProxyCommand`).
- A packet without payload stops the H4 parser: the next read asks for zero bytes
  (`H4.H4Protocol.AsksForNothing`). A zero byte between packets is skipped.
- The comment at the scheduler's `get` calls the replacement of the cached head its parent; what
  `rb_delete` reports, and what the scheduler relies on, is the in-order successor
  (`RbTree.DeleteFirstResult`).

## Model

| member | source | states |
|---|---|---|
| RbTree.LinkedBetween | hifi/xaf/hifi-dpf/core/util/rbtree.c:395-413 | where a descent ends, the in-order sequence splits into the keys before and after, and the last turns right and left lead to the nearest ones |
| RbTree.RebalanceInOrder | hifi/xaf/hifi-dpf/core/util/rbtree.c:223-392 | any rotations keep the in-order sequence |
| RbTree.DeleteInOrder | hifi/xaf/hifi-dpf/core/util/rbtree.c:679-808 | deletion takes exactly one node out of the in-order sequence |
| RbTree.DeleteFirstResult | hifi/xaf/hifi-dpf/core/util/rbtree.c:679-808 | deleting the first node reports its in-order successor, or the null node |
| RbTree.ReplaceInOrder | hifi/xaf/hifi-dpf/core/util/rbtree.c:816-842 | replacing a node puts the other one at its place in order |
| Allocator.ColourIrrelevant | hifi/xaf/hifi-dpf/core/xf-mem.c:57-69 | for aligned sizes, comparing a length word that holds the colour bit decides the comparison of lengths |
| Allocator.BiasIrrelevant | hifi/xaf/hifi-dpf/core/xf-mem.c:135-165 | comparing the address of a block's inner tree node decides the order of aligned block addresses |
| Allocator.DescendBySize | hifi/xaf/hifi-dpf/core/xf-mem.c:90-132 | the two-phase descent ends at the first node in order that is large enough, after nodes that are too small |
| Allocator.FindBySize | hifi/xaf/hifi-dpf/core/xf-mem.c:90-132 | NULL exactly when no free block fits, else a smallest block that fits |
| Allocator.FindByAddr | hifi/xaf/hifi-dpf/core/xf-mem.c:135-165 | the nearest free block below the address and the nearest one at or above it, NULL exactly when there is none |
| Allocator.PlaceBySize | hifi/xaf/hifi-dpf/core/xf-mem.c:168-201 | the place of insertion lies between the smaller and the not smaller blocks |
| Allocator.InsertSize | hifi/xaf/hifi-dpf/core/xf-mem.c:168-201 | the length index afterwards indexes one more block |
| Allocator.DeleteSize | hifi/xaf/hifi-dpf/core/xf-mem.c:244-338 | the length index afterwards indexes one block less, and no length changes |
| Allocator.InsertAddr | hifi/xaf/hifi-dpf/core/xf-mem.c:204-237 | the address index afterwards holds one more block |
| Allocator.ReplaceAddr | hifi/xaf/hifi-dpf/core/xf-mem.c:310-321 | replacing the right neighbour's node in place keeps the address index ordered although the key changes |
| Allocator.Shorten | hifi/xaf/hifi-dpf/core/xf-mem.c:244-271 | cutting the tail off a block re-indexes the rest by its new length, or drops the block when nothing is left |
| Blocks.AllocTail | hifi/xaf/hifi-dpf/core/xf-mem.c:244-271 | giving the tail of a best-fitting block to the user is an allocation |
| Blocks.MergeSound | hifi/xaf/hifi-dpf/core/xf-mem.c:274-338 | merging with both neighbours frees exactly the released addresses and leaves no two blocks adjacent |
| Blocks.Canonical | hifi/xaf/hifi-dpf/core/xf-mem.c:274-338 | the set of free blocks depends only on which addresses are free |
| MemPool.Take | hifi/xaf/hifi-dpf/core/xf-mem.c:244-271 | allocation on both indices: the block set loses the tail of a smallest block that fits, and both trees keep indexing the same set |
| MemPool.GrowLeft | hifi/xaf/hifi-dpf/core/xf-mem.c:282-298 | merges exactly when the lower neighbour ends at the released address |
| MemPool.GrowRight | hifi/xaf/hifi-dpf/core/xf-mem.c:300-327 | merges exactly when the upper neighbour starts at the end of the range |
| MemPool.Give | hifi/xaf/hifi-dpf/core/xf-mem.c:274-338 | release on both indices: exactly the released addresses become free, and both trees index the coalesced set |
| MemPool.Pool.Init | hifi/xaf/hifi-dpf/core/xf-mem.c:341-361 | one free block, the whole pool |
| MemPool.Pool.Alloc | hifi/xaf/hifi-dpf/core/xf-mem.c:244-271 | the pool object's allocation: NULL exactly when nothing fits |
| MemPool.Pool.Free | hifi/xaf/hifi-dpf/core/xf-mem.c:274-338 | the pool object's release |
| MemPool.WholePool | hifi/xaf/hifi-dpf/core/xf-mem.c:341-361 | when every address is free there is one block equal to the pool |
| MemRuns.AllocKeeps | hifi/xaf/hifi-dpf/core/xf-mem.c:244-271 | an allocation keeps free and live blocks disjoint, in the pool and tiling it |
| MemRuns.FreeKeeps | hifi/xaf/hifi-dpf/core/xf-mem.c:274-338 | a release of a live block does so too |
| MemRuns.LiveIsReleasable | hifi/xaf/hifi-dpf/core/xf-mem.c:274-338 | every live block meets the demands of the release at any time |
| MemRuns.RunInv | hifi/xaf/hifi-dpf/core/xf-mem.c:244-338 | after any sequence of allocations and releases the free and live blocks tile the pool exactly and no free blocks touch |
| MemRuns.EverythingFreed | hifi/xaf/hifi-dpf/core/xf-mem.c:274-361 | without live blocks the free set is one block, the whole pool |
| MemRuns.AllocThenFree | hifi/xaf/hifi-dpf/core/xf-mem.c:244-338 | an allocation followed by its release restores the free set |
| MemRuns.ReleaseOrderIrrelevant | hifi/xaf/hifi-dpf/core/xf-mem.c:274-338 | releases in any order reach the same free set |
| Deadlines.CompareInWindow | hifi/xaf/hifi-dpf/include/xf-sched.h:48-66 | within half the 32-bit range above the current time, the signed difference of wrapped timestamps decides the order of unbounded ones, and an odd timestamp orders like its masked value |
| Deadlines.OddComparesLikeMasked | hifi/xaf/hifi-dpf/include/xf-sched.h:48-66 | against an even key, an odd timestamp compares like its masked value, wherever they lie |
| Deadlines.LooksPast | hifi/xaf/hifi-dpf/include/xf-sched.h:62-66 | a deadline within one turn looks past exactly when it is half the range or more ahead: the bound on the distance is exact |
| Deadlines.ServedSorted | hifi/xaf/hifi-dpf/core/xf-sched.c:49-102 | the order of service is sorted by deadline |
| Deadlines.FirstIsNext | hifi/xaf/hifi-dpf/core/xf-sched.c:105-133 | its first entry has the earliest deadline, and among equal ones arrived first |
| Deadlines.ServedDrop | hifi/xaf/hifi-dpf/core/xf-sched.c:136-147 | leaving the queue does not change the order of the others |
| Scheduler.Place | hifi/xaf/hifi-dpf/core/xf-sched.c:49-96 | the descent ends behind all tasks that are not later, and tells whether the task becomes the head |
| Scheduler.Sched.Put | hifi/xaf/hifi-dpf/core/xf-sched.c:49-102 | the 32-bit tree refines the ideal queue: one more arrival; the cached head stays the first task |
| Scheduler.Sched.Schedule | hifi/xaf/hifi-dpf/include/xf-component.h:73-77 | a task is placed dts after the current time, for every dts below half the range |
| Scheduler.Sched.Get | hifi/xaf/hifi-dpf/core/xf-sched.c:105-133 | the earliest deadline, first come first served among equals; the time moves to it and never back; NULL exactly when nothing waits |
| Scheduler.Sched.Cancel | hifi/xaf/hifi-dpf/core/xf-sched.c:136-147 | exactly this task leaves, and the cached head is adjusted |
| InputPort.Port.Put | hifi/xaf/hifi-dpf/core/xf-io.c:84-131 | what is accepted is appended to the stream; an empty message ends it; a disabled port answers at once; the flags keep exactly one of ENABLED, EOS, DONE |
| InputPort.Port.Complete | hifi/xaf/hifi-dpf/core/xf-io.c:134-162 | the head message is answered once and the next one becomes readable |
| InputPort.Port.CopyIn | hifi/xaf/hifi-dpf/core/xf-io.c:165-242 | the fill loop copies as much of the stream as fits, in order, across message borders, and turns EOS into DONE when the end is reached |
| InputPort.Port.Fill | hifi/xaf/hifi-dpf/core/xf-io.c:165-242 | buffer contents plus rest of the queue stay the same stream; true when the buffer is full or the stream ended |
| InputPort.Port.Pad | hifi/xaf/hifi-dpf/core/xf-io.c:245-258 | padding fills the rest of the buffer and keeps the data |
| InputPort.Port.Consume | hifi/xaf/hifi-dpf/core/xf-io.c:261-304 | consumed bytes are the next bytes of the stream, in buffered and in bypass mode |
| InputPort.Port.Purge | hifi/xaf/hifi-dpf/core/xf-io.c:307-327 | every queued message is answered, so every message ever put is answered exactly once, and the port is open and empty |
| InputPort.Port.ControlSave | hifi/xaf/hifi-dpf/core/xf-io.c:330-342 | a flow-control message is saved in the empty port |
| InputPort.Port.PurgeDone | hifi/xaf/hifi-dpf/core/xf-io.c:345-357 | the saved message is answered |
| InputPort.Port.Destroy | hifi/xaf/hifi-dpf/core/xf-io.c:360-372 | the buffer is released exactly when there is one |
| InputPort.MoveDown | hifi/xaf/hifi-dpf/core/xf-io.c:284-304 | the ascending copy to the front is right although source and target overlap |
| InputPort.AnsweredOnce | hifi/xaf/hifi-dpf/core/xf-io.c:84-162 | at any time each message put is answered or still queued, and not both |
| InputPort.PutState | hifi/xaf/hifi-dpf/core/xf-io.c:99-112 | despite the XOR updates the flags stay one-hot: EOS means that the empty message is last, DONE that it is the only one |
| InputPort.EndReached | hifi/xaf/hifi-dpf/core/xf-io.c:193-209 | when nothing remains readable in the head message the end of the stream is alone in the queue |
| OutputPort.Reserve | hifi/xaf/hifi-dpf/core/xf-io.c:396-461 | an allocation seen as one more live block |
| OutputPort.Cleanup | hifi/xaf/hifi-dpf/core/xf-io.c:436-461 | the error path frees exactly what was obtained |
| OutputPort.Port.Route | hifi/xaf/hifi-dpf/core/xf-io.c:396-461 | on success one pool of n + 1 messages and n buffers are live and the n messages are queued; when any allocation fails the allocator is as before, and the messages whose buffers had been obtained stay in the queue |
| OutputPort.FailedRoute | hifi/xaf/hifi-dpf/core/xf-io.c:432-461 | after a failed route the next flush of the unrouted port sends exactly those messages, which lie in the pool that was released |
| OutputPort.Port.Unroute | hifi/xaf/hifi-dpf/core/xf-io.c:495-523 | all buffers and the pool of a routed port are released, and the port is as after its creation |
| OutputPort.UnrouteRestoresExactly | hifi/xaf/hifi-dpf/core/xf-io.c:495-523 | the releases of the unroute function leave exactly the blocks of the others if and only if the port is routed |
| OutputPort.SecondUnroute | hifi/xaf/hifi-dpf/audio/xa-class-audio-codec.c:292-328 | the second of two unroute commands, which nothing refuses, releases at once a block that is not live any more |
| OutputPort.UnroutePort | hifi/xaf/hifi-dpf/audio/xa-class-audio-codec.c:292-328 | an idle port is unrouted at once and the allocator restored, a busy one saves the command and flushes; on a port that is not routed nothing is claimed, and exactly there |
| OutputPort.Port.UnrouteStart | hifi/xaf/hifi-dpf/core/xf-io.c:463-474 | the unroute message is saved and the port marked; queue, buffers and counters are untouched |
| OutputPort.RouteAndUnroute | hifi/xaf/hifi-dpf/core/xf-io.c:396-523 | a route followed by an unroute restores the allocator's free set |
| OutputPort.Port.UnrouteDone | hifi/xaf/hifi-dpf/core/xf-io.c:477-492 | the saved unroute message is answered after the release |
| OutputPort.Port.Produce | hifi/xaf/hifi-dpf/core/xf-io.c:551-569 | the head message goes out with its length and the port is no longer idle |
| OutputPort.Port.FlushPort | hifi/xaf/hifi-dpf/core/xf-io.c:572-613 | satisfied at once exactly when unrouted (all queued messages answered) or idle; otherwise the control message goes out unless a flush is going on |
| OutputPort.Port.FlushDone | hifi/xaf/hifi-dpf/core/xf-io.c:616-625 | the flush is over, and a port that was not idle becomes idle; no other flag changes |
| HandshakeRuns.FlushEndsIdle | hifi/xaf/hifi-dpf/core/xf-io.c:616-625 | in every run the flush of a source in service ends at a port that is not idle, with all messages home: it becomes idle or is unrouted |
| OutputPort.Port.Destroy | hifi/xaf/hifi-dpf/core/xf-io.c:628-644 | everything still held is released |
| Handshake.ControlCount | hifi/xaf/hifi-dpf/core/xf-io.c:572-625 | the control message is under way at most once, and only during a flush |
| Handshake.HeadOfLine | hifi/xaf/hifi-dpf/audio/xa-class-audio-codec.c:201-235 | what returns to the source is the head of the whole line; when it is the control message, the line is empty behind it |
| HandshakeRuns.ProduceKeepsExactly | hifi/xaf/hifi-dpf/core/xf-io.c:551-569 | sending a buffer keeps every message in one place and the control message last if and only if no flush is going on |
| Handshake.StartFlushKeeps | hifi/xaf/hifi-dpf/core/xf-io.c:572-613 | starting a flush does so too, and does nothing when it is satisfied or going on |
| Handshake.OpenSinkReceives | hifi/xaf/hifi-dpf/audio/xa-class-audio-codec.c:159-198 | whatever a sink in service does with a message keeps the order of the line |
| Handshake.ClosedSinkReceives | hifi/xaf/hifi-dpf/core/xf-core.c:487-534 | so does the answer of a terminating or missing sink |
| Handshake.ControlComesHome | hifi/xaf/hifi-dpf/audio/xa-class-audio-codec.c:380-401 | the returned control message finds all data at home and makes the port idle |
| Handshake.BouncedData | hifi/xaf/hifi-dpf/audio/xa-class-audio-codec.c:726-756 | a bounced buffer without a flush going on: cleanup flushes behind it |
| Handshake.SourceReceivesKeeps | hifi/xaf/hifi-dpf/audio/xa-class-audio-codec.c:201-408 | all cases of a message coming back to the source |
| HandshakeRuns.StepKeepsExactly | hifi/xaf/hifi-dpf/audio/xa-class-audio-codec.c:201-408 | every step keeps the control message last, except exactly one: a buffer that bounces while a flush is going on |
| PlaceRuns.EachInOnePlace | hifi/xaf/hifi-dpf/core/xf-io.c:495-625 | in every run, while the port is routed, each data message is in exactly one of the source queue, the core queue (out or back), the sink's input queue and the messages that a component out of service has dropped |
| PlaceRuns.EachInFourPlaces | hifi/xaf/hifi-dpf/core/xf-io.c:495-625 | in every run of a source in service nothing is dropped: each data message is in exactly one of the first four places |
| HandshakeRuns.IdleMeansAllHome | hifi/xaf/hifi-dpf/core/xf-io.c:616-625 | in every run an idle port has all its messages at home |
| HandshakeRuns.ControlFindsAllHome | hifi/xaf/hifi-dpf/audio/xa-class-audio-codec.c:380-401 | in every run, when a source in service handles the returned control message all n data messages are home |
| HandshakeRuns.ReleaseIsSafe | hifi/xaf/hifi-dpf/core/xf-io.c:495-523 | with the messages in order, a release of the pool leaves nothing under way |
| HandshakeRuns.BalancedExactly | hifi/xaf/hifi-dpf/audio/xa-class-audio-codec.c:292-328 | in every run pools are released as often as they were obtained, but for the one of a routed port, if and only if no unroute command met a port that was not routed; each that did releases one too many |
| HandshakeRuns.UnroutedTwice | hifi/xaf/hifi-dpf/audio/xa-class-audio-codec.c:292-328 | a run with two unroute commands in which one pool is obtained and two are released |
| ReleaseRuns.ReleasedInFlightExactly | hifi/xaf/hifi-dpf/core/xf-io.c:495-523 | in every run a release leaves a message of the pool under way if and only if a buffer has bounced during a flush when the control message was on its way back already, or off a sink that was gone or was destroyed before the buffer came to it again |
| ReleaseRuns.ChasedExactly | hifi/xaf/hifi-dpf/audio/xa-class-audio-codec.c:673-756 | after a bounce off a terminating sink with the control message still ahead: safe if and only if the sink is not destroyed before the buffer reaches it |
| ReleaseRuns.FreedInFlight | hifi/xaf/hifi-dpf/audio/xa-class-audio-codec.c:673-756 | a run in which a buffer bounces during a flush: the pool is released while the buffer is in the core queue |
| ReleaseRuns.FreedInTime | hifi/xaf/hifi-dpf/audio/xa-class-audio-codec.c:673-756 | a run in which a buffer bounces during a flush and the terminating sink drops it before the release |
| UnrouteRuns.UnrouteAnsweredExactly | hifi/xaf/hifi-dpf/audio/xa-class-audio-codec.c:292-408 | in every run, a new unroute command that finds the port busy is ever answered if and only if no end of stream was under way when it arrived and, when the flush ends, the source is still in service and no other unroute command has taken its place |
| UnrouteRuns.LostForever | hifi/xaf/hifi-dpf/audio/xa-class-audio-codec.c:217-232 | a command that was passed over at the end of the flush is not answered by any later event |
| FlushRuns.FlushAnsweredExactly | hifi/xaf/hifi-dpf/audio/xa-class-audio-codec.c:331-408 | in every run, a new flush command that finds the output port busy is answered by the end of the flush unless it is passed over (no end of stream was under way when it arrived, the source is in service at the end, an unroute command is waiting by then, no other flush command came); then it is answered if and only if the input port is purged later |
| FlushRuns.PurgeDoneFindsMessage | hifi/xaf/hifi-dpf/core/xf-io.c:345-357 | in every run, when a returned flush command ends the purging sequence exactly one saved message is there to be answered |
| FlushRuns.FlushLost | hifi/xaf/hifi-dpf/audio/xa-class-audio-codec.c:372-378 | a run in which the returned control message answers the unroute command only, and the flush command stays in the input port |
| UnrouteRuns.LostToEndOfStream | hifi/xaf/hifi-dpf/audio/xa-class-audio-codec.c:217-232 | a run that ends idle with the unroute command unanswered: the end of stream was under way when it arrived |
| UnrouteRuns.LostToUnregister | hifi/xaf/hifi-dpf/audio/xa-class-audio-codec.c:673-756 | a run in which the source is unregistered, and destroyed, while the unroute command waits |
| UnrouteRuns.LostToAnother | hifi/xaf/hifi-dpf/core/xf-io.c:463-474 | a run in which a second unroute command takes the place of the first, which is not answered |
| Ring.AdvanceEncodes | hifi/xaf/hifi-dpf/include/xf-proxy.h:93-94 | advancing a packed word advances the counter it encodes, across every wrap-around |
| Ring.EmptyExactly | hifi/xaf/hifi-dpf/include/xf-proxy.h:96-98 | equal words mean equal counters |
| Ring.FullExactly | hifi/xaf/hifi-dpf/include/xf-proxy.h:100-102 | the full test holds exactly when the counters are a ring's length apart |
| RingRuns.ReadsOldest | hifi/xaf/hifi-dpf/core/xf-shmem.c:151-206 | whatever the consumer reads before it releases the slot is the oldest published record, however stale its view |
| RingRuns.WritesUnused | hifi/xaf/hifi-dpf/core/xf-shmem.c:209-290 | the producer never writes a slot that is still to be read, however stale its view |
| RingRuns.RefinesFifo | hifi/xaf/hifi-dpf/core/xf-shmem.c:151-290 | every step of either side refines a FIFO of at most 256 records |
| RingRuns.TestsExact | hifi/xaf/hifi-dpf/include/xf-proxy.h:96-102 | with a fresh view the tests tell exactly whether the FIFO is empty or full |
| RingRuns.RingIsFifo | hifi/xaf/hifi-dpf/core/xf-shmem.c:151-290 | in every interleaving the consumer receives a prefix of what was sent, at most 256 records behind |
| Messages.Queue.Enqueue | hifi/xaf/hifi-dpf/include/xf-msg.h:112-129 | the linked list gets the message at its end; tells whether it was empty |
| Messages.Queue.Dequeue | hifi/xaf/hifi-dpf/include/xf-msg.h:138-154 | the linked list loses its first message, whose link is wiped |
| Messages.Pool.constructor | hifi/xaf/hifi-dpf/core/xf-msg.c:43-64 | all messages are linked in memory order |
| Messages.Pool.Get | hifi/xaf/hifi-dpf/core/xf-msg.c:74-89 | the first free message, or NULL exactly when there is none |
| Messages.Pool.Put | hifi/xaf/hifi-dpf/core/xf-msg.c:92-107 | the message becomes the first free one |
| Shmem.RingBuffer.Put | hifi/xaf/hifi-dpf/core/xf-shmem.c:245-285 | a published record joins the unread ones at their end |
| Shmem.RingBuffer.Take | hifi/xaf/hifi-dpf/core/xf-shmem.c:179-199 | the oldest unread record is read and released |
| Shmem.Places.Submit | hifi/xaf/hifi-dpf/core/xf-core.c:541-557 | a message moves from the hands of the core into its queue; the pool stays partitioned |
| Shmem.Places.NextMessage | hifi/xaf/hifi-dpf/core/xf-core.c:442-454 | the oldest message of the core queue, or none when it is empty, moves into the hands of the core; the pool stays partitioned |
| Shmem.Places.Respond | hifi/xaf/hifi-dpf/core/xf-shmem.c:72-108 | a message moves into the response queue; the pool stays partitioned |
| Shmem.InOnePlace | hifi/xaf/hifi-dpf/core/xf-shmem.c:151-319 | each message of the pool is in exactly one of the free list, the core queue, the response queue and the components' hands, once |
| Shmem.Shmem.ProcessOutput | hifi/xaf/hifi-dpf/core/xf-shmem.c:209-290 | responses move in order into the ring and their messages into the pool, until there are none or the ring is full |
| Shmem.Shmem.ProcessInput | hifi/xaf/hifi-dpf/core/xf-shmem.c:151-206 | commands move in order into free messages and into the core queue, until there are none or no message is free |
| Shmem.Shmem.ProcessQueues | hifi/xaf/hifi-dpf/core/xf-shmem.c:297-319 | against a quiet peer the loop ends, with (response queue empty or ring full) and (command ring empty or pool empty) |
| Shmem.NothingMore | hifi/xaf/hifi-dpf/core/xf-shmem.c:297-319 | a second round changes nothing: the first does all there is to do |
| Clients.ClientMap.constructor | hifi/xaf/hifi-dpf/core/xf-core.c:596-609 | all ids are free, in order |
| Clients.ClientMap.Lookup | hifi/xaf/hifi-dpf/core/xf-core.c:63-69 | a component exactly for live ids |
| Clients.ClientMap.Alloc | hifi/xaf/hifi-dpf/core/xf-core.c:72-80 | fails exactly when all ids are taken; otherwise an id that is not live |
| Clients.ClientMap.Free | hifi/xaf/hifi-dpf/core/xf-core.c:83-87 | the id leaves the live ones and heads the free list |
| Clients.ClientMap.Register | hifi/xaf/hifi-dpf/core/xf-core.c:94-134 | fails exactly when all 64 ids are live or the factory fails, and then changes nothing |
| Clients.FreeXorLive | hifi/xaf/hifi-dpf/core/xf-core.c:63-87 | the free list is acyclic and holds exactly the ids that are not live |
| Core.SwapParts | hifi/xaf/hifi-dpf/core/xf-core.c:560-566 | completion exchanges source and destination |
| Core.AnswerTwice | hifi/xaf/hifi-dpf/core/xf-core.c:560-593 | a message sent back and forth inside the core comes back unchanged |
| Core.Core.Complete | hifi/xaf/hifi-dpf/core/xf-core.c:560-593 | a completed message goes to its sender's side only: the response queue for the proxy, else the core queue with the buffer opcodes exchanged |
| Core.Core.ProxyRegister | hifi/xaf/hifi-dpf/core/xf-core.c:94-134 | registration is answered with the id of the new live component; without a free id or a component nothing changes |
| Core.Core.ProxyCommand | hifi/xaf/hifi-dpf/core/xf-core.c:296-334 | crashes exactly for the command types without a table entry; every other command is answered exactly once, refused ones with a failure |
| Core.UnregisterProxyIsHole | hifi/xaf/hifi-dpf/core/xf-core.c:296-307 | the command types without a table entry |
| Core.Core.Dispatch | hifi/xaf/hifi-dpf/core/xf-core.c:487-534 | a message for a dead component is answered with a failure exactly once; a live component's id is recycled exactly when its exit is complete |
| Core.Core.Deliver | hifi/xaf/hifi-dpf/core/xf-core.c:505-526 | two-stage teardown: the id stays live until the exit function has finished |
| CodecControl.AdvanceKeeps | hifi/xaf/hifi-dpf/audio/xa-class-base.c:384-412 | the phase flags stay one-hot, and the end of a phase is never seen in runtime initialization |
| CodecControl.SettleKeeps | hifi/xaf/hifi-dpf/audio/xa-class-audio-codec.c:558-579 | what was consumed or produced has to be set up again, and nothing else |
| CodecControl.StepKeepsExactly | hifi/xaf/hifi-dpf/audio/xa-class-audio-codec.c:159-408 | every command keeps the flags one-hot and SCHEDULE equal to "the task is in the scheduler, once", except exactly a restart while the flag is set |
| CodecControl.RunKeeps | hifi/xaf/hifi-dpf/audio/xa-class-audio-codec.c:159-756 | so does every run without such a restart |
| CodecControl.NeverReenters | hifi/xaf/hifi-dpf/audio/xa-class-audio-codec.c:673-756 | once cleanup has started the task does not enter the scheduler any more, whatever messages still arrive |
| CodecControl.LeftBehindExactly | hifi/xaf/hifi-dpf/audio/xa-class-audio-codec.c:705-756 | in every run, a component that is cleaning up or destroyed is still in the scheduler if and only if it was restarted with the flag set more often than executed with the flag clear |
| CodecControl.LeftBehind | hifi/xaf/hifi-dpf/audio/xa-class-audio-codec.c:170-193 | a run in which new data clears the flag of a waiting task and cleanup, which follows at once, destroys the component while its task is in the scheduler |
| CodecControl.ScheduledTwice | hifi/xaf/hifi-dpf/audio/xa-class-audio-codec.c:170-193 | a run from a fresh component: a completed stream, a route command and new data put the task into the scheduler twice |
| Codec.Codec.BaseSchedule | hifi/xaf/hifi-dpf/audio/xa-class-base.c:459-473 | schedules unless the flag is set; no other task is touched |
| Codec.Codec.BaseCancel | hifi/xaf/hifi-dpf/audio/xa-class-base.c:476-488 | cancels if the flag is set; no other task is touched |
| Codec.Codec.SetParams | hifi/xaf/hifi-dpf/audio/xa-class-base.c:193-201 | the first parameters end the static setup |
| Codec.Codec.PutInput | hifi/xaf/hifi-dpf/audio/xa-class-audio-codec.c:159-198 | new data refines the control transition; flag and scheduler stay coupled unless the stream is restarted while the task waits |
| Codec.Codec.PutOutput | hifi/xaf/hifi-dpf/audio/xa-class-audio-codec.c:201-259 | a returned buffer refines the control transition |
| Codec.Codec.RoutePort | hifi/xaf/hifi-dpf/audio/xa-class-audio-codec.c:262-289 | routing refines the control transition |
| Codec.Codec.UnroutePort | hifi/xaf/hifi-dpf/audio/xa-class-audio-codec.c:292-328 | unrouting refines the control transition |
| Codec.Codec.FlushPort | hifi/xaf/hifi-dpf/audio/xa-class-audio-codec.c:331-408 | flushing refines the control transition |
| Codec.Codec.Process | hifi/xaf/hifi-dpf/audio/xa-class-base.c:369-416 | an execution refines the control transition |
| Codec.Codec.Service | hifi/xaf/hifi-dpf/core/xf-core.c:673-681 | the task taken from the scheduler is executed; the coupling of flag and scheduler holds again afterwards |
| Codec.Codec.Terminate | hifi/xaf/hifi-dpf/audio/xa-class-audio-codec.c:726-756 | after the first stage of the destruction the task does not wait |
| ExtParam.RoundExact | hifi/xaf/hifi-dpf/audio/xa-class-base.c:270-270 | 16-bit rounding up is right exactly for lengths up to 65532 |
| ExtParam.RoundTrip | hifi/xaf/host-apf/include/xf-opcode.h:244-257 | what the host lays out, with any padding, is parsed into the same parameters with nothing remaining |
| ExtParam.ParsedIsLaid | hifi/xaf/hifi-dpf/audio/xa-class-base.c:244-305 | a parse without error means that the bytes are a layout of what was found |
| ExtParam.ClearedParses | hifi/xaf/hifi-dpf/audio/xa-class-base.c:281-282 | zeroing the padding does not change what is parsed |
| ExtParam.Write | hifi/xaf/host-apf/include/xf-opcode.h:244-257 | the macros lay out any list of parameters one after the other |
| ExtParam.TakeAll | hifi/xaf/hifi-dpf/audio/xa-class-base.c:265-294 | the loop hands out exactly the parameters in the message up to the first that the plugin rejects, reports the length error exactly, and zeroes padding and nothing else; it writes beyond the message exactly when it reaches a length that cannot be rounded up in 16 bits |
| ExtParam.OverrunExactly | hifi/xaf/hifi-dpf/audio/xa-class-base.c:268-282 | a write beyond the message happens if and only if a descriptor with a length above 65532 is reached |
| ExtParam.TooLongIsBeyond | hifi/xaf/hifi-dpf/audio/xa-class-base.c:268-282 | there the rounded length is zero, the padding is not empty, and it lies behind the message |
| ExtParam.SetParamExt | hifi/xaf/hifi-dpf/audio/xa-class-base.c:244-305 | the same for a message length taken as a 16-bit number |
| ExtParam.SendParams | hifi/xaf/hifi-dpf/audio/xa-class-base.c:244-305 | host and codec together: the codec finds what the host has laid out, up to the first parameter that the plugin rejects |
| CrcTable.TableIsDivision | installer/hikey/hisi-idt.py:20-54 | all 256 entries are the result of eight division steps |
| Crc.StepByteByTable | installer/hikey/hisi-idt.py:90-92 | one table step equals eight single-bit steps |
| Crc.CalcCrc | installer/hikey/hisi-idt.py:90-95 | the arithmetic on a number that is never masked but at the end gives the 16-bit register after the data and two zero bytes |
| Crc.ShiftInIs | installer/hikey/hisi-idt.py:92-92 | shifting a byte into the unmasked number moves its register by one byte |
| Crc.XorWordIs | installer/hikey/hisi-idt.py:92-92 | exclusive or of the unmasked number with a table entry changes the register only |
| Crc.PartsAre | installer/hikey/hisi-idt.py:92-95 | second byte and last sixteen bits of the unmasked number are those of the register |
| Crc.SelfChecking | installer/hikey/hisi-idt.py:116-166 | data followed by its two checksum bytes has checksum zero |
| Division.DividesMore | installer/hikey/hisi-idt.py:90-95 | one bit of long division: the bit that falls out of the register is the next bit of the quotient |
| Division.ChecksumIsRemainder | installer/hikey/hisi-idt.py:90-95 | the message times x^16 is a multiple of the generator plus the checksum |
| Division.RemainderUnique | installer/hikey/hisi-idt.py:90-95 | no other 16-bit remainder has this property |
| Frames.FramesCheck | installer/hikey/hisi-idt.py:144-178 | the data frames are numbered in order and each has checksum zero |
| Frames.FramesCarryData | installer/hikey/hisi-idt.py:168-177 | their payloads together are the data |
| Frames.FramesFull | installer/hikey/hisi-idt.py:168-177 | all but the last carry 1024 bytes, and there is always one |
| Frames.Word32Decodes | installer/hikey/hisi-idt.py:126-133 | decoding the four bytes that are sent of a length or an address gives the number modulo 2^32 |
| Frames.HeadCarries | installer/hikey/hisi-idt.py:124-141 | length and address modulo 2^32 are read back from the head frame |
| Frames.EndsCheck | installer/hikey/hisi-idt.py:116-166 | head and tail frames have checksum zero |
| Frames.Downloader.SendData | installer/hikey/hisi-idt.py:168-177 | a file goes out as head frame, data frames from number 1 and tail frame with the next number |
| Frames.Downloader.SendHeadFrame | installer/hikey/hisi-idt.py:124-141 | the header list edited in place carries this file's length and address |
| H4.MoreBytes | bluetooth/hci_packetizer.cc:50-86 | more bytes only add packets behind those found, from the current packet on |
| H4.H4Protocol.OnDataReady | bluetooth/h4_protocol.cc:57-66 | whatever the size of the piece, the packets delivered are those of the bytes read so far; fails exactly when nothing comes or a command packet is complete; a failed read goes unnoticed, and puts the parser out of step, exactly within a packet |
| H4.H4Protocol.LoseByte | bluetooth/hci_packetizer.cc:53-79 | a failed read counts as minus one byte: no state that fits the stream is left |
| H4.H4Protocol.ReadPieces | bluetooth/hci_packetizer.cc:50-86 | pieces are read up to the first that the parser does not take, and the packets delivered are those of the bytes read |
| H4.H4Protocol.ReadPreamble | bluetooth/hci_packetizer.cc:52-68 | the preamble is collected over any number of reads and then tells the length |
| H4.H4Protocol.ReadPayload | bluetooth/hci_packetizer.cc:70-84 | the payload is collected over any number of reads; the last byte delivers the packet |
| H4.H4Protocol.AsksForNothing | bluetooth/hci_packetizer.cc:58-75 | the parser asks for zero bytes, and then fails, exactly at a packet without payload |
| H4.ChunkingIrrelevant | bluetooth/hci_packetizer.cc:50-86 | two readers that have read as far have delivered the same packets |
| H4.ParseEncoded | bluetooth/h4_protocol.cc:29-66 | the packets in a stream of encodings are those encoded, with nothing left |
| H4.RoundTrip | bluetooth/h4_protocol.cc:29-66 | a stream of complete sends arrives as the packets sent, in whatever pieces |
| H4.NeverStuck | bluetooth/hci_packetizer.cc:50-86 | in such a stream the parser never meets a command or an empty payload |
| H4.Line.WriteSafely | bluetooth/hci_protocol.cc:47-69 | the bytes on the line are the reported prefix of the data, through any partial writes and retries |
| H4.Line.Send | bluetooth/h4_protocol.cc:29-35 | type byte and data go out in order; the result counts the data bytes |

## Left out

- Red-black balance: which rotation and colour a node gets is arbitrary in `RbTree`; the depth of the tree is not bounded.
- Tree nodes as linked structures in memory: links, parent pointers and sharing of a block's header with its tree nodes are not modelled; trees are values.
- Cache maintenance, mutexes, interrupt masking, inter-processor interrupts, address translation and the queue of responses submitted from interrupt context: queue operations are atomic steps on one core.
- More than one DSP core: message ids whose core bits differ go through another queue that is not part of this model.
- Codec plugins, tracing, profiling, the component factory table and the contents of configuration commands.
- RbTree.DeleteInOrder: the two parts left by a removed node are joined in a way that is right for every shape; rbtree.c:748 tells the side of a child by comparing indices, which is right only for trees with red-black balance.
- OutputPort.Port.Unroute: for a routed port only; `OutputPort.UnrouteRestoresExactly` says that on any other it is wrong, and what memory looks like afterwards is not described.
- OutputPort.Port.Route: the alignment argument; every allocation is aligned to the descriptor's size.
- OutputPort.UnroutePort: on a port that is not routed it stops before the release, whose effect on the allocator is not described.
- Handshake: the sink receives messages of this source only, its input port is used by no one else, and a flush command reaches the source's output port only as the returning control message; application buffers are not queued on the port before it is routed, and the client id of a component that is gone is not given to a new one (xf-core.c:72-87 hands out the last freed id first), so messages to it bounce; a plugin's fatal error after it has queued a message is not a step of the machine. The source produces nothing while a flush is going on: processing is cancelled when a flush starts (xa-class-audio-codec.c:303, 347) and the core drains its messages before it runs a task (xf-core.c:653-682); a returning buffer may schedule the task again (xa-class-audio-codec.c:248-256), so this is an assumption about sinks that keep the control message, and `HandshakeRuns.ProduceKeepsExactly` says that it is needed.
- InputPort.Port.Put: nothing but the saved flow-control message is put while the port is purging.
- Codec.Codec.PutInput: a restart that puts the waiting task into the scheduler once more is excluded, because a tree node that is linked twice is not modelled; `CodecControl` counts the entries instead, and what a task does that is executed out of service is not described.
- Core.Core.Complete: ids whose core bits are those of this core; the source would send others through the queue of another core.
- Scheduler.Sched.Put: timestamps less than half the 32-bit range after the scheduler's time; the source takes any, and `Deadlines.LooksPast` shows that the order is lost exactly beyond.
- Scheduler.Sched.Schedule: distances of half the 32-bit range or more are excluded; `Deadlines.LooksPast` shows that the order is lost exactly there.
- Shmem.Shmem.ProcessQueues: the peer does not move its indices meanwhile; the interleaving of both sides is the subject of `RingRuns`.
- The core's service loop as a whole: components may send messages to each other for ever, so it need not end.
- ExtParam.SetParamExt: what happens after a write beyond the message; retrieval of parameters repeats the same loop.
- H4.H4Protocol.constructor: the stream's packet types are at most 4, the size of the source's tables.
- `xf_timebase_factor`, the duration of frames and the sample counters.
- The mixer class and the host's `xaf-api.c` and `xf-fio.c`: they repeat the port and flag machinery or are device plumbing.
- Serial retries and acknowledgements of the boot downloader, and everything else of the repository: graphics memory, audio, power and sensor HALs, firmware loaders and scripts.
