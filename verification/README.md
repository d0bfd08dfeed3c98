# A verified model of the reactor server and its AI gateway

The repository is a C++ network server built as a reactor (one event loop per thread, a poller under each), with a
slot allocator and an LFU cache beside it, and a small AI gateway with registered users on top. This project models
the parts whose correctness rests on state and arithmetic, in the form the C++ has, and proves what they promise
over every run and every interleaving.

| files | part of the system |
|---|---|
| `LfuSpec`, `LfuTheorems`, `LfuEffects`, `FreqList`, `LfuCache` | the LFU cache with aging: on values, its theorems, what each call does, and the linked lists and maps that carry it |
| `Sharding`, `ShardedCache` | the cache split by key hash |
| `PoolSpec`, `PoolTheorems`, `MemoryPool`, `HashBucket` | the slot allocator, its free list threaded through the slots, and the 64 size classes |
| `Buffer`, `ConnectionState`, `ConnectionSpec`, `ConnectionTheorems`, `ConnectionHistory`, `TcpConnection` | the byte buffer and a connection: reads, partial writes, write interest, close and half-close, shutdown from other threads |
| `LoopSpec`, `LoopHistory`, `EventLoop` | wake-ups and queued functors, interleaved with other threads |
| `Lifecycle`, `LifecycleTheorems`, `LifecycleHistory`, `LateShutdown`, `Decimal`, `TcpServer` | connections from accept to destruction across the base loop and the I/O loops |
| `PollerSpec`, `Pollers` | the poll and epoll registries and event dispatch |
| `Json`, `JsonTable`, `JsonFields` | the JSON printer and the two substring readers, against the syntax of JSON and over whole objects |
| `AiClient`, `ChatBody` | the chat entry point over the cache, and what is read of its answers |
| `UserRecords`, `UserFile`, `UserStore`, `UserTheorems`, `UserRestarts` | the user file, registration with its limiter, restarts, and appends that broke off |

Most parts come twice. A specification on values has a `Step` function, a `Legal` predicate (what the caller, the
kernel or another thread may do) and runs of steps; the theorems are about all legal runs. A class has the fields and
methods of the C++ class. The `ensures` of a method that is one step says that its effect on the fields is that
`Step`; the methods of the event loop that take many say which steps the loop's own thread took, in order, and that
the whole history is these steps woven into a schedule of the other threads, point by point. Results of system calls,
addresses from `operator new`, clock readings, salts, file failures and the order in which an `unordered_map` is
walked are parameters, and the theorems hold for all of them.

The effect of a `Step` is then stated once more without it: the files ending in `Effects` and `History` tell the state
from the entry before a call, or from the calls of the whole run, with every number written out; `JsonTable` compares
printer and readers with the escape table of RFC 8259.

Some promises turned out to hold only under a condition. Each is stated as an equivalence:

- `minFreq_` is exact in every reachable state if and only if `maxAverageNum` is between 2 and 250. Below, aging
  subtracts nothing; above, it can leave 127 as the least frequency, which is the sentinel. The size stays within the
  capacity under the same condition.
- A restart rebuilds the users exactly if and only if nobody is called `salt` or `password_hash`: the key search takes
  those names, in the value of `username`, for keys. The documented rules for usernames (README.md:289-293) admit both;
  the model follows the code. The same holds for any number of restarts between registrations.
- An append that breaks off after n characters leaves a line to which the next user's is glued. A reload still finds
  every user behind it if and only if there are none, n is at most 11, or the line was whole.
- No wake-up is lost if and only if whatever was queued before `loop()` came with a wake-up. The loop's own thread
  queues without one.
- `shutdown()` tests the state and then sets it. From another thread the two can be torn apart: a connection's state
  moves back from `kDisconnected` if and only if `handleClose` comes between them. No stage of its lifetime moves back.
- The `shutdownInLoop` that such a shutdown queues binds a raw pointer. It runs on a connection that the server holds no
  more if and only if it was queued after `connectDestroyed` had been taken out of the queue, and the base loop has let go
  of the vector with the removal.
- A shutdown from another thread brings at most one half-close, whatever follows, if and only if the output buffer is
  empty at the call. On the loop's own thread it happens once at most.
- The codec's and the client's JSON readers agree on a field if and only if the client finds nothing or a quote comes
  next behind the first colon after the key.
- What the printer makes of a text is the JSON string for it if and only if the text has no control characters but line
  feed, carriage return and tab; otherwise it is no JSON string. Both readers read a JSON string as what it stands for if
  and only if it has no escape `\b`, `\f` or `\u`.
- In a chat answer the message, the reply and the flags are always read back as they are; the provider and the model are
  not when the message (for the model: or the reply) is or ends with the quoted name of the field. The exact value read
  then is part of `BodyReads`.
- With empty masks counted, the two pollers have the kernel watch the same descriptors if and only if none that asks for
  nothing was added to epoll again by one more update that asks for nothing.
- Slots handed out are a slot apart in every run if and only if the slot size is a multiple of 8.
- The padding aligns blocks to the slot size if and only if that divides 2^64 (or the address is small); it always
  aligns to every power of two that divides the slot size.

## Model

| member | source | states |
|---|---|---|
| LfuTheorems.RunKeeps | include/LFU.h:173-317 | in every state put, get and purge can reach, for 2 <= maxAverageNum <= 250: minFreq_ is the least frequency present and at most maxAverageNum_, curTotalNum_ bounds the sum of the frequencies, and the size is within capacity |
| LfuTheorems.MinFreqExactIff | include/LFU.h:304-317 | minFreq_ is exact in every reachable state if and only if 2 <= maxAverageNum <= 250: the sentinel INT8_MAX never misfires inside the range and some run breaks it outside |
| LfuTheorems.OutOfRangeBreaks | include/LFU.h:274-317 | for every maxAverageNum outside the range, a run that leaves minFreq_ at 1 while the only entry has frequency 127 or more |
| LfuTheorems.OutOfRangeCannotEvict | include/LFU.h:210-217 | outside the range a full one-entry cache reaches a state whose next new key finds no node in the list of minFreq_ |
| LfuTheorems.SizeBoundIff | include/LFU.h:192-217 | the size stays within the capacity in every run of every cache if and only if 2 <= maxAverageNum <= 250: outside, a full cache finds only the tail sentinel to evict, drops nothing and takes the new key |
| LfuTheorems.EvictionDefined | include/LFU.h:210-217 | with the invariant, the list of minFreq_ always has a first node to evict |
| LfuTheorems.EvictionIsLfu | include/LFU.h:192-217 | a put of a new key into a full cache drops exactly one entry: least in frequency and, among equals, the one that reached that frequency first; every other value stays |
| LfuTheorems.AddFreqNumKeeps | include/LFU.h:248-302 | counting an access, with or without an aging pass, keeps frequencies positive, the total above their sum and the least frequency within maxAverageNum_, for every order in which the pass visits the nodes |
| LfuTheorems.TouchKeeps | include/LFU.h:173-190 | promoting a node keeps minFreq_ the least frequency, although it is only ever raised by one |
| LfuTheorems.PutNewKeeps | include/LFU.h:192-208 | inserting a new key, after an eviction if the cache is full, keeps the invariant |
| LfuTheorems.StepKeeps | include/LFU.h:101-146 | each of put, get and purge keeps the invariant and the settings |
| LfuTheorems.StepStamps | include/LFU.h:219-246 | whatever maxAverageNum is, each of put, get and purge leaves the entries in a strict order of arrival in their lists |
| LfuTheorems.StepPositive | include/LFU.h:219-317 | whatever maxAverageNum is, frequencies and minFreq_ stay at 1 or more |
| LfuTheorems.StepValues | include/LFU.h:101-132 | a step changes the value of no key but the one that is put |
| LfuTheorems.PutIsCached | include/LFU.h:101-118 | a key just put is cached with its value, whatever aging or eviction the put brought about |
| LfuTheorems.GoneIff | include/LFU.h:101-146 | a cached key goes exactly when the cache is purged or it is the victim of a new key put into a full cache; where the list of minFreq_ is empty none goes |
| LfuTheorems.HitIsLastPut | include/LFU.h:101-146 | for every maxAverageNum and capacity: in every run a hit returns the value last put for that key, and a cache of capacity 0 stays empty |
| LfuTheorems.AgeAll | include/LFU.h:274-298 | whatever order the aging pass takes, each entry ends at its frequency less half the limit, at least 1, with its value |
| LfuEffects.PutHit | include/LFU.h:101-118 | a put of a cached key counts as an access: it leaves the key with the value, a frequency higher by one and the newest place in its list, every other entry as it was, and the total higher by one, all followed by one aging pass if and only if the average then exceeds maxAverageNum_ |
| LfuEffects.GetHit | include/LFU.h:120-132 | a hit does the same and leaves the value |
| LfuEffects.PutNewRoom | include/LFU.h:192-208 | a new key with room left comes in at frequency 1 and is counted, and nothing else changes unless a pass follows |
| LfuEffects.PutNewFull | include/LFU.h:192-217 | in a full cache one entry goes first, with frequency minFreq_ and the oldest place in its list, and its frequency is taken off the total; then the new key comes in the same way |
| LfuEffects.PutNothingOut | include/LFU.h:210-217 | where the list of minFreq_ is empty nothing goes, 1 is taken off the total, and the new key comes in |
| LfuEffects.NoEffect | include/LFU.h:101-146 | a miss and a put into a cache of capacity 0 change nothing; a purge drops the entries and keeps every counter |
| LfuEffects.FrequencyCounts | include/LFU.h:173-190 | over any run in which a key stays cached and no pass ages it, its frequency grows by exactly the number of its puts and hits |
| FreqLists.FreqList.AddNode | include/LFU.h:55-65 | the node becomes the last of the list, and the list is well linked in both directions |
| FreqLists.FreqList.RemoveNode | include/LFU.h:67-78 | the node leaves its place in the list, the neighbours are joined and its own links are cleared |
| FreqLists.FreqList.GetFirstNode | include/LFU.h:80 | the first node is the oldest, or the tail sentinel of an empty list |
| LfuCaches.FiledOnce | include/LFU.h:219-246 | every cached key is in exactly one list, at one position, the list of its own frequency; lists hold nothing else |
| LfuCaches.HeadIsVictim | include/LFU.h:210-217 | the first node of the list of minFreq_ is the entry least in frequency that reached it first |
| LfuCaches.Unfile | include/LFU.h:219-228 | taking a node out of its list leaves every other node filed exactly once |
| LfuCaches.Refile | include/LFU.h:230-246 | putting it at the end of another list files it exactly once again |
| LfuCaches.KLfuCache.UpdateMinFreq | include/LFU.h:304-317 | the scan over the lists finds the least frequency of the entries, capped by the sentinel |
| LfuCaches.KLfuCache.AgeAllNodes | include/LFU.h:280-298 | the pass over the nodes, relinking each as it goes, ages every entry once and leaves all lists well linked |
| LfuCaches.KLfuCache.AddFreqNum | include/LFU.h:248-261 | on linked lists, the same access count, average and aging as on values |
| LfuCaches.KLfuCache.GetInternal | include/LFU.h:173-190 | relinking one node and counting the access is the promotion of that entry |
| LfuCaches.KLfuCache.KickOut | include/LFU.h:210-217 | the node taken from the head of the list of minFreq_ is the victim, gone from the map and its list; of an empty list it is the tail sentinel, which stays, and 1 is deducted from the count |
| LfuCaches.KLfuCache.Put | include/LFU.h:101-118 | for every maxAverageNum: put over pointers, lists and maps is one step of the cache on values (of a cached key the one of `PutHit`, of a new key that of `PutNewRoom`, `PutNewFull` or `PutNothingOut`) and keeps all lists well linked, also when a full cache finds only the tail sentinel to evict (unless the empty string is then a key) |
| LfuCaches.KLfuCache.Get | include/LFU.h:120-132 | for every maxAverageNum: get returns the value of the key, or nothing, and is one step of the cache on values: that of `GetHit` for a cached key, none for another |
| LfuCaches.KLfuCache.Purge | include/LFU.h:141-146 | purge empties map and lists and keeps the counters, as the source does |
| ShardSpec.CeilBound | include/LFU.h:324-333 | n slices of the rounded-up size hold at least capacity and less than capacity + n entries in all |
| ShardSpec.SliceIsACache | include/LFU.h:320-363 | in every run each slice is exactly the single cache of its share of the capacity and the same maxAverageNum that has met just the calls on keys of its remainder, and every purge, in their order |
| ShardSpec.SliceOfKey | include/LFU.h:335-340 | a key has one slice, the remainder of its hash by the number of slices |
| ShardSpec.ShardRunKeeps | include/LFU.h:320-363 | in every run every slice keeps its invariant and fewer than capacity + n entries are resident |
| ShardSpec.ShardCanPut | include/LFU.h:335-340 | in the states of such runs every key finds room in its slice, so the sharded put can always be made |
| ShardSpec.ShardHitIsLastPut | include/LFU.h:335-347 | in every run of the sharded cache a hit returns the value last put for that key, whatever the hash |
| ShardSpec.ShardPutIsCached | include/LFU.h:335-340 | right after a put the key is found in its slice, with its value |
| ShardSpec.ShardOthersKeep | include/LFU.h:335-347 | a put lets any other key be found with the value it had or not at all; a get changes no lookup of any key |
| ShardSpec.LeavesOnlyFull | include/LFU.h:320-363 | in every run, for maxAverageNum from 2 to 250: a key leaves other than by purge only when a new key of its own slice is put, and only when that slice holds at least capacity / n entries |
| ShardedCaches.KHashLfuCache.Put | include/LFU.h:335-340 | a put reaches exactly the slice of its key and leaves the others alone |
| ShardedCaches.KHashLfuCache.Get | include/LFU.h:342-347 | a get answers from the slice of its key |
| ShardedCaches.KHashLfuCache.Purge | include/LFU.h:356-363 | every slice is purged |
| PoolSpec.PadResidue | memory/memoryPool.cc:96-100 | the padding is below the slot size; the padded address is a multiple of it for small addresses and congruent to 2^64 for all others |
| PoolSpec.PadAlignsIff | memory/memoryPool.cc:96-100 | beyond the smallest addresses the padding aligns to the slot size exactly when that divides 2^64 |
| PoolSpec.PadAligns | memory/memoryPool.cc:85-87 | every common divisor of the slot size and 2^64 divides the address of the first slot of a block |
| PoolTheorems.RunKeeps | memory/memoryPool.cc:33-93 | for every slot size from 8 up: every run of allocations and frees keeps blocks apart, the cursor on a slot boundary, and every slot ever cut either live or free, once |
| PoolTheorems.RunPointers | memory/memoryPool.cc:33-93 | in every run two pointers handed out and not yet freed are as many whole words apart as a slot has, so a whole slot when its size is a multiple of 8; each lies inside one block and past its 8-byte header |
| PoolTheorems.RunConserves | memory/memoryPool.cc:35-75 | in every run the slots ever cut are the disjoint union of the live slots and the free list, which has no repetition |
| PoolTheorems.SlotInBlock | memory/memoryPool.cc:77-93 | a slot lies wholly inside one block, past its header |
| PoolTheorems.SlotsDisjoint | memory/memoryPool.cc:49-63 | two slots, live or free, of one block or of two, are a stride of whole words apart, and never overlap when the slot size is a multiple of 8 |
| PoolTheorems.SlotAligned | memory/memoryPool.cc:58-60 | what divides the slot size and 2^64 divides every pointer handed out, for multiples of 8 and all other sizes |
| PoolTheorems.TailShort | memory/memoryPool.cc:89-90 | a block that is left behind, or used up, has no room for another stride and slot at its end |
| PoolTheorems.OpensOnlyWhenAllLive | memory/memoryPool.cc:92 | a block is opened only when every slot cut so far is live, so clearing the free list there drops nothing |
| PoolTheorems.AllocHandsOut | memory/memoryPool.cc:33-64 | an allocation hands out one slot that was not live, never null |
| PoolTheorems.AllocTakes | memory/memoryPool.cc:33-93 | an allocation takes the slot freed last; else the next slot of the newest block; a block is opened exactly when none is free and no whole slot is left in the newest, and its first slot lies within one slot behind the 8-byte link |
| PoolTheorems.ReuseIsLifo | memory/memoryPool.cc:66-75 | after freeing any live slots, as many allocations hand them out in reverse order and restore the pool |
| PoolTheorems.NeighboursApartIff | memory/memoryPool.cc:58-60 | the cursor moves by whole words: neighbouring slots stay apart exactly when the slot size is a multiple of 8 |
| PoolTheorems.HandsOutApartIff | memory/memoryPool.cc:33-93 | over all runs of a pool whose blocks hold three slots: every allocation hands out memory a whole slot away from all that is live if and only if the slot size is a multiple of 8 |
| MemoryPools.MemoryPool.Allocate | memory/memoryPool.cc:33-64 | over raw pointers and the threaded free list, one step of the pool on values; no word of a live slot is touched |
| MemoryPools.MemoryPool.AllocateNewBlock | memory/memoryPool.cc:77-93 | the new block is linked in front of the others and the cursor set past header and padding; no live slot is touched |
| MemoryPools.MemoryPool.Deallocate | memory/memoryPool.cc:66-75 | the slot goes to the head of the free list, threaded through its own first word; no other live slot is touched |
| MemoryPools.MemoryPool.Write | include/memoryPool.h:86-93 | what the owner builds in its slot, word by word, disturbs neither the free list nor the block list nor another slot |
| MemoryPools.MemoryPool.Destroy | memory/memoryPool.cc:9-21 | the destructor gives each block back exactly once, newest first, whatever owners wrote |
| HashBuckets.ClassFits | include/memoryPool.h:55-64 | the class of a request is the smallest multiple of eight bytes that holds it, and one of the 64 |
| HashBuckets.OwnedDisjoint | include/memoryPool.h:55-77 | pieces held at the same time never overlap, across all size classes and the large ones |
| HashBuckets.RunSound | include/memoryPool.h:55-77 | every sequence of requests and frees over all 64 pools and the system keeps blocks, slots and large pieces apart |
| HashBuckets.RunDisjoint | include/memoryPool.h:55-77 | in every such run any two pieces held are disjoint |
| HashBuckets.UseRoutes | include/memoryPool.h:55-64 | size 0 gets null; more than 512 bytes get what the system gives; any other size gets a slot not yet live of the one pool, of blocks of 4096 bytes, whose slots hold it with less than 8 bytes to spare, and no other pool changes |
| HashBuckets.FreeThenUse | include/memoryPool.h:66-77 | a small piece given back is the very next one handed out in its class, and both calls together leave all pools as they were |
| HashBuckets.HashBucket.constructor | memory/memoryPool.cc:102-108 | sixty-four empty pools with slot sizes 8, 16, ..., 512 |
| HashBuckets.HashBucket.UseMemory | include/memoryPool.h:55-64 | null for size 0, the system for more than 512 bytes, else a slot of the pool of the class; no live slot is touched |
| HashBuckets.HashBucket.FreeMemory | include/memoryPool.h:66-77 | the piece goes back where it came from; no live slot is touched |
| Buffers.Buffer.Append | include/Buffer.h:64-69 | the bytes join the end of the queue; the array is replaced only when they do not fit after moving |
| Buffers.Buffer.EnsureWritableBytes | include/Buffer.h:55-61 | room for the bytes, same contents, same array whenever there is room at all |
| Buffers.Buffer.MakeSpace | include/Buffer.h:83-104 | both branches keep the contents: the array grows by exactly what is missing, or an overlapping forward copy moves the bytes to the front |
| Buffers.Buffer.Retrieve | include/Buffer.h:28-38 | the first bytes leave the queue, or all of them |
| Buffers.Buffer.RetrieveAsString | include/Buffer.h:47-52 | the bytes asked for are copied and leave the queue: what is returned followed by what is left is what was there; asked for more than is readable, all that is readable comes first and the buffer is reset |
| Buffers.Buffer.ReadFd | src/Buffer.cc:15-59 | however many bytes arrive, up to what was offered, all are appended in order although they are split between array and extra area; an error changes nothing |
| Buffers.Fifo | include/Buffer.h:28-69 | over a whole run: everything taken, then what is left, is everything put |
| Buffers.Drive | include/Buffer.h:28-69 | a run on the real buffer takes out and leaves what the queue does |
| ConnectionSpec.RunKeeps | src/TcpConnection.cc:63-160 | in every run: what the kernel took followed by what waits is what was accepted; while the connection is up, write events are asked for exactly when bytes wait |
| ConnectionTheorems.NothingLost | src/TcpConnection.cc:63-141 | without a broken pipe, written bytes followed by waiting ones are everything sent while connected, in order |
| ConnectionTheorems.HalfCloseIsClean | src/TcpConnection.cc:144-160 | until the connection closes, a half-close happens only when every accepted byte is written |
| ConnectionTheorems.ClosedForSending | src/TcpConnection.cc:63-76 | once shut down or closed nothing more is accepted and the connection never comes up again, also when another thread sets kDisconnecting after the close; a closed connection writes nothing more |
| ConnectionTheorems.HalfClosesOnce | src/TcpConnection.cc:144-160 | shut down on the loop thread only, a connection half-closes at most once in any run |
| ConnectionTheorems.HalfClosesTwiceIff | src/TcpConnection.cc:144-160 | of one run with one shutdown from another thread: it half-closes twice exactly when bytes waited at the call and none are left when the loop gets to the queued call |
| ConnectionTheorems.HalfClosesOnceIff | src/TcpConnection.cc:144-160 | with one other thread between test and set of shutdown(): at most one half-close in every continuation if and only if, when it sets the state, the connection is up with an empty output buffer, or has closed without a half-close made or queued |
| ConnectionTheorems.CallOnceIff | src/TcpConnection.cc:144-160 | for a caller on another thread whose test and set are not interrupted: at most one half-close whatever follows, if and only if the output buffer is empty at the call |
| ConnectionTheorems.TwoHalfCloses | src/TcpConnection.cc:144-160 | a run from the start with two half-closes: one byte waits at the call and is written before the queued call runs |
| ConnectionTheorems.HalfClosesBound | src/TcpConnection.cc:144-160 | in every run at most one more half-close than there are shutdowns from other threads |
| ConnectionTheorems.Drains | src/TcpConnection.cc:206-239 | after shutdown, whatever else happens short of a close: with as many write events as bytes waiting, each taking something while any are left, all accepted bytes are written, write interest is off and draining has brought its half-close, the only one unless other threads shut down too |
| ConnectionTheorems.CallbacksIff | src/TcpConnection.cc:92-139 | the high-water callback is queued exactly when a send lifts the waiting bytes to the mark, the write-complete callback exactly when the last byte goes to the kernel |
| ConnectionHistories.StateIs | src/TcpConnection.cc:144-250 | after every run the state is told by the operations alone: up from the establishing until the first shutdown, destruction, hang-up or end of the stream; closed if and only if the run holds an end of the stream, a hang-up, or a destruction while up; reading from the establishing until that |
| ConnectionHistories.InputIsDataRead | src/TcpConnection.cc:185-204 | after every run the input is all that was read, in order, with one message for each read that brought bytes and one error, with its number, for each that failed |
| ConnectionHistories.FailedReadOnlyTells | src/TcpConnection.cc:185-204 | a failed read changes nothing but that it tells the error handler |
| ConnectionHistories.BytesMove | src/TcpConnection.cc:82-141 | a send with nothing waiting, and a write event, hand to the kernel exactly the bytes it took; a send while up is taken on whole, unless nothing waits and the kernel refuses it for good; the rest waits |
| ConnectionHistories.HalfCloseIff | src/TcpConnection.cc:144-160 | the write side is shut down by the loop's own shutdown and by a queued call when no write event is awaited, by the write event that hands over the last byte after a shutdown, and by nothing else |
| ConnectionHistories.ShutdownsConserved | src/TcpConnection.cc:144-152 | in every run each shutdown() of another thread that found the connection up sets the state once, and each setting queues one call; the mark and the callbacks stay as they were set |
| TcpConnections.TcpConnection.SendInLoop | src/TcpConnection.cc:82-141 | over the real buffer, the direct write, the fault and the buffering of the rest are one send on values |
| TcpConnections.TcpConnection.Enqueue | src/TcpConnection.cc:125-140 | the rest joins the output buffer, write interest is on, and the mark is checked against the old length |
| TcpConnections.TcpConnection.HandleWrite | src/TcpConnection.cc:206-239 | over the real buffer, one write event on values |
| TcpConnections.TcpConnection.ShutdownOnLoop | src/TcpConnection.cc:144-160 | state change and half-close, one step on values |
| TcpConnections.TcpConnection.SetElsewhere | src/TcpConnection.cc:144-152 | on another thread the state is set whatever it has become since the test, and the rest is queued; one step on values |
| TcpConnections.TcpConnection.HandleRead | src/TcpConnection.cc:185-204 | over the real buffer, one read on values: of `InputIsDataRead`, `FailedReadOnlyTells` and, for the end of the stream, the close of `StateIs` |
| TcpConnections.TcpConnection.HandleClose | src/TcpConnection.cc:241-250 | a hang-up, one step on values |
| LoopSpec.NoLostWakeupIff | src/EventLoop.cc:107-206 | no interleaving of the loop and other threads lets it block over pending work or a quit with no wake-up written or on its way, if and only if whatever was queued before the loop began came with a wake-up |
| LoopSpec.FirstPollBlocks | src/EventLoop.cc:107-119 | work queued by the loop's own thread before loop(), with no wake-up, meets a blocking first poll |
| LoopSpec.RunKeeps | src/EventLoop.cc:107-240 | the step invariant behind both promises holds in every interleaving |
| LoopSpec.RunsConserve | src/EventLoop.cc:169-240 | at every point: functors run, then the rest of the batch, then what is pending, is the push order |
| LoopSpec.PassRunsTheSwap | src/EventLoop.cc:224-240 | a pass runs exactly the functors pending at its swap, in order, once each, whatever is queued meanwhile |
| LoopSpec.PendingSinceSwap | src/EventLoop.cc:224-232 | until the next swap what is pending is exactly what was queued since the last one, in order |
| LoopSpec.ExitLeaves | src/EventLoop.cc:107-135 | when the loop exits, everything queued before its last swap has run, in order, and what is left pending is exactly what was queued since |
| LoopHistories.RunLeaves | src/EventLoop.cc:107-240 | after every run: what was queued is what was pushed, by whomever, in order; each start took one functor; the loop exits exactly when it tests quit_ after a request, and nothing else sets it; every request of another thread has one wake-up, done or on its way; the pipe or eventfd holds the wake-ups not yet read |
| EventLoops.EveryPoint | src/EventLoop.cc:107-240 | no wake-up is lost and nothing is lost at any prefix of a run |
| EventLoops.EventLoop.NeverLost | src/EventLoop.cc:107-240 | for the object and all it has done since it was made, which every method only extends: no wake-up is lost at any point, and run, batch and pending are the push order |
| EventLoops.EventLoop.QueueInLoop | src/EventLoop.cc:169-185 | the functor is pushed behind what is pending; a wake-up follows exactly while functors are being called, and then the descriptor is readable; before each of the two the other threads have taken what the schedule has for that point |
| EventLoops.EventLoop.Others | src/EventLoop.cc:107-240 | before each step of the loop thread the other threads take the steps the schedule has for that very point, all that are possible and no others, and only add work, wake-ups or a request to quit |
| EventLoops.EventLoop.Act | src/EventLoop.cc:107-185 | what a handler or functor does is done action by action; the whole history remains the loop thread's steps woven into the schedule point by point; nothing pending goes and no wake-up is taken |
| EventLoops.EventLoop.Wakeup | src/EventLoop.cc:198-206 | one write, counted unless the descriptor is full at that point of the schedule; afterwards it is readable in either case |
| EventLoops.EventLoop.HandleRead | src/EventLoop.cc:187-195 | an eventfd is left at 0, a pipe with one wake-up less |
| EventLoops.EventLoop.DoPendingFunctors | src/EventLoop.cc:224-240 | flag, swap, each functor of the swap once and in order, flag: the steps of exactly one pass; everything pending on entry is run behind what ran before, and the flag is down afterwards |
| EventLoops.EventLoop.RunLoop | src/EventLoop.cc:107-135 | for every schedule of the other threads and every behaviour of handlers and functors: the loop thread takes the steps of whole iterations (test, poll, handlers, pass), as many as there are until quit_ is seen, then tests once more; the whole history is these steps woven into the schedule; what has run is the swapped batches in order |
| EventLoops.LoopLonger | src/EventLoop.cc:107-135 | one more iteration appends test, poll, handlers and pass to the steps of those before, its functors numbered behind all that ran |
| EventLoops.EventLoop.Took | src/EventLoop.cc:107-240 | each step the loop thread takes extends the history by exactly what the schedule has for that point and then that step, a write failing exactly when the descriptor is full |
| Lifecycle.StepKeeps | src/TcpServer.cc:66-120 | every step of every loop and of every thread inside shutdown(), its test, its set and the queued shutdownInLoop apart, keeps: one queued functor for each connection that awaits one, as many queued calls of shutdownInLoop as were not yet run, all on its own loop, and no other |
| LifecycleTheorems.CallbacksInOrder | src/TcpConnection.cc:163-182 | in every run, with shutdown() on other threads: up once, down at most once and after it, reported down by the time the state is Disconnected, erased from the map only when down, destroyed at most once and only when erased |
| LifecycleTheorems.Monotone | src/TcpConnection.cc:163-182 | between any two points of any run no connection moves back to an earlier stage |
| LifecycleTheorems.StateFallsIff | src/TcpConnection.cc:144-152 | in a run the state of a connection moves back somewhere if and only if handleClose comes between the test and the set of a shutdown() on another thread |
| LifecycleTheorems.ShutdownRace | src/TcpConnection.cc:144-152 | a run from the start in which it does |
| LifecycleTheorems.StepMonotone | src/TcpConnection.cc:144-250 | no step moves a connection back to an earlier stage, and its state falls exactly when another thread sets kDisconnecting on a connection that is Disconnected |
| LifecycleTheorems.TaskAdvances | src/TcpServer.cc:106-120 | each functor run moves its connection on by one stage, or is one queued call of shutdownInLoop fewer, and touches no other |
| LifecycleTheorems.CloseAdvances | src/TcpConnection.cc:241-250 | handleClose only ever meets a connection that is up |
| LifecycleHistories.StateChanges | src/TcpConnection.cc:144-182 | the state of a connection is changed by its establishing functor, its own shutdown while up, the late half of another thread's shutdown, and its close, to what each sets; by nothing else, connectDestroyed included; tests and queued calls are conserved |
| LifecycleHistories.AcceptMakes | src/TcpServer.cc:66-104 | accepting makes one connection: up at once when the base loop is alone, otherwise not up until its own loop establishes it |
| LifecycleHistories.FunctorsInOrder | src/EventLoop.cc:169-240 | a loop runs its functors in the order in which they were queued, each step queues at most one on it, and only the end of a pass lets go of what has run |
| LifecycleHistories.HandlersInOrder | src/EventLoop.cc:118-128 | a loop handles the channels that a poll reported in that order, each once, whatever else happens |
| LifecycleTheorems.AlwaysAlive | src/Channel.cc:63-78 | in every run a connection whose channel the poller knows, or whose event is waiting, is held by somebody; one held by nobody was destroyed |
| LifecycleTheorems.AliveUntilDestroyed | src/TcpServer.cc:106-120 | until connectDestroyed has run the map or a queued functor holds the connection |
| LifecycleTheorems.ActiveIsAlive | src/Channel.cc:63-78 | a channel poll reported is alive, in the map and still armed when its turn comes, so the weak pointer always locks |
| LifecycleTheorems.DestroyRunsLast | src/TcpConnection.cc:173-182 | connectDestroyed runs on the connection's own loop, outside every handler, after the erase, still held by its functor, and reports no second disconnection |
| LifecycleTheorems.Quiescent | src/TcpServer.cc:106-120 | with all loops idle and nothing queued, a connection is up or was destroyed exactly once and is held by nobody, and no call of shutdownInLoop waits |
| LifecycleTheorems.AtRestEachIsLiveOrGone | src/TcpServer.cc:66-120 | every run that ends at rest has destroyed each closed connection exactly once |
| LifecycleTheorems.DrainingDescends | src/TcpServer.cc:106-120 | without new connections or events every step brings the server nearer to rest, so no schedule goes on for ever |
| LifecycleTheorems.DrainingPossible | src/TcpServer.cc:106-120 | until it is at rest some such step is possible |
| LateShutdowns.RunTimely | src/TcpConnection.cc:144-182 | in every run: no queued shutdownInLoop is late before connectDestroyed is taken out of the queue; in the pass that runs it the vector holds exactly the calls in time; after that pass none in time is left |
| LateShutdowns.CalledOnFreedIff | src/TcpConnection.cc:149-150 | a queued shutdownInLoop, which binds a raw pointer, runs on a connection the server holds no more if and only if it was queued after connectDestroyed was taken out and the base loop has let go of the vector with the removal |
| LateShutdowns.CallOnFreedIff | src/TcpConnection.cc:144-152 | the same by what has happened in the run: when at least as many such calls have run before as were queued before connectDestroyed was taken out, and only then once the base loop has let go |
| LateShutdowns.NeverLateNeverFreed | src/TcpConnection.cc:144-152 | if no other thread sets the state after connectDestroyed was taken out, every such call runs on a connection that is held |
| LateShutdowns.CallOnFreed | src/TcpConnection.cc:144-182 | a run from the start in which the call does run on a connection that is gone |
| TcpServers.TcpServer.NewConnection | src/TcpServer.cc:66-104 | the connection is mapped under a name nobody has, given to the next loop, and established there; one step of the interleaving |
| TcpServers.TcpServer.GetNextLoop | src/EventLoopThreadPool.cc:36-56 | the base loop when it is alone, else the I/O loops in turn |
| TcpServers.ConnNameInjective | src/TcpServer.cc:70-74 | the names made from nextConnId_ are all different, so erasing by name erases one connection |
| Decimals.DecimalInjective | src/TcpServer.cc:72-73 | different numbers print differently |
| Decimals.DecimalReads | src/TcpServer.cc:72-73 | a number prints as its decimal digits: their value is the number, with no zero in front |
| TcpServers.TcpServer.HandleClose | src/TcpConnection.cc:241-250 | down, then the close callback, one step of the interleaving |
| TcpServers.TcpServer.RemoveConnection | src/TcpServer.cc:106-110 | the base loop, and no other, gains one functor: connectDestroyed when it is the connection's own loop and the erase was done at once, else the erase; the map loses the name exactly in the first case |
| TcpServers.TcpServer.RemoveConnectionInLoop | src/TcpServer.cc:112-120 | the map loses that name alone and the connection's own loop gains connectDestroyed |
| TcpServers.TcpServer.RunTask | src/TcpConnection.cc:163-182 | one functor of a batch, one step of the interleaving; the map holds exactly what was not erased, each under its own name |
| PollerSpec.PollUpdateKeeps | src/PollPoller.cc:37-61 | adding or changing a channel keeps descriptors, entries and indices in one-to-one correspondence and sets exactly its interest |
| PollerSpec.PollRemoveKeeps | src/PollPoller.cc:64-86 | removing one, with the last entry moved into the hole and -fd - 1 decoded, does the same and forgets exactly its interest |
| PollerSpec.EpollStepKeeps | src/EPollPoller.cc:63-110 | no call makes epoll_ctl add what is there or change what is not, the kernel holds exactly the channels marked added, and the interest changes as asked |
| PollerSpec.EpollNeverFails | src/EPollPoller.cc:124-145 | in any sequence of calls no epoll_ctl ever fails |
| PollerSpec.PollRefines | src/PollPoller.cc:37-86 | after any calls the array stands for the interest asked for |
| PollerSpec.EpollRefines | src/EPollPoller.cc:63-110 | after any calls index values and kernel stand for the interest asked for |
| PollerSpec.SameWatch | src/EPollPoller.cc:63-110 | after the same calls both pollers have the kernel watch the same descriptors for the same non-empty events |
| PollerSpec.PollWatches | src/PollPoller.cc:37-61 | poll watches a descriptor that asks for nothing exactly while it is new: first registered with an empty mask and not updated since |
| PollerSpec.EpollWatches | src/EPollPoller.cc:63-94 | epoll watches one that asks for nothing after every other update that does: the update after a removal from the kernel adds it again |
| PollerSpec.SameKernelIff | src/EPollPoller.cc:63-94 | with empty masks counted, both kernels watch the same descriptors if and only if none that asks for nothing was added to epoll again by one more such update |
| PollerSpec.TwiceForNothing | src/EPollPoller.cc:63-94 | a descriptor that asked for something and then twice for nothing is watched by epoll, for hang-ups and errors, and not by poll |
| PollerSpec.ReadyOnce | src/PollPoller.cc:88-104 | each registered descriptor with events is reported exactly once, and nothing else is |
| Pollers.PollPoller.UpdateChannel | src/PollPoller.cc:37-61 | over channel objects, the update on values; the channel is known afterwards |
| Pollers.PollPoller.RemoveChannel | src/PollPoller.cc:64-86 | over channel objects, the removal on values; the moved channel learns its index |
| Pollers.PollPoller.FillActiveChannels | src/PollPoller.cc:88-104 | with the count poll returned it reports all ready channels with their events, and with a smaller count exactly the first that many |
| Pollers.EPollPoller.UpdateChannel | src/EPollPoller.cc:63-94 | over channel objects, the update on values, every epoll_ctl call possible |
| Pollers.EPollPoller.RemoveChannel | src/EPollPoller.cc:97-110 | over channel objects, the removal on values |
| Pollers.Channel.HandleEventWithGuard | src/Channel.cc:80-115 | close, error, read, write in that order, each at most once by its own bits, and never close and read together |
| Pollers.Poller.EnableReading | include/Channel.h:40-45 | the read bits go on, no other bit changes, and the poller's interest becomes the channel's events for this descriptor alone, whichever poller it is |
| Pollers.Poller.DisableReading | include/Channel.h:40-45 | the read bits go off, no other bit changes, and the poller follows for this descriptor alone |
| Pollers.Poller.EnableWriting | include/Channel.h:40-45 | the write bit goes on, no other bit changes, and the poller follows for this descriptor alone |
| Pollers.Poller.DisableWriting | include/Channel.h:40-45 | the write bit goes off, no other bit changes, and the poller follows for this descriptor alone |
| Pollers.Poller.DisableAll | include/Channel.h:40-45 | no bit stays on, and the poller watches the descriptor for nothing |
| Pollers.Poller.Update | src/EventLoop.cc:208-216 | whichever poller the loop has: its interest becomes the channel's events for this descriptor, and no other interest changes |
| Pollers.Poller.Remove | src/EventLoop.cc:208-216 | the descriptor leaves the registry and the interest, and no other interest changes |
| Json.JsonEscape | src/AiClient.cc:20-49 | the escaping loop produces the text that JSON reads as the input, character by character (`PrintedMeans`), and that both readers undo |
| Json.EscapeIsOneLine | src/AiClient.cc:20-49 | no line break, carriage return or tab survives escaping |
| Json.ReadEscape | src/HttpCodec.cc:142-182 | reading an escaped text up to its closing quote gives the text back, whatever it contains |
| JsonTable.PrintedMeans | src/AiClient.cc:20-49 | against the escape table of RFC 8259, section 7: printed text is a well-formed string that stands for the text if and only if the text has no control characters but line feed, carriage return and tab; otherwise it is not well formed |
| JsonTable.ReadMeansIff | src/AiClient.cc:72-118 | of every well-formed JSON string the readers find the end, and they read what it stands for if and only if it has no escape \b, \f or \u |
| JsonTable.ReadClosedIff | src/AiClient.cc:72-118 | a string is read if and only if some quote closes it: one with an even number of backslashes directly before it |
| Json.AfterIsFirst | src/AiClient.cc:54-66 | the search stops at the first occurrence |
| Json.AfterNone | src/AiClient.cc:54-70 | and finds nothing only when there is none |
| Json.Find | src/AiClient.cc:54-66 | the position loop agrees with it from any start |
| Json.ExtractClient | src/AiClient.cc:51-119 | key, first colon, next quote wherever it is, then the string; nothing when any is missing |
| Json.ScanFlag | src/AiClient.cc:72-118 | the loop with the escape flag reads one string: what JSON means by it, if it has no \b, \f or \u (`ReadMeansIff`) |
| Json.ExtractCodec | src/HttpCodec.cc:116-183 | key, first colon, only spaces, a quote, then the string; nothing otherwise |
| JsonTable.ClientFieldIff | src/AiClient.cc:51-119 | the client reads v if and only if the text is: the first occurrence of the quoted name, anything without a colon, a colon, anything without a quote, a quote, and a string read as v |
| JsonTable.CodecFieldIff | src/HttpCodec.cc:116-183 | the codec reads v if and only if the same holds with only spaces between colon and quote |
| JsonTable.SpaceIs | src/HttpCodec.cc:132-136 | the spaces skipped are tab, line feed, vertical tab, form feed, carriage return and space |
| Json.ScanLookahead | src/HttpCodec.cc:142-182 | the loop that takes the character after a backslash at once reads the same string |
| Json.Trim | src/HttpCodec.cc:16-31 | the middle part without surrounding spaces, empty exactly when all is space |
| Json.CodecImpliesClient | src/HttpCodec.cc:116-183 | where the codec finds a field the client finds the same value |
| Json.ReadersAgreeIff | src/HttpCodec.cc:116-183 | the two readers agree if and only if the client finds nothing or, behind the first colon after the key and spaces skipped, the next character is a quote |
| Json.ClientReadsPastNonString | src/AiClient.cc:66-70 | an input on which they differ: past a number the client goes on to the next quote |
| Json.KeyMatches | src/AiClient.cc:53-54 | a match of the quoted key that starts before or inside an escaped value can only end at the value's own closing quote |
| Json.FieldAfterValue | src/AiClient.cc:51-119 | a field printed after any value is read back exactly, by both readers, even when the value is or ends in the key name |
| JsonFields.PrintedReads | src/AiClient.cc:51-119 | of any printed object, whatever its values hold, the client reads a field's own value, unless a value before it is or ends with the quoted name; then it reads the value behind that one |
| AiClients.ReplyRoundTrip | src/AiClient.cc:466-481 | for every message and reply, the reply extracted from the chat body is the reply |
| ChatBodies.BodyReads | src/AiClient.cc:466-481 | message and reply are read back from every body; provider and model are unless the message, or for the model the reply, is or ends with the quoted name, and then the value read instead is told; cache_hit says whether it was a hit, tool_used is false |
| ChatBodies.BodyFlags | src/AiClient.cc:466-481 | the first occurrence of a flag's quoted name with its colon is the flag, whatever message and reply hold |
| ChatBodies.ToolReads | src/AiClient.cc:306-319 | a tool's answer is read back the same way, with its reply spelled out, tool_used true and cache_hit false |
| ChatBodies.ErrorReads | src/AiClient.cc:296-305 | any error message is read back from its body |
| ChatBodies.HttpErrorReads | src/AiClient.cc:434-443 | of an answer that is no success the code in decimal, the provider and the answer itself are read back |
| AiClients.CacheKeyInjective | src/AiClient.cc:363-366 | under one configuration two messages never share a cache entry |
| AiClients.StubLastPut | src/AiClient.cc:344-345 | in stub mode whatever is remembered for a message is its stub reply |
| AiClients.AiClient.Chat | src/AiClient.cc:293-347 | a hit answers with what the cache holds, which is the reply last obtained for this very message; after a miss the cache holds the content read out of the provider's answer, or the stub reply, so the next lookup finds exactly that, unless the capacity is 0; a refusal is not remembered; in stub mode the body equals the uncached one but for cache_hit; other messages keep their reply or give way; the body is the one of `BodyReads`, with the flag true exactly for a hit |
| AiClients.AiClient.CallOpenAiCompatible | src/AiClient.cc:373-453 | only an answer with status 2xx that carries a content field is a reply, and the body carries exactly that content; an error of the call is passed on as it is, and any other answer is a 502 with the code, or with the missing content, as error |
| AiClients.AiClient.AskProvider | src/AiClient.cc:330-342 | a good answer is put into the cache through its own printed body, so the next lookup finds what the provider said; a refusal changes no lookup |
| AiClients.AiClient.CacheGet | src/AiClient.cc:323-328 | a lookup answers what the cache holds, and changes no later lookup of any message |
| AiClients.AiClient.CachePut | src/AiClient.cc:335-345 | afterwards the cache answers the message with the reply, unless its capacity is 0; any other message is answered as before or not at all |
| UserRecords.AfterPiece | src/HttpCodec.cc:118-120 | a quoted name is found exactly where a whole piece between quotes equals it |
| UserRecords.FieldFromPieces | src/HttpCodec.cc:116-183 | the value read is the piece after the first colon that follows the first piece equal to the name |
| UserRecords.ReadPieces | src/UserStore.cc:104-113 | a printed user is read back with its salt or hash replaced by the role when the username is that key name, and exactly otherwise |
| UserStores.IsRegistrationLimited | src/UserStore.cc:259-282 | the filter loop keeps the attempts of the last minute and admits while they are fewer than the limit |
| UserStores.LimitKeeps | src/UserStore.cc:259-282 | pruned attempts still stand for all admissions, any limit + 1 of which span more than a minute |
| UserStores.WindowBound | src/UserStore.cc:259-282 | such admissions never exceed the limit in any closed minute |
| UserStores.ValidateUsername | src/UserStore.cc:335-360 | the loop finds the first rule a name breaks |
| UserStores.UserStore.Load | src/UserStore.cc:77-121 | the lines up to the first that does not parse are inserted in order |
| UserStores.UserStore.AppendUserLocked | src/UserStore.cc:284-322 | success adds exactly one whole line; failure adds at most a front part of it, and nothing when directory or file cannot be had; what was there stays in front |
| UserStores.UserStore.RegisterUser | src/UserStore.cc:123-174 | validation, limiter, invitation, uniqueness and append in that order, with every outcome as told by `RegistersByRules` and `RefusedByRule`; the map changes only after the append |
| UserTheorems.RegistersIff | src/UserStore.cc:123-174 | a user is registered exactly when name and password are well formed (`RegistersByRules` writes this out), the limiter lets the request past, the invitation matches, the name is free and the line is written; only then do the users change, and by that user alone |
| UserTheorems.RegistersByRules | src/UserStore.cc:123-174 | the rules themselves: 3 to 32 letters, digits, underscores or hyphens in the name, 8 to 128 characters in the password, fewer than the limit of attempts in the last minute, the right invitation if one is asked for, a free name, a whole line written |
| UserTheorems.RefusedByRule | src/UserStore.cc:123-174 | the first broken rule decides the answer, word for word; users stay as they are, and a request with a bad name or password is not counted by the limiter |
| UserTheorems.PrintedLine | src/UserStore.cc:305-310 | any user at all is printed on one line that is not blank |
| UserFiles.LinesAreText | src/UserStore.cc:97-103 | the lines read have no line break in them and together are the text |
| UserFiles.LineReads | src/UserStore.cc:305-310 | of the line of any user, whatever its fields hold, the client reader reads username, role, salt and password_hash as they are, unless one before it is or ends with the quoted name; then the one behind that |
| UserFiles.LoadUpTo | src/UserStore.cc:77-121 | loading succeeds if and only if no line is bad; of the lines before the first bad one the last with a name gives that user, and names on none of them keep what they had |
| UserTheorems.LoadPrinted | src/UserStore.cc:97-118 | loading any printed users inserts them one by one as they are read back |
| UserTheorems.RunRecords | src/UserStore.cc:123-174 | after any run whose appends do not break off, the file is the printed list of the users in the map, in order of registration |
| UserTheorems.RestartIff | src/UserStore.cc:77-121 | after any such run loading succeeds, gives the same names and the same record for all but two of them, and rebuilds the map if and only if nobody is called salt or password_hash |
| UserTheorems.SaltIsMisread | src/UserStore.cc:77-121 | the exception is real: a well-formed request for the name salt is registered, and after a restart that user has the salt 'user' |
| UserRestarts.RestartsIff | src/UserStore.cc:77-174 | after registrations and restarts in any order the map is exactly what was registered if and only if nobody called salt or password_hash was registered before the last restart |
| UserRestarts.SurvivesRestarts | src/UserStore.cc:77-174 | without those two names the users survive any number of restarts |
| UserRestarts.TornFileIff | src/UserStore.cc:284-322 | with a line broken off after n characters in the middle of the file, a reload finds all users behind it as registered if and only if there are none, or n is at most 11, or the line is whole |
| UserRestarts.TornRestartIff | src/UserStore.cc:284-322 | the same for runs: registrations, one append that breaks off after n characters, more registrations under other names, a restart |
| UserRestarts.TornLosesNext | src/UserStore.cc:284-322 | the loss is real: one append breaks off after 12 characters, the next user is registered, and a restart does not find him |
| UserRestarts.TornLine | src/UserStore.cc:97-118 | a broken line with the next user's glued to it is read as that user up to 11 characters, and beyond that never as a user of that name |
| UserTheorems.LimiterHolds | src/UserStore.cc:259-282 | with a clock that never runs back, over every run of all clients, no client is let past more than limit times in any closed minute |
| UserTheorems.LimitedOnlyWhenFull | src/UserStore.cc:259-282 | an attempt is turned away only when limit admissions lie within the minute before it |

## Left out

- LfuCaches.KLfuCache.Put: where a full cache finds the list of `minFreq_` empty, which happens only outside 2 to 250, and the empty string is a cached key, the source erases that key from the map and leaves its node in its list; this is not modelled. With any other keys the put is.
- ShardedCaches.KHashLfuCache.Put: the same, of the slice of the key.
- ShardedCaches.KHashLfuCache.constructor: takes the resolved slice count, so the call of `hardware_concurrency` for a count of 0 or less is a parameter; the rounding up of `capacity / sliceNum` is exact, where the source rounds a double.
- PoolTheorems.RunKeeps: for slot sizes from 8 up that fit a block twice, as those of all 64 pools do. Below 8 the cursor does not move (`NeighboursApartIff`, `HandsOutApartIff`); a block that is too small for padding and slot is left out.
- MemoryPools.MemoryPool.constructor: requires a slot size that is a multiple of 8, as all 64 pools have; otherwise slots overlap and a write through one changes the next.
- Buffers.Buffer.RetrieveAsString: requires that the bytes asked for lie inside the array; beyond its end the source reads memory that is not the buffer's.
- Pollers.PollPoller.UpdateChannel: requires that a new channel's descriptor is not registered for another channel, which holds because a descriptor is open in one connection at a time; the same for the other poller and for removal.
- LfuTheorems.RunKeeps: the access total is an unbounded integer; machine overflow of the `int` is not modelled, nor is the unsigned division of a negative total, which only a negative maxAverageNum could bring about.
- LfuTheorems.EvictionIsLfu: entries moved by one aging pass are ordered by the walk over the hash map, which is arbitrary, so "first to reach the frequency" is relative to that walk.
- ConnectionTheorems.HalfCloseIsClean: says nothing after the connection has closed, where a queued shutdown still half-closes.
- ConnectionTheorems.NothingLost: a send that meets a broken pipe gives up its message and is counted as not accepted.
- ConnectionHistories.InputIsDataRead: what the message callback takes out of the input buffer is `Buffers.Buffer.Retrieve`, not a step of these runs, so `input` is all that arrived. `handleError` after EPOLLERR only logs, and is no step either.
- LateShutdowns.CallOnFreedIff: counts what the server holds; a pointer that the calling thread keeps for itself is outside the model.
- LoopSpec.NoLostWakeupIff: starts where `loop()` has just cleared `quit_`; a quit requested before that is overwritten by the source.
- UserTheorems.RestartIff: appends that break off in the middle of a line are outside this run; `TornRestartIff` covers one of them.
- UserRestarts.TornRestartIff: one append breaks off, and nobody registers the same name again or one of the two special names behind it; what a second broken append adds is not modelled.
- Locks: the cache, the allocator and the user store are sequential objects. `purge` takes no lock, and `allocateNewBlock` clears the free list outside its lock, so the promises are for calls that do not overlap.
- Cross-thread `send`: the queued call keeps a raw pointer to the caller's string.
- TcpServers.TcpServer.NewConnection: the connection number is unbounded, and the 64 characters of the buffer that the name is printed into are taken to be enough, as they are for an IPv4 address.
- EventLoops.EventLoop.RunLoop: `rounds` bounds how many iterations are looked at; the theorems about runs have no bound.
- `sendFile` and `sendFileInLoop`: they depend on platform calls.
- Destruction of `TcpServer` while connections are up, and event dispatch of untied channels in the lifecycle.
- The array that `epoll_wait` fills and its growth: which ready channels one call reports is a parameter of the lifecycle.
- `TimerQueue` and `Timer`: the loop's constructor never creates the queue.
- `RagStore`, `ToolRegistry`, the thread pool's threads, and route dispatch in `main.cc`: they would add only easy members.
- Provider calls through libcurl, latency, environment variables, HTML pages and logging.
- Login, sessions, password hashing and the randomness of salts and tokens: salts and hashes are arbitrary hexadecimal strings.
- Characters are Dafny characters: the byte encoding of texts is not modelled.
