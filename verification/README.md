# Cirrus: a verified model of the cache, the protocol and the algorithms on top

Cirrus is a remote key-value store with a client-side cache. This project models, in Dafny, the parts of it
that carry state or arithmetic worth proving:

- **The cache** (`CacheSpec`, `CacheTransparency`, `CacheLimits`, `CacheRuns`, `CacheEffects`, `Cache`): `CacheManager` over an
  object store whose asynchronous calls resolve later (`RemoteStore`), with its eviction policies (`LrAddedEviction`,
  `LruEviction`) and its cyclic prefetching (`PrefetchRing`). `CacheSpec` gives each call as a function on
  states; the class in `Cache` is proved to do exactly that to the heap, and the theorems are proved about
  the functions, for every run.
- **The protocol** (`Protocol`, `ProtocolClash`, `Framing`, `Bulk`, `Server`,
  `Futures`): every interleaving of callers, sender,
  server and receiver; the length-prefixed stream, cut anywhere; the bulk payloads byte by byte; the server's
  byte accounting; the spin-lock handshake of a future. `Layers` joins the two: the store the cache is proved
  over is the server behind the protocol.
- **The users** (`Iteration`, `Graphs`, `Vertices`, `Wcc`, `Thrashing`, `Crc32`): the read-ahead iterators and the connected
  components example, both running on the modelled cache class, and the table-driven CRC-32 against its
  bit-serial definition.

`dafny verify dfyconfig.toml` checks everything.

Objects are values of any type `T`. What serializing and deserializing makes of an object is a parameter
(`World.codec`), and so is which puts the server has memory for (`World.accepts`); random shuffles, the
iteration order of hash maps and the sizes of socket reads and writes are chosen arbitrarily. A call's
exception is an `Outcome`, and so is undefined behaviour, after which nothing more is said about the object.

## What the proofs found

Where the code does not do what its documentation or its callers expect, the model follows the code. Each
gap has a lemma with a failing input or family, and one that says exactly when the code does meet the expectation.

- A put on an object whose prefetch nobody has read yet is lost: `PutOnPrefetchIsLost`; it reads back exactly
  under the condition in `PutReadsBackIff`.
- The sweep over pending writes runs first when there are 51 of them. None of their futures has been polled, so
  every `try_wait` it makes succeeds, finished or not; it erases every second write and, the number being odd, steps
  past the end: `Sweep`. Puts of distinct ids into a new cache get there exactly when there are more than fifty
  beyond the policy's capacity: `PutsStepPastEndIff`; `CallPastEndIff` says which call does. Callers with at most
  fifty dirty, pending or yet to be put ids never get there: `GetQuiet`, `PutExposes`, `SafeRunsAreTransparent`; nor
  do callers who read each object back after the next put, however many they put: `ReadingBackNeverStepsPastEnd`.
- `get` returns through a pointer that its own prefetches may have invalidated: `HitCanDangle`. It does so
  exactly when more of the ids it asks for are missing than the deque has free places and older ids:
  `GetDanglesIff`.
- `get` of an absent id throws but leaves a default object behind, exactly when the cache had no entry for the id:
  `FailedGetLeavesNothingIff`.
- `remove` is documented to throw for an absent id; the store call it relies on never does, and neither does it:
  `RemoveTransparent`.
- The LRU policy does not track puts: `FirstPutParts`. Cache and policy agree throughout a trace exactly when every
  put goes to a cached id or meets a full cache, for policies no larger than the cache
  (`AgreementIffPutsAreTracked`); for larger ones a get that the cache throws on parts them too (`AgreementIff`).
- A rejected overwrite still gives back the old object's size, and the pool can be overcommitted:
  `RejectedOverwriteOvercommits`; modulo 2^64 the counter is right exactly when what was overcharged is zero:
  `ByteConservation`. Until then a write is accepted exactly when it fits beside the other objects:
  `NextWriteAcceptedIff`.
- Two threads waiting on one future can leave one of them stuck for ever: `StuckIffSeveralWaiters`. The first
  `try_wait` succeeds before there is a result: `FirstTryWaitIsSpurious`; one tells the truth exactly when the
  result has come or somebody took the future's lock before: `TryWaitTruthfulIff`. So over all waiters at most one
  poll reports a result that is not there: `OneSpuriousPoll`.
- Transaction ids pass through a 32-bit `int`. A run is safe exactly when no caller enters an id already under way:
  `SafeIffNoClash`. Otherwise a future is lost for ever, a reply completes the wrong one and the receiver meets an
  unknown id: `RegisterLosesIff`, `LostForever`, `WideSpanFaults`.
- The ring arithmetic is exact exactly when no sum overflows: `SlotsExactIff`, `SlotListIsRingIff`. A get that
  reads ahead divides by zero exactly when its range is all 2^64 ids: `GetDividesByZeroIff`; an iteration over that
  range reads nothing: `IterateOrdered`.
- The size of a bulk reply is added up in 32 bits: the server overruns its buffer exactly on replies of 2^32 bytes or
  more (`ProcessReadBulk`), and reads past a bulk write exactly when it has more ids than objects and none is rejected
  (`ProcessWriteBulk`).
- The vertex serializer forgets that a vertex was seen: `VertexRoundTrip`, `EvictionForgetsSeen`. With two
  joined vertices and room for one the traversal therefore never ends: `TraversalNeverEnds`. The component theorem is
  about graphs that fit the cache.

## Model

| member | source | states |
|---|---|---|
| `RemoteStore.ServeFirst` | src/object_store/FullBladeObjectStore.h:133-141 | serving the oldest request in flight changes neither the map the server ends up with nor any outstanding answer, so an asynchronous call behaves as if served when issued |
| `RemoteStore.Store.Submit` | src/object_store/FullBladeObjectStore.h:165-171 | an issued request's effect and answer are settled by everything issued before it, and no earlier answer changes |
| `RemoteStore.Store.Deliver` | src/client/TCPClient.cpp:441-541 | one request served, its answer delivered and its future's lock cleared, with the drained map and all promised answers unchanged |
| `RemoteStore.Store.Wait` | src/client/BladeClient.cpp:46-51 | on return the future's answer is there and is the promised one; only this future's lock was touched |
| `RemoteStore.Store.TryWait` | src/client/BladeClient.cpp:57-63 | true exactly when the answer is there or the future's lock was free; takes the lock exactly when the answer is not there |
| `RemoteStore.Store.Get` | src/object_store/FullBladeObjectStore.h:112-124 | the answer is the object as of all requests issued before, or that there is none |
| `RemoteStore.Store.Put` | src/object_store/FullBladeObjectStore.h:150-155 | the serialized object is in the store once drained, unless the server has no memory, and the answer says which |
| `RemoteStore.Store.Remove` | src/object_store/FullBladeObjectStore.h:299-301 | the id is gone once drained; it never fails |
| `Layers.OneRequest` | src/object_store/FullBladeObjectStore.h:112-171 | one store call has on the store's map the effect its message has on the server's memory, seen as objects, and its answer is the server's reply |
| `Layers.StoreIsServer` | src/server/TCPServer.cpp:411-436 | after any requests in order the store's map is the server's memory seen as objects, and every promised answer is the server's reply, memory errors included |
| `Layers.FuturesKeepPromises` | src/client/TCPClient.cpp:441-541 | in every interleaving of the protocol each completed future holds exactly the answer that the cache's store promised for its request |
| `LrAddedEviction.TouchKeeps` | src/cache_manager/LRAddedEvictionPolicy.cpp:65-88 | the deque stays duplicate-free and within capacity, holds the accessed id, and the at most one victim was held before and is not that id |
| `LrAddedEviction.LRAddedEvictionPolicy.ProcessOid` | src/cache_manager/LRAddedEvictionPolicy.cpp:65-88 | the deque and set updated in place are the specified deque and its elements, with the specified victims |
| `LrAddedEviction.LRAddedEvictionPolicy.Remove` | src/cache_manager/LRAddedEvictionPolicy.cpp:46-59 | exactly the removed id leaves the deque and the set, the order of the rest kept |
| `LruEviction.TouchIsTruncatedFront` | src/cache_manager/LRUEvictionPolicy.cpp:57-79 | an access moves or adds the id to the front and cuts the list at the capacity; the victims are what was cut off |
| `LruEviction.Inclusion` | src/cache_manager/LRUEvictionPolicy.cpp:45-79 | on every trace the list at capacity m is a prefix of the list at any n >= m, so a hit at m is a hit at n |
| `LruEviction.RunIsRecencyPrefix` | src/cache_manager/LRUEvictionPolicy.cpp:45-79 | on every trace, removes included, the list is a front part of the ids by recency of use; without removes it is exactly the first `cap` of them |
| `LruEviction.HeldIff` | src/cache_manager/LRUEvictionPolicy.cpp:45-79 | on every trace, removes included, an id is held exactly when it was used, not removed since, and at every moment since fewer than `cap` live ids had been used after it; it stands right behind those |
| `LruEviction.HitIff` | src/cache_manager/LRUEvictionPolicy.cpp:57-79 | on traces without removes this is: fewer than `cap` distinct ids used since |
| `LruEviction.MovesBackOne` | src/cache_manager/LRUEvictionPolicy.cpp:57-79 | one call moves an id back by at most one place |
| `LruEviction.ResidencyBound` | src/cache_manager/CacheManager.h:284-288 | a get followed by fewer prefetches than the capacity never evicts the id it is about to return |
| `LruEviction.ResidencyBoundIsSharp` | src/cache_manager/CacheManager.h:284-288 | after any trace, with distinct other prefetches the id is still held exactly when they are fewer than the capacity |
| `LruEviction.AgreementStep` | src/cache_manager/CacheManager.h:276-321 | one access keeps the cache's keys equal to the policy's ids exactly when it is neither a put of an uncached id that the cache takes in nor a get of one that the cache throws on for lack of room |
| `LruEviction.AgreementIff` | src/cache_manager/LRUEvictionPolicy.cpp:29-31 | over whole traces, for every pair of capacities, cache and policy agree throughout exactly when no access is of that kind |
| `LruEviction.AgreementIffPutsAreTracked` | src/cache_manager/CacheManager.h:300-321 | with a policy no larger than the cache they agree throughout exactly when every put goes to a cached id or meets a full cache |
| `LruEviction.FirstPutParts` | src/cache_manager/LRUEvictionPolicy.cpp:29-31 | the first put into an empty cache already parts them |
| `LruEviction.LRUEvictionPolicy.ProcessOid` | src/cache_manager/LRUEvictionPolicy.cpp:57-79 | list and iterator map updated in place hold the specified list, with the specified victims |
| `LruEviction.LRUEvictionPolicy.Remove` | src/cache_manager/LRUEvictionPolicy.cpp:45-52 | exactly the removed id leaves the list and the iterator map |
| `PrefetchRing.SlotsExactIff` | src/cache_manager/CacheManager.h:91-97 | the wrap-around formula gives the ring's ids, as far as the loop looks, exactly when no sum that matters reaches 2^64 |
| `PrefetchRing.SlotOverflow` | src/cache_manager/CacheManager.h:91-97 | on rings of more than 2^63 ids the first overflowing sum yields the wrong id |
| `PrefetchRing.AheadGoesRound` | src/cache_manager/CacheManager.h:91-97 | one place further on the ring is the next id, and the first after the last |
| `PrefetchRing.SlotListFacts` | src/cache_manager/CacheManager.h:89-107 | whatever overflows, only ids of the range are asked for, never the id itself, and at most `read_ahead` of them |
| `PrefetchRing.SlotListIsRingIff` | src/cache_manager/CacheManager.h:89-107 | the loop asks for exactly the next min(read_ahead, N-1) ids on the ring if and only if nothing overflows, which on rings of up to 2^63 ids is always |
| `PrefetchRing.AheadListFacts` | src/cache_manager/CacheManager.h:89-107 | those ids are in range, pairwise distinct and never the id itself |
| `PrefetchRing.PrefetchList` | src/cache_manager/CacheManager.h:82-108 | the loop, with a 64-bit or a 32-bit counter that may wrap, returns the specified ids for every read-ahead that memory can be reserved for |
| `CacheSpec.MakeRoomCoherent` | src/cache_manager/CacheManager.h:478-482 | making room evicts only cached ids other than the one accessed and leaves room for it |
| `CacheSpec.GetEntryCoherent` | src/cache_manager/CacheManager.h:238-281 | a lookup, throwing or not, keeps cache keys and policy deque the same ids within capacity; the capacity and eviction exceptions do not occur |
| `CacheSpec.GetCoherent` | src/cache_manager/CacheManager.h:238-289 | the same for a whole get with the prefetches it makes |
| `CacheSpec.PutCoherent` | src/cache_manager/CacheManager.h:300-329 | the same for put, also when the store rejects the write |
| `CacheSpec.PrefetchCoherent` | src/cache_manager/CacheManager.h:379-389 | the same for prefetch |
| `CacheSpec.RemoveCoherent` | src/cache_manager/CacheManager.h:397-405 | the same for remove |
| `CacheTransparency.RunCoherent` | src/cache_manager/CacheManager.h:238-329 | in every run, through exceptions, the cache's keys are the policy's ids, duplicate-free and within capacity, and the capacity and eviction exceptions are unreachable |
| `CacheTransparency.EvictTransparent` | src/cache_manager/CacheManager.h:443-470 | eviction changes no reading, but that a dirty object then reads as the serializer left it |
| `CacheTransparency.GetEntryTransparent` | src/cache_manager/CacheManager.h:238-281 | a get returns what reads at the id, throws exactly when nothing does, and leaves all readings alone |
| `CacheTransparency.PutTransparent` | src/cache_manager/CacheManager.h:300-329 | a put reads back and changes nothing else, in deferred and write-through mode; on an unresolved prefetch the old reading stays |
| `CacheTransparency.PutReadsBackIff` | src/cache_manager/CacheManager.h:307-313 | the put is what a get then finds exactly when no unresolved prefetch of another value was met |
| `CacheTransparency.PrefetchTransparent` | src/cache_manager/CacheManager.h:379-389 | a prefetch changes no reading |
| `CacheTransparency.RemoveTransparent` | src/cache_manager/CacheManager.h:397-405 | a remove never throws; after it nothing reads at the id, present before or not, and all else reads as before |
| `CacheTransparency.GetTransparent` | src/cache_manager/CacheManager.h:238-289 | with any prefetching mode a get's value is what reads at the id, and its prefetches change no reading |
| `CacheTransparency.WriteBackTransparency` | src/cache_manager/CacheManager.h:238-329 | while the server rejects no write and the serializer loses nothing, every run answers as one plain map would, through evictions, write-backs in flight and prefetches, up to its first exception, undefined step or put on an unresolved prefetch |
| `CacheRuns.SafeRunsAreTransparent` | src/cache_manager/CacheManager.h:238-329 | when the calls, the deque and the dirty and pending ids show beforehand that at most fifty ids are exposed and no prefetching get evicts its own entry or leaves its range, no step is undefined and every answer is the plain map's |
| `CacheRuns.DoDefined` | src/cache_manager/CacheManager.h:238-405 | each kind of call is then defined, and exposes no more than the id it puts |
| `CacheRuns.PlainRunsAreComplete` | src/cache_manager/CacheManager.h:238-405 | without prefetching such a run answers every call as the plain map would, to its end or to the first get of an absent object |
| `CacheRuns.PutsStepPastEndIff` | src/cache_manager/CacheManager.h:443-470 | puts of distinct ids into a new deferred cache step past the end of the pending writes exactly when there are more than policy capacity plus fifty of them |
| `CacheTransparency.NewCacheRepresents` | src/cache_manager/CacheManager.h:213-227 | a new cache over a store reads as the store, so the theorem applies from the start |
| `CacheLimits.MakeRoomPastEndIff` | src/cache_manager/CacheManager.h:458-466 | making room steps past the end of the pending writes exactly when, with fifty pending, it evicts a dirty id that is not among them |
| `CacheLimits.CallPastEndIff` | src/cache_manager/CacheManager.h:443-470 | the same for a whole lookup, put and prefetch: each steps past the end exactly under that condition on its own access |
| `CacheLimits.GetQuiet` | src/cache_manager/CacheManager.h:238-289 | while at most fifty ids are dirty or pending a whole get, prefetches and all, never steps past the end, and exposes no further id |
| `CacheLimits.PrefetchQuiet` | src/cache_manager/CacheManager.h:458-466 | the same for prefetch |
| `CacheLimits.PutExposes` | src/cache_manager/CacheManager.h:300-329 | a put never steps past the end either and exposes at most the id it writes |
| `CacheLimits.FifoResidencyIff` | src/cache_manager/LRAddedEvictionPolicy.cpp:65-88 | an id outlives prefetches of other ids exactly when those that miss are no more than the free places and the ids before it in the deque |
| `CacheLimits.GetDanglesIff` | src/cache_manager/CacheManager.h:284-288 | a get that does not step past the end returns through an evicted entry exactly when the object is there, the id is in the prefetching range and more of the wanted ids miss than that |
| `CacheLimits.GetDividesByZeroIff` | src/cache_manager/CacheManager.h:89-97 | a get divides by zero exactly when the object is there and it is to read ahead in a range of all 2^64 ids |
| `CacheLimits.MissNeverDangles` | src/cache_manager/CacheManager.h:284-288 | a get that misses and reads ahead by less than the policy's capacity returns through a live entry |
| `CacheLimits.OldestHitDangles` | src/cache_manager/CacheManager.h:284-288 | with a full cache, a prefetching get of the oldest id whose next id is absent always dangles |
| `CacheLimits.HitCanDangle` | src/cache_manager/CacheManager.h:284-288 | from a new cache, gets of 1 and 9 and then of 1 reading ahead by one: the last one dangles |
| `CacheLimits.PutOnPrefetchIsLost` | src/cache_manager/CacheManager.h:264-270 | prefetch, put, get of one id returns the value stored before the put |
| `CacheLimits.FailedGetLeavesNothingIff` | src/cache_manager/CacheManager.h:264-281 | after a get of an absent id has thrown, nothing reads there exactly when the cache had an entry, a prefetch that found nothing; otherwise a default object reads there |
| `CacheEffects.GetEntrySends` | src/cache_manager/CacheManager.h:238-281 | after a lookup the pending writes are those before, with the victim if it was dirty, without the id itself; it sends one request for the victim's write-back and one for the read exactly when the cache had no entry |
| `CacheEffects.PutSends` | src/cache_manager/CacheManager.h:300-329 | after a put the pending writes are those before with a dirty victim; its own object is sent at once exactly when writes are not deferred |
| `CacheEffects.PrefetchSends` | src/cache_manager/CacheManager.h:379-389 | the same for prefetch, which reads exactly when the cache had no entry and does not touch a pending write of the id |
| `CacheEffects.RemoveSends` | src/cache_manager/CacheManager.h:397-405 | a remove sends exactly one request and leaves the pending writes alone |
| `CacheEffects.PutThrowsIff` | src/cache_manager/CacheManager.h:326-328 | a put throws the memory error exactly when writes are not deferred and the server rejects this one |
| `CacheEffects.ReadAheadIsCached` | src/cache_manager/CacheManager.h:284-287 | with room in the policy a get leaves the next `read_ahead` ids of the ring cached |
| `CacheEffects.ReadingBackNeverStepsPastEnd` | src/cache_manager/CacheManager.h:244-255 | with room for one object, any number of deferred puts, each read back after the next, run to their end without stepping past the end of the pending writes |
| `Cache.Open` | src/cache_manager/CacheManager.h:213-227 | a cache of size zero is refused, any other starts empty with prefetching off |
| `Cache.CacheManager.Sweep` | src/cache_manager/CacheManager.h:458-466 | in every iteration order the sweep erases every second pending write and steps past the end exactly when their number is odd |
| `Cache.CacheManager.Evict` | src/cache_manager/CacheManager.h:443-470 | refines the specified eviction: same outcome, same cache, pending writes, deque and store |
| `Cache.CacheManager.EvictVector` | src/cache_manager/CacheManager.h:478-482 | refines evicting one after the other up to the first failure |
| `Cache.CacheManager.GetEntry` | src/cache_manager/CacheManager.h:238-281 | refines the specified lookup, and if a write of the id was pending its answer has come by the time it returns |
| `Cache.CacheManager.Get` | src/cache_manager/CacheManager.h:238-289 | refines the specified get in either mode, including the range exception and the division by zero, and has waited for a pending write of the id |
| `Cache.CacheManager.Put` | src/cache_manager/CacheManager.h:300-329 | refines the specified put in either write mode |
| `Cache.CacheManager.Prefetch` | src/cache_manager/CacheManager.h:379-389 | refines the specified prefetch |
| `Cache.CacheManager.PrefetchAll` | src/cache_manager/CacheManager.h:284-287 | refines the specified prefetches one after the other |
| `Cache.CacheManager.Remove` | src/cache_manager/CacheManager.h:397-405 | refines the specified remove |
| `Iteration.DerefTransparent` | src/iterator/CirrusIterable.h:421-435 | a dereference returns what reads at the current id whatever its prefetches evict, and changes no reading |
| `Iteration.DerefReadsAhead` | src/iterator/CirrusIterable.h:421-435 | with room in the policy a dereference leaves the ids it prefetched cached beside the one it read |
| `Iteration.Dereference` | src/iterator/CirrusIterable.h:421-435 | refines prefetching the policy's list and then getting the current id |
| `Iteration.BeginMeetsEnd` | src/iterator/CirrusIterable.h:104-117 | counting up from the begin position, wrapping at 2^64, meets the end position after exactly the whole range and not before |
| `Iteration.OrderedPolicy.GetPrefetchList` | src/iterator/CirrusIterable.h:118-132 | the specified ring ids, with the iterator's 32-bit counter |
| `Iteration.IterateOrdered` | src/iterator/CirrusIterable.h:443-472 | a loop from begin to end yields the stored objects of the range in order, ending at the first absent one with the exception, for every read-ahead; at its end the cache is as after dereferencing each id in order with its ring ids ahead; the whole 64-bit range yields nothing |
| `Iteration.Shuffle` | src/iterator/CirrusIterable.h:207-211 | a permutation, whatever the random choices |
| `Iteration.UnorderedPolicy.constructor` | src/iterator/CirrusIterable.h:198-221 | holds each id of the range exactly once, and stands at the beginning or one past the end |
| `Iteration.UnorderedPolicy.GetPrefetchList` | src/iterator/CirrusIterable.h:227-236 | the next ids of the shuffled order, as many as asked for and left |
| `Iteration.ReadingsPermute` | src/iterator/CirrusIterable.h:198-221 | reading a rearrangement of ids gives a rearrangement of the objects |
| `Iteration.IterateUnordered` | src/iterator/CirrusIterable.h:443-472 | a loop in shuffled order yields a permutation of the range's objects, ending at the first absent one, and leaves the cache as after dereferencing each id with the ones that follow it in the shuffle |
| `Vertices.Serialize` | examples/graphs/wcc/Vertex.h:58-70 | the bytes are the id, the count and the neighbours in network order |
| `Vertices.Deserialize` | examples/graphs/wcc/Vertex.cpp:44-64 | the vertex the bytes encode, the exception when size and 32-bit expected size differ, or a read past the end when the header is cut short or the expected size wrapped |
| `Vertices.RecordLayout` | examples/graphs/wcc/Vertex.h:58-70 | read as 32-bit words in network order a record is the id, the number of neighbours and each neighbour in turn |
| `Vertices.NeighborsAreSet` | examples/graphs/wcc/Vertex.cpp:59-61 | whatever the bytes, the neighbours come out ascending and are exactly the numbers in the record |
| `Vertices.WrappedCountOverruns` | examples/graphs/wcc/Vertex.cpp:51-57 | a record of a header only is refused when it counts one neighbour, but passes the 32-bit size test when it counts 2^30 |
| `Vertices.VertexRoundTrip` | examples/graphs/wcc/Vertex.h:58-70 | serializing and reading back keeps id and neighbours and resets `seen` and `cc` |
| `Wcc.EvictionForgetsSeen` | examples/graphs/wcc/Wcc.cpp:16-18 | an evicted vertex reads as unseen and unlabelled afterwards, so as before exactly when it was so |
| `Thrashing.TraversalNeverEnds` | examples/graphs/wcc/Wcc.cpp:8-31 | with two joined vertices, the vertex serializer and a policy of capacity one, no number of turns empties the queue |
| `Wcc.GetFits` | examples/graphs/wcc/Wcc.cpp:15 | while the graph fits the cache a get returns the vertex and evicts nothing, for any serializer |
| `Wcc.PutFits` | examples/graphs/wcc/Wcc.cpp:17 | while the graph fits the cache a put changes that vertex only and evicts nothing, for any serializer |
| `Wcc.VisitKeeps` | examples/graphs/wcc/Wcc.cpp:11-30 | each turn keeps that everything seen or queued is joined to the root and every neighbour of a seen vertex is seen or queued |
| `Wcc.VisitProgress` | examples/graphs/wcc/Wcc.cpp:11-30 | a turn on a vertex already seen brings the queue's first unseen vertex, or else its end, nearer, so the loop ends although vertices are queued repeatedly |
| `Wcc.QueueNeighbors` | examples/graphs/wcc/Wcc.cpp:23-30 | exactly the unseen neighbours are appended to the queue, in order |
| `Wcc.Bfs` | examples/graphs/wcc/Wcc.cpp:8-31 | terminates, and has then seen and labelled everything reachable from the root that was unseen, and relabelled nothing else |
| `Wcc.WeaklyCc` | examples/graphs/wcc/Wcc.cpp:47-67 | two vertices get the same label exactly when a path joins them, and the labels are 1..k in order of each component's smallest vertex |
| `Graphs.LabelsUnique` | examples/graphs/wcc/Wcc.cpp:47-67 | a graph has only one such labelling, so the result is fully determined |
| `Framing.SizeSurvivesIff` | src/client/TCPClient.cpp:405-410 | the length header read into an `int` is right exactly for messages under 2^31 bytes |
| `Bytes.NetworkOrder` | src/client/TCPClient.cpp:617-636 | network order compares as the numbers do, byte by byte from the first; the host's order is its reverse |
| `Framing.FrameLayout` | src/client/TCPClient.cpp:617-636 | a frame is four bytes that read back as the message's length, and then the message |
| `Framing.FramingRoundTrip` | src/client/TCPClient.cpp:551-595 | in every interleaving of partial sends and reads what has been received is a prefix of what was sent, and all of it once the bytes are through |
| `Framing.ReaderNeverStuck` | src/client/TCPClient.cpp:551-595 | while bytes remain some step is possible |
| `Framing.BytesRemainingShrink` | src/client/TCPClient.cpp:551-595 | every step lowers the bytes remaining, so the transfer ends |
| `Framing.Channel.SendAll` | src/server/TCPServer.cpp:243-265 | all the bytes are appended to the stream however the sends are cut |
| `Framing.Channel.ReadAll` | src/server/TCPServer.cpp:274-291 | exactly the next `len` bytes are taken off the stream however the reads are cut |
| `Framing.Channel.SendMessage` | src/client/TCPClient.cpp:617-636 | the frame of the message is appended to the stream |
| `Framing.Channel.ReceiveMessage` | src/server/TCPServer.cpp:300-322 | the first frame's message is returned and exactly that frame is consumed |
| `Framing.SendThenReceive` | src/server/TCPServer.cpp:349-380 | any messages sent through the loops are received exactly and in order |
| `Bulk.SizeOfUnits` | src/common/Serializer.h:78-84 | the accumulated size is the length of the encoding, modulo 2^64 |
| `Bulk.UnitsLayout` | src/common/Serializer.h:67-84 | the encoding has eight bytes besides each object's own, of which the first four are the object's size and the others zero |
| `Bulk.SerializeUnits` | src/common/Serializer.h:67-76 | the moving pointer fills a buffer of that size exactly with the encoding |
| `Bulk.UnitAt` | src/server/TCPServer.cpp:474-505 | where an encoded unit begins, the server reads its size, its bytes, and the start of the next |
| `Bulk.ParseReadPayload` | src/object_store/FullBladeObjectStore.h:210-232 | parsing an encoded reply gives the objects in order |
| `Bulk.ReplyLayout` | src/server/TCPServer.cpp:611-634 | a bulk reply is four bytes of count in the host's order and, for each object, four bytes of size in network order and the object |
| `Server.TCPServer.ProcessWrite` | src/server/TCPServer.cpp:411-436 | leaves the state and gives the reply that the protocol specifies for the request |
| `Server.WriteAcceptedIff` | src/server/TCPServer.cpp:416-434 | where the counter is exact a write is accepted exactly when its bytes and those of all other objects fit the pool |
| `Server.NextWriteAcceptedIff` | src/server/TCPServer.cpp:416-434 | so after every run that overcharged nothing |
| `Server.TCPServer.ProcessRead` | src/server/TCPServer.cpp:528-563 | gives the reply that the protocol specifies for the request and changes nothing |
| `Server.SingleReplies` | src/server/TCPServer.cpp:411-673 | a read succeeds exactly when the object is there, a remove exactly when a read would, after which none does; after a write a read gives the written bytes if it was accepted and what it gave before if not; the error codes go with the failures |
| `Server.TCPServer.ProcessWriteBulk` | src/server/TCPServer.cpp:465-505 | parsing the bytes leaves the state and gives the reply that the protocol specifies for the bulk write; it reads past the bytes exactly when there are more ids than objects and none is rejected |
| `Server.BulkWriteIsWrites` | src/server/TCPServer.cpp:465-505 | a bulk write leaves the state of its single writes in order up to the first rejected one, and succeeds exactly when none of them is rejected |
| `Server.BulkWriteStores` | src/server/TCPServer.cpp:465-505 | a successful bulk write of distinct ids leaves each object under its id and every other id as it was |
| `Server.TCPServer.ProcessReadBulk` | src/server/TCPServer.cpp:590-638 | without an overrun, leaves the state and gives the reply that the protocol specifies for the bulk read, its payload the encoding of the objects; the second pass overruns the size the first computed exactly on replies of 2^32 bytes or more |
| `Server.BulkReadIsReads` | src/server/TCPServer.cpp:590-638 | a bulk read changes nothing, succeeds exactly when every single read would, and carries their objects in order |
| `Server.TCPServer.FillReply` | src/server/TCPServer.cpp:611-634 | a buffer of the right size is filled exactly with count, sizes and objects, and any smaller one is overrun |
| `Server.TCPServer.ProcessRemove` | src/server/TCPServer.cpp:665-673 | leaves the state and gives the reply that the protocol specifies for the request |
| `Server.GetBulkFast` | src/object_store/FullBladeObjectStore.h:210-232 | on replies under 2^32 bytes equals a single get for each id, repeats included, failing exactly when some id is absent; on others the server overruns |
| `Server.PutBulkFast` | src/object_store/FullBladeObjectStore.h:283-291 | leaves the server as single puts in order would, up to the first rejection or the end of the shorter list, but for the reading past the end that ProcessWriteBulk describes; a successful put of distinct ids stores each object's serialization under its id |
| `Server.ByteConservation` | src/server/TCPServer.cpp:416-436 | in every run the counter plus what rejected overwrites gave back is the stored total modulo 2^64, and the counter is right exactly when that is zero modulo 2^64 |
| `Server.AccountingExactIff` | src/server/TCPServer.cpp:416-436 | with a pool of at most 2^64 - 2^32 the counter is the stored total and within the pool all through a run exactly when nothing was overcharged in it |
| `Server.RejectedOverwriteOvercommits` | src/server/TCPServer.cpp:416-429 | a concrete run that stores 18 bytes in a pool of 10 |
| `Protocol.KeyCollision` | src/client/TCPClient.cpp:145 | two counter values share a transaction id exactly when they agree in their low 32 bits, which the id sign-extends to 64 |
| `Protocol.NextReply` | src/client/TCPClient.cpp:441-459 | the next reply belongs to the oldest incomplete request and its id is in the pending map |
| `Protocol.RunKeeps` | src/client/TCPClient.cpp:602-705 | every interleaving keeps the invariant that ties the log, the queues, the pending map and the permits together |
| `Protocol.ProtocolSafety` | src/client/TCPClient.cpp:364-541 | in every interleaving in which no caller enters an id under way, no reply id is unknown, the pending map is exactly the ids under way, futures complete once, in order, each with its own request's result, and no queued message lacks a permit |
| `Protocol.SafeIffNoClash` | src/client/TCPClient.cpp:680-705 | a run keeps the invariant throughout exactly when no caller enters an id whose low 32 bits a request under way already uses |
| `Protocol.DistinctRunsAreSafe` | src/client/TCPClient.cpp:145 | runs in which outstanding ids differ in their low 32 bits are such runs |
| `Protocol.NarrowRunsAreSafe` | src/client/TCPClient.cpp:145 | and so are runs in which outstanding ids span fewer than 2^32 |
| `Protocol.WorkShrinks` | src/client/TCPClient.cpp:602-670 | sender, server and receiver cannot run for ever |
| `Protocol.SomeStepEnabled` | src/client/TCPClient.cpp:602-670 | while a pushed request is incomplete and no caller stands between pushing and signalling, one of them can move |
| `Protocol.Drains` | src/client/TCPClient.cpp:364-541 | from every reachable state without a caller mid-call they can complete every pushed request |
| `Protocol.NeverDeadlocked` | src/client/TCPClient.cpp:680-705 | in every reachable state in which some call or reply is outstanding somebody can move, callers waiting for room in the send queue included, without a new call |
| `Protocol.QueueBounded` | src/client/TCPClient.h:29 | in every run the send queue holds at most 10000 messages |
| `ProtocolClash.RegisterLosesIff` | src/client/TCPClient.cpp:680-685 | entering an id loses the future of a request under way exactly when their counters agree in the low 32 bits |
| `ProtocolClash.LostForever` | src/client/TCPClient.cpp:441-459 | a lost future completes in no continuation of the run |
| `ProtocolClash.WideSpanFaults` | src/client/TCPClient.cpp:441-459 | from every store there is a run to such a clash, a thread standing still while another makes 2^32-1 calls, and on to a reply that completes the wrong future and one whose id is unknown |
| `Futures.WaitReturnsAfterWrite` | src/client/BladeClient.cpp:46-51 | in every interleaving a wait returns only after the result is written and published |
| `Futures.StuckForever` | src/common/Synchronization.h:199-218 | a waiter spinning on a lock nobody will clear stays so |
| `Futures.StuckIffSeveralWaiters` | src/common/Synchronization.h:199-218 | such a state is reachable exactly with two or more waiters |
| `Futures.OneWaiterReturns` | src/client/BladeClient.cpp:46-51 | once the receiver is done a lone waiter's own steps lead to its return |
| `Futures.TryWaitTruthfulIff` | src/client/BladeClient.cpp:57-63 | in every run, for any number of waiters, a `try_wait` that found no result reports one only if it is there exactly when the result came meanwhile or somebody took this future's lock before |
| `Futures.PolledThenTruthful` | src/client/BladeClient.cpp:57-63 | in every run, once some waiter has polled without a result there, `try_wait` reports none until there is one |
| `Futures.OneSpuriousPoll` | src/client/BladeClient.cpp:57-63 | in every run at most one poll, over all waiters, reports a result before it is there |
| `Futures.FirstTryWaitIsSpurious` | src/client/BladeClient.cpp:57-63 | the first `try_wait` on a future can return true before anything is written |
| `Crc32.TableIsReduction` | examples/ml/Checksum.cpp:3-47 | each of the 256 entries is the eight-step reduction of its index |
| `Crc32.ShiftOutIsConditional` | examples/ml/Checksum.cpp:3-47 | the branch-free step is the usual conditional one with polynomial 0xEDB88320 |
| `Crc32.AdvanceFeeds` | examples/ml/Checksum.cpp:56-58 | one table step feeds the eight bits of a byte, lowest first |
| `Crc32.Checksum` | examples/ml/Checksum.cpp:49-61 | the loop computes the bit-serial reflected CRC-32 of section 8 of RFC 1952 for every buffer |
| `Crc32.EmptyCrc` | examples/ml/Checksum.cpp:49-61 | the empty message has CRC zero |
| `Crc32.Residue` | examples/ml/Checksum.cpp:49-61 | every message followed by its own CRC, lowest bit first, has the CRC 0x2144DF1C, which fixes the initial value and the final complement |
| `Crc32.BurstDetected` | examples/ml/Checksum.cpp:49-61 | bit strings that differ only within 32 consecutive bits never share a CRC |
| `Crc32.ByteBurstDetected` | examples/ml/Checksum.cpp:49-61 | buffers of equal length that differ only within four consecutive bytes never share a CRC |

## Left out

- CacheTransparency.WriteBackTransparency: runs end at the first exception, as a failed get leaves a default object behind, and before a put on an unresolved prefetch; what happens then is in FailedGetLeavesNothingIff and PutReadsBackIff.
- PrefetchRing.PrefetchList: the vector is reserved for `read_ahead` ids up front, which throws for read-aheads that memory cannot hold; the exceptions of memory allocation are not modelled.
- LruEviction.AgreementIff: is about keys and ids only; that an eviction with deferred writes can step past the end is in MakeRoomPastEndIff.
- Server.TCPServer.ProcessReadBulk: lists of 2^32 ids or more, which a message cannot carry.
- Server.AccountingExactIff: the bound on the pool keeps the 64-bit sum of counter and object size from wrapping.
- Iteration.IterateOrdered: the cache's own prefetching is off, as by default; with both at work a dereference may end as in GetDanglesIff.
- Iteration.IterateUnordered: the same, and the last id must not be 2^64-1 nor the read-ahead 2^32-1, where the code's own loops do not end.
- Iteration.UnorderedPolicy.constructor: not for ranges ending at 2^64-1, for which its loop does not end.
- Iteration.UnorderedPolicy.GetPrefetchList: not for a read-ahead of 2^32-1, for which its loop does not end.
- Iteration.OrderedPolicy.GetPrefetchList: called only within the range, as an end iterator is not dereferenced.
- Wcc.WeaklyCc: needs a symmetric in-range graph of fewer than 2^31-1 vertices that fits the cache, with prefetching off; `make_undirected` edits copies, so symmetry is a precondition.
- The cache class uses the "least recently added" policy; the LRU policy is modelled beside it, with the exact condition under which it stays in step with the cache's keys.
- Custom prefetch and iterator policies, and iterator copying: user-supplied code and plain copies.
- `prefetchBulk`, `removeBulk`, the cache's `get_bulk` and `put_bulk`, and the store's `get_bulk` and `put_bulk`: thin loops over calls that are modelled.
- Several clients of one server, connection set-up, end of file, the poll loop and shutdown: input and output plumbing; the server is modelled from one connection's requests in order.
- FlatBuffers encoding: messages are datatypes; only the frame header and the hand-written bulk payloads are bytes.
- RDMA, RocksDB and allocation counters: foreign calls without visible semantics; the server's backend is a map.
- Machine learning, PageRank, configuration, logging and timing.
