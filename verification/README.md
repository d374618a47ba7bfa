# A verified model of the cache, RPC and ORM exercises

The repository holds three Go libraries. This project models the parts of them whose correctness
is not visible from reading one function, and proves it with Dafny 4.11. `dafny verify
dfyconfig.toml` checks everything.

**CCache, a distributed cache.** `Recency` says what an LRU cache means, on plain sequences.
`ContainerList` and `Lru` are the objects: entries linked both ways around a root and a map of
pointers into them, proved to behave as `Recency` says. `SyncCache` puts the mutex and the lazy
creation around it. `SingleFlight` is `Do` as a state machine over any number of goroutines, and
`GroupGet` adds the steps that `Group.Get` makes inside `Do`; `GroupProgress` shows that every `Get`
returns, and `GroupTrace` that the cache of any interleaving is the one that `Recency` gives for a
plain trace of accesses. `HashRing` says on values which node serves a key; `ConsistentHash` is the sorted slice with its table and binary search, `HttpPool` a
node's view of its peers, and `Cluster` all nodes together.

**SuRPC, an RPC framework.** `RpcClient` and `RpcServer` are the two ends of a connection as state
machines. `RpcLookup` says which methods exist, `RpcClientSends`, `RpcClientEnds` and `RpcServerEnds`
what becomes of each call and each request, and what alone ends a loop or a connection.
`RpcClientProgress` and `RpcServerProgress` show that no caller and no handler waits for
ever, `RpcSession` joins them by two FIFO streams of header and body items (`RpcWire`), and
`RpcLostError` is one run of the two.
`RpcClientObject` runs the client's critical sections on its fields and shows that each is the
machine's step. `Registry` is the lease table, `AddressList` the comma-joined text in which it
answers, `Discovery` the client's list with its round-robin turn, `RegistryDiscovery` the list that
is fetched from a registry.

**SORM, an object-relational mapper.** `Generator` holds the clause generators, `Alignment` says
which value each placeholder binds, `ClauseBuilder` collects clauses and builds the statement, and
`Statements` writes the session's statements out and reads names back from them.

`Basics`, `Text` and `Sorting` hold shared vocabulary.

## How concurrency is modelled

A machine has a datatype of steps, a predicate `Enabled` and a function `Apply`. A run is a sequence
of steps; `Exec` gives the state it leads to if every step was possible, so a statement about
`Exec(steps)` is about every interleaving. A critical section, a channel rendezvous, one item
written or read, and one assignment outside any lock are one step each. Timeouts, read failures and
write failures may happen at any step. Parts of a state that the program does not keep (who was
issued a number, what has been written, how often a key was loaded; the comments name them) only
observe: apart from bounds that always hold, no step of a single machine depends on them. In
`RpcSession` what one side has written is the stream the other side reads.

## Where the code falls short of what it is for

These are proved, and the exact condition under which the code does what is wanted is proved with
them.

- The eviction loop of the LRU cache stops on every content if and only if the bound is not
  negative (`Lru.LoopStopsIff`).
- The option `replicas` of the HTTP pool is honoured only when it is zero; any other value leaves
  the ring empty (`HttpPool.RoutesIff`).
- The labels `Itoa(i) + name` of virtual nodes are distinct if and only if there are at most ten
  replicas (`HashRing.LabelsDistinctIff`), and the order of adding nodes is irrelevant if and only
  if virtual nodes of different nodes do not collide (`HashRing.OrderIrrelevantIff`).
- The server leaves the body of a request for an unknown method unread, so its reader is at a frame
  boundary if and only if an even number of lookups has failed, and stays there whatever clients do
  if and only if all methods they ask for are registered (`RpcServer.AlignedIff`,
  `RpcServer.StaysAlignedIff`).
- A service's error reaches its caller as an error if and only if its message is not empty
  (`RpcSession.ErrorIsSeenIff`); for every registered method there is a run in which an error with an
  empty message is lost and the caller returns with the placeholder for its result
  (`RpcLostError.EmptyErrorRun`). Where the placeholder does not decode as the result's type, the
  caller gets the decoding error instead and the connection ends.
- The client's address list is the registry's if and only if no address is empty, holds a comma or
  has a space at an end (`AddressList.DecodedIff`). `Refresh` puts one empty name for each piece of
  the answer before the addresses, so half of the round-robin turns go to an empty name
  (`RegistryDiscovery.HalfTheTurnsAreBlank`).
- The rows of an insert lie under their own placeholders if and only if all rows behind one that is
  not empty are as wide as it (`Alignment.RowsAlignedIff`); rows of unequal width may even agree in
  number (`Alignment.RaggedRows`).
- When the handler of a request times out, the goroutine that called the service stays blocked on
  handing over for ever; of all goroutines at the end of a connection these are the only ones left
  (`RpcServerProgress.HandlersFinish`).

One oddity of the source shapes the model and is not a theorem: `SuRPC/client.go:264` drops the error
of `Write` and tests that of `registerCall`, which is nil there, so the branch at 265-269 never runs
and is no step of the machine. A failed write closes the connection, and `terminateCalls` completes
its call (`RpcClient.TerminationCompletesAll`).

## Model

| member | source | states |
|---|---|---|
| Recency.Trim | CCache/lru/lru.go:89-92 | eviction leaves the longest prefix of the recency list that fits the bound, zero meaning no bound |
| Recency.FitsIff | CCache/lru/lru.go:85-92 | the bound is on the bytes of all keys and values together, and zero is none |
| Recency.LongestFittingUnique | CCache/lru/lru.go:89-92 | there is only one such prefix, so survivors, their order and the evicted suffix are determined |
| Recency.StackProperty | CCache/lru/lru.go:46-93 | after any trace of read-through accesses the content is exactly the longest fitting prefix of the distinct keys, latest access first |
| Recency.AddIs | CCache/lru/lru.go:73-93 | whether or not the key is there already: what stays is the longest prefix that fits of the new pair and, behind it, the other keys' entries as they were; without a bound all of it |
| Recency.AddedIsFound | CCache/lru/lru.go:73-93 | a pair that fits by itself comes first, and looking its key up then gives the new value |
| Recency.AddKeepsOthers | CCache/lru/lru.go:73-93 | the other entries of the new content are a prefix of those before, values and order unchanged |
| Recency.EvictedIs | CCache/lru/lru.go:57-70 | what stays and what is evicted make up the new pair and all other entries |
| Recency.GetIs | CCache/lru/lru.go:46-54 | a hit brings the entry to the front and leaves the rest as it was, a miss changes nothing |
| Recency.Inclusion | CCache/lru/lru.go:46-93 | a cache with a smaller bound holds a prefix of what a larger one holds |
| Recency.LargerIsNoWorse | CCache/ccache.go:71-100 | every hit of the smaller cache is a hit of the larger one, and the larger one never asks the source more often along any trace |
| ContainerList.List.PushFront | CCache/lru/lru.go:76 | the ring stays linked both ways and gains a new first element; other elements keep their entries |
| ContainerList.List.Remove | CCache/lru/lru.go:61 | the ring stays linked and loses exactly this element |
| ContainerList.List.MoveToFront | CCache/lru/lru.go:49 | the element becomes first, the others keep their order |
| Lru.LoopStopsIff | CCache/lru/lru.go:90-92 | the eviction loop stops on every content if and only if the bound is not negative |
| Lru.Cache.Get | CCache/lru/lru.go:46-54 | a hit returns the value and moves its entry to the front; a miss changes nothing; map and list stay in bijection and usedBytes the sum of sizes |
| Lru.Cache.RemoveOldest | CCache/lru/lru.go:57-70 | removes exactly the last entry, hands it to onEvicted, does nothing on an empty cache |
| Lru.Cache.Add | CCache/lru/lru.go:73-93 | the new content is that of `Recency.Add`: the longest prefix within the bound of the new pair followed by the other entries as they were; onEvicted sees the evicted suffix oldest first; the loop terminates |
| Lru.Cache.Shrink | CCache/lru/lru.go:89-92 | the loop ends with the longest fitting prefix and hands the rest to onEvicted, oldest first |
| Lru.Cache.Update | CCache/lru/lru.go:80-87 | an update moves the entry to the front with its new value and corrects usedBytes |
| Lru.ListingLookup | CCache/lru/lru.go:47-51 | the map finds a key exactly when the list holds it, and finds its element |
| Lru.Cache.Len | CCache/lru/lru.go:96-98 | the number of entries |
| SyncCache.Cache.Add | CCache/cache.go:18-26 | adding under the mutex, the first add creating the cache, is `Recency.Add` on the content |
| SyncCache.Cache.Get | CCache/cache.go:28-40 | reading before any add misses; otherwise it is `Recency.Get` |
| SingleFlight.InvHolds | CCache/singleflight/singleflight.go:23-47 | every reachable state keeps the invariant that ties the map, the calls and the program counters together |
| SingleFlight.OneExecutionPerKey | CCache/singleflight/singleflight.go:28-39 | executions of fn for one key never overlap |
| SingleFlight.DeleteRemovesOwnCall | CCache/singleflight/singleflight.go:42-44 | each delete removes the call its own leader stored |
| SingleFlight.LeaderOverlaps | CCache/singleflight/singleflight.go:28-39 | the leader of the call a Do is given is inside Do at a moment when that Do is too |
| SingleFlight.ReturnsOneExecution | CCache/singleflight/singleflight.go:30-46 | every Do returns value and error together of one execution of fn for its key, led by a Do that overlaps it |
| SingleFlight.Progress | CCache/singleflight/singleflight.go:24-46 | while a Do is unfinished and no fn runs, some goroutine can step |
| SingleFlight.BoundedWork | CCache/singleflight/singleflight.go:24-46 | every schedule without new calls is bounded by a measure that each step lowers |
| SingleFlight.AllReturn | CCache/singleflight/singleflight.go:24-46 | a schedule that goes on as long as it can ends with every Do returned |
| SingleFlight.Group.Enter | CCache/singleflight/singleflight.go:24-37 | the first critical section on the object is the machine's `Join` |
| SingleFlight.Group.Delete | CCache/singleflight/singleflight.go:42-44 | the second critical section removes exactly the key |
| GroupGet.LoadsAreAccountedFor | CCache/ccache.go:71-113 | in every interleaving: successful getter runs for a key = its evictions + 1 if it is cached + 1 if a leader holds the value and has not added it |
| GroupGet.AddNeverUpdates | CCache/ccache.go:89-100 | when populateCache adds a key, the key is not cached: the update branch of the LRU cache is never reached through a group |
| GroupGet.UnlimitedLoadsOnce | CCache/ccache.go:71-113 | with an unlimited cache every key is loaded successfully at most once |
| GroupGet.ValuesAreForTheirKey | CCache/ccache.go:71-109 | a Get that returned gave a value that the getter or a peer supplied for that very key, or the error with which one of them failed for it; every cached value came from the getter for its key |
| GroupGet.NoFailureNoError | CCache/ccache.go:71-109 | as long as neither the getter nor a peer has failed for a key, no Get of it fails, hit or miss |
| GroupTrace.CacheIsOfATrace | CCache/ccache.go:71-113 | in every interleaving the cache is what the hits and loads so far, in their order, leave behind as a plain trace of read-through accesses: the longest fitting prefix of the keys, latest first |
| GroupTrace.GetsOneByOne | CCache/ccache.go:71-113 | Gets of owned keys one after another leave the cache of the trace of their keys |
| GroupGet.OwnedStep | CCache/ccache.go:102-109 | a node whose PickPeer answers by ownership loads and caches only keys it owns and asks peers only for the others |
| GroupGet.OwnedKeysReadTheSource | CCache/ccache.go:71-100 | for an owned key and a deterministic source, every Get without an error returns the source's value |
| GroupProgress.BoundedWork | CCache/ccache.go:71-113 | every schedule in which no Get starts is bounded by a measure that each step inside and outside fn lowers |
| GroupProgress.EveryGetReturns | CCache/ccache.go:71-113 | a schedule that goes on as long as it can ends with every Get returned, whatever PickPeer, peers and getter answer |
| HashRing.RingAt | CCache/consistenthash/consistent_hash.go:36-43 | a position holds the last added node that has a virtual node there, and nothing else is on the ring |
| HashRing.RingCarries | CCache/consistenthash/consistent_hash.go:37-43 | the positions are exactly the hashes of a number below the replicas, written without leading zeros, followed by the name of an added node; the last added of them holds the position |
| Text.ItoaReads | CCache/consistenthash/consistent_hash.go:39 | a number is written with digits that read as it and do not begin with a zero |
| Text.PlainIsItoa | CCache/consistenthash/consistent_hash.go:39 | and in one way only |
| HashRing.ServesUnique | CCache/consistenthash/consistent_hash.go:54-60 | at most one position is the least not below a hash, or the least of all |
| HashRing.ServesExists | CCache/consistenthash/consistent_hash.go:54-60 | every ring that is not empty has one |
| HashRing.Monotone | CCache/consistenthash/consistent_hash.go:36-61 | for any hash, collisions included: after adding nodes a key keeps its owner or moves to an added node |
| HashRing.OrderIrrelevantIff | CCache/consistenthash/consistent_hash.go:36-46 | every order, split and repetition of the same nodes gives every hash the same owner if and only if virtual nodes of different nodes do not collide |
| HashRing.LabelsDistinctIff | CCache/consistenthash/consistent_hash.go:38-39 | the labels of virtual nodes are distinct for all names if and only if there are at most ten replicas |
| HashRing.SeparatedLabelsDoNotCollide | CCache/consistenthash/consistent_hash.go:38-41 | up to ten replicas, a hash that keeps the labels apart gives a ring without collisions |
| ConsistentHash.Map.Add | CCache/consistenthash/consistent_hash.go:36-46 | after any sequence of adds the slice is sorted, holds every hashed label with its multiplicity and exactly the table's positions, and the table is the ring of all names so far |
| ConsistentHash.Map.AddVirtualNodes | CCache/consistenthash/consistent_hash.go:38-42 | the inner loop appends every label's hash and places the node there; none for a negative number of replicas |
| ConsistentHash.SearchServes | CCache/consistenthash/consistent_hash.go:55-60 | the index a binary search ends at, taken modulo the length, serves the hash |
| ConsistentHash.Map.Get | CCache/consistenthash/consistent_hash.go:49-61 | the node at the least position not below the key's hash, or at the least of all; empty for an empty ring |
| HttpPool.Pool.Set | CCache/http.go:127-137 | replaces the ring by that of the given peers and leaves every one of them with a getter |
| HttpPool.Pool.PickPeer | CCache/http.go:140-152 | picks the getter of the key's owner, or none when that is the node itself or there is no peer |
| HttpPool.OwnerIsNode | CCache/http.go:127-152 | the owner is one of the peers, or empty only when the ring is |
| HttpPool.RoutesIff | CCache/http.go:45-56 | every key of every non-empty list of peers is routed to one of them if and only if the replicas option was zero |
| HttpPool.DefaultRing | CCache/http.go:45-56 | with the option left at zero the ring has the hashes of 0, 1 and 2 in front of every peer's name, and no more |
| Cluster.OneHop | CCache/http.go:140-152 | when the nodes agree on the peers and virtual nodes do not collide, exactly one node declines a key and all others pick that node |
| Cluster.OneOwner | CCache/http.go:140-152 | no two nodes decline the same key |
| Cluster.NodesCacheWhatTheyOwn | CCache/ccache.go:102-113 | in every reachable state of the cluster a node caches and loads only keys for which it declines to pick a peer |
| Cluster.CachedOnce | CCache/ccache.go:102-113 | so no key is cached or loaded by two nodes |
| Cluster.OwnerReadsTheSource | CCache/ccache.go:71-100 | at the owner, a Get without an error returns the source's value |
| RpcClient.InvHolds | SuRPC/client.go:76-142 | every reachable state of callers, receive loop, timeouts and Close keeps the client's invariant |
| RpcClient.CompletedAtMostOnce | SuRPC/client.go:76-142 | each call is completed at most once, and never after its own timeout removed it |
| RpcClient.DoneNeverBlocks | SuRPC/client.go:30-33 | whenever done() runs, the one-slot channel of the call is empty |
| RpcClient.TerminationCompletesAll | SuRPC/client.go:98-108 | once terminateCalls has run, every call that got past registration has been completed exactly once unless its timeout removed it, and no waiting caller is stuck |
| RpcClient.NothingRegistersAfterTermination | SuRPC/client.go:76-87 | after that no call enters pending |
| RpcClientSends.RequestIsOnTheWire | SuRPC/client.go:248-264 | a registered call that is past writing has its method, number and arguments side by side on the wire, unless a write failed or the client was closed |
| RpcClientSends.FailedWriteIsLast | SuRPC/client.go:264 | a write that fails closes the connection: nothing is written after it |
| RpcClientSends.GivesUpIff | SuRPC/client.go:295-303 | a caller gives up waiting exactly at its own deadline |
| RpcClientEnds.ReturnsWithAnswer | SuRPC/client.go:295-303 | a call that returns before its deadline has a result or an error, and the error is ErrShutdown exactly when it was never registered |
| RpcClientEnds.RefusedOnlyWhenDown | SuRPC/client.go:76-87 | a call is refused only after `Close` or the end of the receive loop |
| RpcClientEnds.ClosedForGood | SuRPC/client.go:57-81 | after `Close` no call is registered any more, and when it was `Close` that ended the connection nothing is written |
| RpcClientEnds.TerminatedWithAnswer | SuRPC/client.go:98-108 | when the connection has ended every registered call has a result or an error that says why there is none, unless its deadline withdrew it |
| RpcClientEnds.HeaderErrorWins | SuRPC/client.go:119-136 | a response's error reaches the call whether or not its body can be read; without one the call gets the body, or the error of reading it |
| RpcClientEnds.LoopFailsIff | SuRPC/client.go:111-140 | the receive loop ends exactly when something cannot be read; neither an error in a response nor a response for nobody ends it |
| RpcClientEnds.NumbersAreConsecutive | SuRPC/client.go:83-86 | the numbers issued are 1, 2, 3 and so on, without a gap |
| RpcClient.FramedHolds | SuRPC/client.go:248-264 | the request wire is whole frames, each that of one registered call and no call's twice, and at most one unfinished frame of the caller holding `sending`; the receive loop takes an even number of items by every head |
| RpcClient.IssuedForGood | SuRPC/client.go:83-86 | in every continuation of a run a sequence number stays with its caller, and that caller keeps its number and request |
| RpcClient.OneAnswerHolds | SuRPC/client.go:113-138 | in every run a call that is still open or was withdrawn by its deadline has neither reply nor error, and no call gets both a reply and a server error |
| RpcClient.AbandonedGetsNothing | SuRPC/client.go:295-303 | in every run a call withdrawn at its deadline has no reply and no error and is not completed |
| RpcClientProgress.CallsProgress | SuRPC/client.go:98-142 | in every reachable state with a call that has not returned, some goroutine of the client can go on without a deadline, the end of the connection included |
| RpcClientProgress.EveryCallReturns | SuRPC/client.go:98-142 | a schedule without new calls, response headers and Close that goes on as long as it can is bounded, and ends with the receive loop over and every call returned, deadlines or not |
| RpcClientObject.Client.Register | SuRPC/client.go:76-87 | registerCall on the fields is the machine's step: refused once closing or shut down, otherwise the next number |
| RpcClientObject.Client.RemoveCall | SuRPC/client.go:89-95 | removeCall on the fields is the machine's step and returns the call the machine finds |
| RpcClientObject.Client.TerminateCalls | SuRPC/client.go:98-108 | walking over pending in any order completes exactly the pending calls, never one whose channel is full |
| RpcServer.InvHolds | SuRPC/server.go:99-213 | every reachable state of the read loop and the handlers keeps the server's invariant |
| RpcServer.ResponsesAreFramed | SuRPC/server.go:207-213 | the response wire is whole frames, header and body of the same begun answer or rejection, and on a live wire an unfinished one only while the goroutine holding `sending` is between the two items of its own response |
| RpcServer.OneResponse | SuRPC/server.go:172-204 | each accepted request is answered at most once, by the service or by the timeout; at most one goroutine sets its error; when its handler has finished it has been answered |
| RpcServer.NoSecondFrame | SuRPC/server.go:207-213 | no request has two response headers on the wire |
| RpcServer.FinishedIsOnTheWire | SuRPC/server.go:172-213 | unless the connection failed, a finished handler's header and body lie side by side on the wire |
| RpcServer.TimeoutSilencesService | SuRPC/server.go:176-201 | after a timeout the goroutine that called the service never gets past handing over |
| RpcServer.NoWriteAfterClose | SuRPC/server.go:121-122 | once wg.Wait has let the codec close, no goroutine is or comes inside sendResponse |
| RpcServer.RejectionsSayWhy | SuRPC/server.go:106-114 | a rejection on the wire carries the header of its request and the error of its lookup, or that of reading its body when the lookup succeeded |
| RpcServer.NoLimitNoTimeout | SuRPC/server.go:190-194 | a limit of zero is none: no request times out |
| RpcServerEnds.RequestsAreAccountedFor | SuRPC/server.go:104-119 | while the connection is up, every request whose header was read is accepted for handling or has its whole rejection on the wire, but for the one the reader is at |
| RpcServerEnds.ReaderStopsIff | SuRPC/server.go:103-119 | the read loop ends exactly when a header cannot be read, never for a request that it rejects |
| RpcServerEnds.DeadIff | SuRPC/server.go:121-122 | the connection fails exactly when a write has failed or the server has closed it |
| RpcServerEnds.FateIff | SuRPC/server.go:172-204 | a request times out exactly when its own limit is reached; its result is what its own and only call of the service gave |
| RpcLookup.FindErrorIs | SuRPC/server.go:227-247 | the error of a lookup in terms of the parts of the name around its last dot |
| RpcLookup.FoundIff | SuRPC/server.go:227-247 | a lookup succeeds if and only if the name is a registered service, a dot, and a dotless name of one of its methods |
| RpcServerProgress.HandlersProgress | SuRPC/server.go:172-213 | in every reachable state a handler that has not finished waits for its service alone, or some goroutine of a request can go on |
| RpcServerProgress.HandlersFinish | SuRPC/server.go:104-122 | a schedule that reads no further request, in which services return, and that goes on as long as it can is bounded; it ends with every handler finished and the codec closed, and the goroutine that called the service gone unless its handler timed out |
| RpcServer.AlignedIff | SuRPC/server.go:104-118 | at the head of the read loop the reader is between two frames if and only if an even number of lookups has failed |
| RpcServer.StaysAlignedIff | SuRPC/server.go:137-153 | whatever clients do that ask only for given methods the reader stays aligned, if and only if for each of them there is a registered service that has it |
| RpcServer.UnknownMethodRun | SuRPC/server.go:138-141 | a run of one request for an unknown method that ends in the middle of a frame |
| RpcSession.SoundHolds | SuRPC/client.go:111-142 | whatever methods are asked for, every reachable state of client and server joined by two FIFO streams keeps both machines' invariants, framing and one answer per call |
| RpcSession.InvHolds | SuRPC/client.go:111-142 | for registered methods, every reachable state also keeps what ties requests, responses and calls together, failing reads and writes included |
| RpcSession.ClientMeetsFrames | SuRPC/client.go:113-138 | in every run, whatever the methods, the next item is a header when the receive loop is at its head and a body behind a header |
| RpcSession.ServerMeetsFrames | SuRPC/server.go:130-157 | for registered methods the server too meets a header at the head of its loop and a body behind it |
| RpcSession.OneRequestPerCall | SuRPC/server.go:104-118 | the server accepts no two requests with one number |
| RpcSession.OneResponsePerCall | SuRPC/server.go:104-118 | the response stream holds at most one header for each call, answer or rejection |
| RpcSession.AnswersReachTheirCall | SuRPC/client.go:113-138 | for runs whose methods are registered: the result or error a call is given is what the server produced for that call's own method and arguments in the only request it accepted with its number, or the rejection when it accepted none; the call was not abandoned |
| RpcSession.AbandonedGetsNothing | SuRPC/client.go:295-303 | whatever the server sends for a call abandoned at its deadline is dropped |
| RpcSession.NoAnswerIsShared | SuRPC/client.go:119-136 | no request of the server answers two calls |
| RpcSession.ErrorIsSeenIff | SuRPC/server.go:179-186 | when the service of a call's own request failed and its response was delivered, the caller sees the error if and only if its message is not empty, and otherwise the placeholder as a result |
| RpcLostError.EmptyErrorRun | SuRPC/server.go:179-186 | for every registered method and all arguments, a run in which the service fails with an empty message and the caller returns without an error |
| Registry.LastSeenIsLatest | SuRPC/registry/registry.go:42-51 | the last registration of an address is the entry after which there is no other for it |
| Registry.Sort | SuRPC/registry/registry.go:64 | sorting orders the addresses and neither loses nor adds one |
| Registry.AtMostIff | SuRPC/registry/registry.go:64 | the order is that of a dictionary: a prefix first, otherwise what is smaller at the first difference |
| Registry.SuRegistry.PutServer | SuRPC/registry/registry.go:42-51 | registers or renews exactly one address at the clock's time; no other lease changes |
| Registry.SuRegistry.Visit | SuRPC/registry/registry.go:56-63 | one entry with its own clock reading is kept when unexpired and dropped otherwise |
| Registry.SuRegistry.AliveServers | SuRPC/registry/registry.go:54-66 | sorted, without repeats; every address whose last registration ever is unexpired at the end of the scan is listed, whatever earlier scans dropped, and none expired at its start |
| Discovery.MultiServerDiscovery.Get | SuRPC/xclient/discovery.go:70-87 | an error exactly for an empty list or an unknown mode; round robin gives the server at the turn and moves the turn on within range |
| Discovery.MultiServerDiscovery.Update | SuRPC/xclient/discovery.go:62-67 | replaces the list and keeps the turn |
| Discovery.OneMoreCall | SuRPC/xclient/discovery.go:80-83 | one more call extends the picks by the position at the turn if it is round robin, and by nothing otherwise |
| Discovery.PickAt | SuRPC/xclient/discovery.go:80-83 | the j-th pick is the server j places behind the first turn, around the list |
| Discovery.TurnsOf | SuRPC/xclient/discovery.go:80-83 | the exact number of times a position is picked in any window of calls, whatever the first turn |
| Discovery.Fair | SuRPC/xclient/discovery.go:80-83 | of m round-robin picks over n servers, other calls in between, each position gets m / n rounded down or up |
| Discovery.OncePerRound | SuRPC/xclient/discovery.go:80-83 | n picks hit every position exactly once |
| Discovery.MultiServerDiscovery.FairSoFar | SuRPC/xclient/discovery.go:62-87 | at every moment the picks since the last update are fair |
| AddressList.TrimSpaceTrims | SuRPC/xclient/discovery_su.go:56-57 | trimming leaves the stretch of the text between its outer spaces |
| AddressList.JoinSplit | SuRPC/xclient/discovery_su.go:53 | joining undoes splitting on every text |
| AddressList.SplitJoin | SuRPC/registry/registry.go:71 | splitting undoes joining if and only if there is a piece and no piece holds a comma |
| AddressList.DecodedIff | SuRPC/xclient/discovery_su.go:53-59 | the addresses read from the registry's answer are the registry's if and only if each of them is not empty, free of commas and trimmed |
| AddressList.DecodedPadded | SuRPC/xclient/discovery_su.go:53-59 | an answer with spaces around its addresses and blank pieces between them reads as the addresses in it |
| RegistryDiscovery.AppendTrimmed | SuRPC/xclient/discovery_su.go:55-59 | the loop appends the trimmed non-blank pieces in order |
| RegistryDiscovery.SuRegistryDiscovery.Update | SuRPC/xclient/discovery_su.go:31-37 | replaces the list, keeps the turn and restarts the timeout |
| RegistryDiscovery.SuRegistryDiscovery.Refresh | SuRPC/xclient/discovery_su.go:39-62 | fetches only when the list is too old, fails only when it is and the registry cannot be reached, and changes nothing otherwise |
| RegistryDiscovery.SuRegistryDiscovery.Get | SuRPC/xclient/discovery_su.go:64-70 | refreshes first and then picks; a fetched list is never empty |
| RegistryDiscovery.AnswerDoubles | SuRPC/xclient/discovery_su.go:53-59 | the list made from clean addresses is one empty name for each of them, one in all when there are none, and then the addresses |
| RegistryDiscovery.BlankIff | SuRPC/xclient/discovery_su.go:54-59 | for any answer a position holds an empty name if and only if it is below the number of pieces |
| RegistryDiscovery.HalfTheTurnsAreBlank | SuRPC/xclient/discovery_su.go:54-59 | over k clean addresses exactly k of any 2k round-robin turns go to an empty name |
| Generator.BindVarsAt | SORM/clause/generator.go:27-33 | the c-th placeholder of a row stands at 3 * c and c placeholders precede it |
| Generator.BindVarsSize | SORM/clause/generator.go:27-33 | a row of n has exactly n placeholders |
| Generator.GenBindVars | SORM/clause/generator.go:27-33 | the loop writes that row |
| Generator.GenValues | SORM/clause/generator.go:48-69 | the loop writes one group for every row, sized by the first row that is not empty, and binds all values in order |
| Generator.GenUpdate | SORM/clause/generator.go:88-105 | whatever the order of the map, every column appears once, with its value at the same place |
| Generator.Generate | SORM/clause/generator.go:14-25 | the generator of each kind of clause |
| Alignment.TuplesPlaceholders | SORM/clause/generator.go:56-64 | how many placeholders are written for all rows |
| Alignment.WidthStays | SORM/clause/generator.go:58-60 | once a row is not empty, all later rows are written as wide |
| Alignment.RowsAlignedIff | SORM/clause/generator.go:56-66 | each row lies under its own placeholders if and only if behind a row that is not empty all rows are as long |
| Alignment.RaggedRows | SORM/clause/generator.go:56-66 | rows of widths 2, 1, 3 agree in number and are misaligned |
| Alignment.PlaceholderOfRow | SORM/clause/generator.go:48-69 | for rows of width w, row r and column c has placeholder number r * w + c and binds value number r * w + c, which is its own |
| Alignment.ColumnBindsItsValue | SORM/clause/generator.go:88-105 | in every order of the map the k-th column has placeholder number k and binds its own value |
| Alignment.BalancedIff | SORM/clause/generator.go:34-116 | a clause has as many placeholders as values if and only if names hold no question mark, a condition has as many as its arguments, and rows fill their groups |
| ClauseBuilder.Clause.Set | SORM/clause/clause.go:26-34 | stores the generated clause under its kind, replacing an earlier one, and changes no other |
| ClauseBuilder.Clause.Build | SORM/clause/clause.go:37-52 | joins the clauses present in the order asked for, with their values in the same order, and forgets them all; balanced clauses give as many placeholders as values |
| ClauseBuilder.StatementAlignedIff | SORM/clause/clause.go:45-51 | every clause of a statement lies over its own values if and only if every clause is balanced |
| ClauseBuilder.BuildIsBalanced | SORM/clause/clause.go:37-52 | any choice from balanced clauses in any order, with repeats or missing ones, is balanced |
| ClauseBuilder.PlaceholderInStatement | SORM/clause/clause.go:45-51 | a placeholder of one clause binds in the whole statement the value it binds in the clause |
| ClauseBuilder.InsertStatement | SORM/session/record.go:17-21 | in the built insert, row r and column c has placeholder r * w + c and binds its own value |
| ClauseBuilder.UpdateStatement | SORM/session/record.go:76-77 | in the built update the columns come first and the j-th argument of the condition binds placeholder number columns + j |
| Statements.ChosenAround | SORM/clause/clause.go:41-44 | at each place of the order asked for, the clause is there once if it was set and left out otherwise |
| Statements.BuiltInsert | SORM/session/record.go:17-21 | the whole text and values of an insert |
| Statements.BuiltSelect | SORM/session/record.go:41-42 | of a query with condition, order and limit, in whatever order they were set |
| Statements.BuiltUpdate | SORM/session/record.go:76-77 | of an update with a condition, for any order of its columns |
| Statements.BuiltDelete | SORM/session/record.go:90-91 | of a deletion with a condition |
| Statements.BuiltCount | SORM/session/record.go:102-103 | of a count with a condition |
| Statements.AssignmentsAt | SORM/clause/generator.go:96-99 | each assignment is the column's name and a placeholder |
| Statements.TuplesAreGroups | SORM/clause/generator.go:52-66 | the rows are written as one parenthesised group each, with commas between them |
| Statements.DecimalReads | SORM/clause/generator.go:72-75 | the limit is written as digits that read as it, behind a minus when it is negative |
| Statements.SelectReadsBack | SORM/clause/generator.go:34-39 | two queries over names without commas and spaces with one text have the same fields, in the same order, and the same table |
| Statements.InsertReadsBack | SORM/clause/generator.go:41-46 | and so have two inserts |

## Left out

- Sockets, HTTP handlers, dialling, option negotiation, gob, JSON and protobuf encoding: the wires are sequences of header and body items in the order in which the codec writes them.
- RpcServer: its read loop and handlers are goroutines that share a connection, so they are steps of a machine and not methods on an object; the same holds for the client's `receive`, `send` and `Call` outside their critical sections.
- RpcSession.AnswersReachTheirCall: stated for runs in which callers ask for registered methods only, because a failed lookup leaves the body unread (`RpcServer.StaysAlignedIff` shows that nothing less will do).
- RpcSession.ServerMeetsFrames: once a lookup has failed the server may find a body where it expects a header; what the codec makes of it is not modelled, such a read can only fail.
- Remote values: what a peer's answer decodes to (`CCache/http.go:99-122`, `CCache/ccache.go:122-138`) is an arbitrary value; only values of owned keys are tied to the source.
- Registry.SuRegistry.AliveServers: the source takes no lock here, so a concurrent registration may race with the scan; the model runs one call at a time.
- RpcClient: formatting directives in a server's error text (`SuRPC/client.go:126` uses it as a format) are not expanded; `Reported(text)` stands for the formatted error.
- RpcClient: channels supplied by users of `Go`, which may fill up, are not modelled; every call has the one-slot channel that `Call` makes.
- Strings are sequences of characters: lengths and order agree with Go's, which counts and compares bytes, on ASCII text.
- Integer widths: `usedBytes` does not overflow 64 bits and fewer than 2^64 calls are made on a connection.
- Discovery: random selection is any position; nothing is claimed about its distribution, nor about the balance of the hash ring.
- Generator: a request carries arguments of the right types; the panics of the type assertions and `fmt`'s treatment of other types are not modelled.
- A group without registered peers, panics in getters, services and hooks, and what `onEvicted` does with an entry.
- Reflection, schemas, dialects, transactions, logging, `XClient` and its broadcast: easy or decided by external systems.
