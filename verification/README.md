# Verified model of the radix tree, the split-ordered table and the DRAM cache

A Dafny model of the index structures and the cache of openfam-radixtree, with proofs. `dafny verify dfyconfig.toml`
checks everything. Nothing here executes the original program, and nothing was executed.

The model follows the program's structure.

| files | what they model |
|---|---|
| `Common`, `RadixHeap`, `RadixTreeSequential` | the radix tree as one client sees it: a class over a heap of nodes, refining a map of live keys |
| `RadixSteps`, `RadixCalls`, `RadixLeftover`, `KvsBuffers` | the tree under every interleaving of shared reads and compare-and-swaps, and the value buffers that the key-value store keeps in it |
| `RadixScan` | the resumable ordered iterator |
| `VersionedCache`, `CacheCalls`, `CacheOverTree` | caches of several nodes over one shared store, validated by version tags, and the tree as that store |
| `SplitOrder`, `SplitWords` | bit-reversed keys, dummies and bucket parents, on numbers and on the 64-bit macros |
| `SplitTableSpec`, `SplitTable` | the split-ordered hash table as one client sees it |
| `SplitListCore`, `SplitListSteps`, `SplitListCalls`, `SplitListSweep` | its linked list under every interleaving of insertions, deletions and searches |
| `SlabMover`, `Assoc`, `LruQueue`, `BipBuffer` | the cache's slab allocator with its page mover, hash table with incremental expansion, LRU queue with its crawler, and log buffer |
| `Jenkins`, `Itoa` | the cache's hash function and integer printers |

## How to read it

* Concurrent parts are state machines: an action is one shared read, one compare-and-swap or one stretch under a lock.
  A run is a sequence of states joined by enabled actions; theorems quantify over all runs. Where a lock makes a stretch
  atomic, the stretches are the methods of a class, every method keeps `Valid()`, and so every order of calls does.
* Sequential parts that change things in place are classes. A pointer structure is a `map` from addresses to nodes.
* A call is known by the action that began it: theorems about calls name the kind, key, name or data of that action, and
  what the call answers or changes is said in terms of them (`Calls`, `CallIs`).
* Linearizability is stated by moments: what a call answers was so at a moment between its begin and its return, and a
  step changes what is stored by the effect of its own call or not at all.

## Properties that fail, and exactly when they hold

* A put that retries a split reuses its intermediate node without clearing it (src/radix_tree.cc:357-431).
  `LeftoverBreaksTree` is a run that leaves the tree ill-formed; `SwingExact` says that publishing the node is safe if
  and only if its slots are the ones this attempt means to fill, and `RunExact` that the tree is well formed throughout a
  run if and only if no swing of the run publishes a leftover. The other theorems about runs hold for rebuilt nodes, and
  for the code as it is on runs without such a leftover.
* `next_value` looks at a node's value before it finds the node longer than the end key (src/radix_tree.cc:666-682).
  `OverhangHappens` shows a key past the end delivered; `ScanExact` says that a scan delivers the asked range if and only
  if no live key hangs over its end.
* The split-ordered table compares only the stored key's bytes (src/split_ordered.cc:226). `CollisionMisleads` is the
  run in which one key answers for another; `MapExactlyWhenSeparated` says that the table is a map on a set of keys, for
  all runs, if and only if no two of them collide with one answering for the other.
* `bipbuf_poll` refuses only what lies beyond the whole buffer (extra/KVS-DRAM-Cache/bipbuffer.c:151-158).
  `PollTooLong` shows the cursors it can leave; `PollExact` says that a poll is a FIFO's removal if and only if it asks for
  no more than region A.

* `memory_allocate` counts a page whether or not malloc gave it (extra/KVS-DRAM-Cache/slabs.c:517-545), and a class
  without a page is not held to the limit (250-251). So memory is not kept within the limit and one page for each class
  that has one: `TwoFailures` breaks this bound with a limit of one page, and `FailuresAddUp` counts any number of pages
  with none owned. `TakePage` says that the bound survives a call if and only if the call does not come to malloc, or
  malloc succeeds, or there is no limit, or there is still room; the bound of every run has one page more for each
  failure on a class without a page.

## Hypotheses

* Allocation gives fresh, zeroed memory, and freed memory is not reused while a call may hold it.
* Compare-and-swap and 128-bit loads are atomic. Tags are unbounded numbers.
* Key bytes are unsigned, as src/radix_tree.cc:49 intends; src/radix_tree.cc:685-686 converts a plain `char`.
* A stored value of the split-ordered table is not 0, which the table uses for "not found".
* Signed 32-bit products wrap around. `d * 100000000` in extra/KVS-DRAM-Cache/itoa_ljust.c:95 passes 2^31 from
  2200000000 on, which C leaves undefined.
* Hashes are arbitrary functions; the number of hash bits is a parameter `w`, 63 in the source.

## Model

| member | source | states |
|---|---|---|
| `RadixTreeSequential.RadixTree.Put` | src/radix_tree.cc:221-433 | the tree stays well formed and exactly the key's cell changes, to the new value with tag 0 or the next tag, or stays when updating is not asked for and a value is there; the previous cell and the key's node are returned |
| `RadixTreeSequential.RadixTree.Get` | src/radix_tree.cc:435-486 | the cell of the key, null when no node has the key |
| `RadixTreeSequential.RadixTree.Destroy` | src/radix_tree.cc:488-534 | exactly the key's cell changes, to null with the next tag, and its old content is returned; no node leaves the tree |
| `RadixTreeSequential.RadixTree.GetC` | src/radix_tree.cc:1125-1165 | without the early exit, and whatever byte follows the key in memory, the same node and cell as the key's |
| `RadixTreeSequential.RadixTree.DestroyC` | src/radix_tree.cc:1187-1233 | the same for destroy: the key's node, its old cell, and nothing else changed |
| `RadixTreeSequential.RadixTree.GetAt` | src/radix_tree.cc:1167-1185 | reading by node pointer gives the cell of the node's key |
| `RadixTreeSequential.RadixTree.PutAt` | src/radix_tree.cc:1097-1123 | writing by node pointer is writing the cell of the node's key under the next tag |
| `RadixTreeSequential.RadixTree.Descend` | src/radix_tree.cc:226-322 | the walk ends at the key's own node, at the empty slot towards it, or at the node where the key leaves the tree; the first is the only case in which the key has a node |
| `RadixTreeSequential.RadixTree.Hang` | src/radix_tree.cc:323-354 | a leaf on an empty slot writes the key's cell and no other, and keeps the tree well formed |
| `RadixTreeSequential.RadixTree.Swing` | src/radix_tree.cc:357-431 | so does swinging a slot to an intermediate node |
| `RadixHeap.WroteLive` | src/radix_tree.cc:221-534 | writing a cell is an update or a removal in the map of live keys |
| `RadixHeap.WithSplitKeeps` | src/radix_tree.cc:357-431 | a split keeps every prefix strictly below its parent and its slot byte, leads to every node as before, and writes one cell |
| `RadixSteps.CallIs` | src/radix_tree.cc:221-534 | a call works, throughout, with the kind and key that it was begun with, from the moment of its begin |
| `RadixSteps.ReturnsAreCurrent` | src/radix_tree.cc:221-534 | in every run the tree is well formed, and every cell returned by put, get, destroy, getC or destroyC, by key or by node pointer, was the cell of the key the call was begun with at a moment after its begin |
| `RadixCalls.WritesAreAtomic` | src/radix_tree.cc:278-431 | a put or destroy that has returned changed the tree exactly once, by a step of its own: its key's cell, and no other, went from what it returned to its value under the next tag, or tag 0 in a new node; the one exception is a destroy of a key that had no node at a moment of the call; a get changes nothing |
| `RadixCalls.FinishesAlone` | src/radix_tree.cc:226-534 | from every state of a run, up to one that publishes a leftover, a call that is left alone comes to its end |
| `RadixSteps.ActionsAreAtomic` | src/radix_tree.cc:278-431 | an action changes no cell, or it is the step of a writing call that sets its own key's cell, and no other |
| `RadixSteps.NodesAreForever` | src/radix_tree.cc:1097-1261 | the node of a key, once published, is the only node of that key in all later states, so calls by node pointer and by key work on the same cell |
| `RadixSteps.SameTagMeansUnchanged` | src/kvs_radix_tree.cc:472-506 | a cell that reads the same at two moments was not replaced in between |
| `RadixSteps.SlotsNeverReturn` | src/radix_tree.cc:345-352 | a child slot never goes back to a pointer it has left |
| `RadixSteps.SwingExact` | src/radix_tree.cc:357-431 | publishing the intermediate node keeps the tree well formed if and only if its slots are those of this attempt |
| `RadixSteps.RunExact` | src/radix_tree.cc:221-534 | for the code as it is, the tree is well formed throughout a run if and only if no swing of the run publishes slots of an earlier attempt |
| `RadixSteps.LookHonest` | src/radix_tree.cc:1125-1165 | a look at one node returns the key's present cell, or null on a way that had left the key; so does the walk of getC and destroyC that goes on below a longer key |
| `RadixSteps.RebuiltIsClean` | src/radix_tree.cc:376-377 | an attempt that builds its node from empty has no leftover slots |
| `RadixLeftover.LeftoverBreaksTree` | src/radix_tree.cc:357-431 | a run of three puts in which a retried split publishes a slot of an earlier attempt and the tree is no longer well formed |
| `KvsBuffers.BuffersAreOwnedOnce` | src/kvs_radix_tree.cc:131-254 | in every run every value buffer is in exactly one place: private to a call, in one cell, or freed once; no stored buffer is freed and none is freed twice |
| `RadixScan.ScanAll` | src/radix_tree.cc:825-902 | scan followed by get_next until failure gives exactly the asked keys, each once, in strictly increasing byte order, with their cells |
| `RadixScan.Iter.Scan` | src/radix_tree.cc:825-891 | the first of the asked keys, if any, with the rest still due; for every open, inclusive and exclusive bound |
| `RadixScan.Iter.LowerBound` | src/radix_tree.cc:724-823 | the iterator is put where exactly the keys from the begin key on are ahead |
| `RadixScan.Iter.NextValue` | src/radix_tree.cc:540-718 | the smallest due key is delivered and is no longer due; failure means nothing was due |
| `RadixScan.ScanExact` | src/radix_tree.cc:666-682 | a scan's keys are the range between its bounds if and only if no live key hangs over the end |
| `RadixScan.OverhangHappens` | src/radix_tree.cc:666-682 | a tree and bounds for which a key past the end is delivered |
| `CacheCalls.CallIs` | extra/KVS-DRAM-Cache/cache_api.cc:24-237 | a call works, throughout, at the spot and with the data that it was begun with, from the moment of its begin |
| `CacheCalls.GetsAreCurrent` | extra/KVS-DRAM-Cache/cache_api.cc:100-237 | in every run of clients and caches a get returns a version of the key it was begun with that was current in the store at a moment of the call, with that version's data, or an absence that was so |
| `CacheCalls.StoresWriteOnce` | extra/KVS-DRAM-Cache/cache_api.cc:668-751 | a store that has returned changed the shared store exactly once, by a step of its own: the key went to the returned version, under the next tag or tag 0, in a new buffer that holds the data handed in |
| `CacheCalls.DeletesClearOnce` | extra/KVS-DRAM-Cache/cache_api.cc:849-873 | a delete that has returned changed the shared store by one step of its own only, and there the key's cell became null under the next tag, unless the key had no node |
| `CacheCalls.OthersChangeNothing` | extra/KVS-DRAM-Cache/cache_api.cc:100-237 | a get, and a store that failed, changed nothing in the shared store |
| `CacheCalls.StoresAreSeen` | extra/KVS-DRAM-Cache/cache_api.cc:668-751 | a get through any cache that begins after a store has returned gives that version with the stored data, or a later one; it finds nothing only where a later delete has cleared the key |
| `CacheCalls.DeletesAreSeen` | extra/KVS-DRAM-Cache/cache_api.cc:849-873 | a get that begins after a delete has returned gives no version that was there up to the delete |
| `CacheCalls.FailsOnlyWithCause` | extra/KVS-DRAM-Cache/cache_api.cc:100-237 | a call fails only when an allocation or a copy on its way has failed |
| `CacheCalls.CachedAtReturn` | extra/KVS-DRAM-Cache/cache_api.cc:668-751 | when a call returns, the cache holds what a get or a store returned and nothing at the spot of a delete |
| `CacheCalls.HitsNeedNoCopy` | extra/KVS-DRAM-Cache/cache_api.cc:100-160 | a hit on a version that is still current is served from the cache without a copy from the store |
| `CacheCalls.FinishesAlone` | extra/KVS-DRAM-Cache/cache_api.cc:100-237 | from every reachable state a call that is left alone with its item's lock ends within five steps, and does not fail when nothing on its way has failed |
| `VersionedCache.CachedTagsNeverDrop` | extra/KVS-DRAM-Cache/cache_api.cc:100-237 | the tag cached for a key never goes backwards, across refresh, store, eviction and refetch |
| `VersionedCache.ApplyInv` | extra/KVS-DRAM-Cache/cache_api.cc:100-873 | every action of every client keeps the protocol's invariant |
| `CacheOverTree.TreeActsAsStore` | src/kvs_radix_tree.cc:352-546 | every action of the concurrent tree changes its cells only in ways the cache protocol reckons with |
| `SplitWords.ReverseIsRev` | src/split_ordered.cc:68-76 | REVERSE on a 64-bit word is bit reversal of the number it stands for |
| `SplitWords.ReverseMirrors` | src/split_ordered.cc:68-76 | bit i of REVERSE(x) is bit 63-i of x |
| `SplitWords.ReverseTwice` | src/split_ordered.cc:68-76 | REVERSE is an involution |
| `SplitWords.DummyOfWord` | src/split_ordered.cc:104-107 | so_dummykey on words is `DummyKey` on numbers |
| `SplitWords.RegularOfWord` | src/split_ordered.cc:99-102 | so_regularkey on words is `RegularKey` on numbers |
| `SplitWords.GetParentOfSplit` | src/split_ordered.cc:114-125 | get_parent of b + size is b, for every power-of-two size above b |
| `SplitWords.WordOrder` | src/split_ordered.cc:220 | words are ordered, and equal, as the numbers they stand for |
| `SplitWords.GetParentIsParent` | src/split_ordered.cc:114-125 | get_parent on words is `Parent` on numbers |
| `SplitWords.ParentWordIsBefore` | src/split_ordered.cc:320-332 | the dummy word of get_parent's bucket is less than the bucket's own |
| `SplitWords.BucketOfWordsIsRun` | src/split_ordered.cc:99-125 | for every power-of-two size a hash is in bucket b if and only if its key word lies in the run behind b's dummy word |
| `SplitWords.GetParentIsLess` | src/split_ordered.cc:114-125 | get_parent makes a bucket number smaller, so that initialising parents ends |
| `SplitOrder.RevTwice` | src/split_ordered.cc:68-76 | reversing n bits twice gives the number back |
| `SplitOrder.RevBit` | src/split_ordered.cc:68-76 | bit i of the reversed number is bit n-1-i |
| `SplitOrder.KeyParity` | src/split_ordered.cc:99-107 | dummy keys are even, and the regular key of a number comes right after its dummy key |
| `SplitOrder.BucketIsRun` | src/split_ordered.cc:99-125 | for every power-of-two size the hashes of bucket b are exactly those whose keys lie in one run of the list that starts at b's dummy |
| `SplitOrder.DoublingSplits` | src/split_ordered.cc:320-347 | doubling splits that run in the middle, at the dummy of b + size |
| `SplitOrder.ParentOfSplit` | src/split_ordered.cc:109-125 | the bucket split off has the parent it was split off from |
| `SplitOrder.ParentIsBefore` | src/split_ordered.cc:320-332 | a parent's dummy comes before its child's, so that the search from the parent finds the place |
| `SplitTableSpec.MapExactlyWhenSeparated` | src/split_ordered.cc:217-236 | the table acts as a map on a set of keys in all runs if and only if no two of them collide with one answering for the other |
| `SplitTableSpec.SeparatedActsAsMap` | src/split_ordered.cc:420-532 | with such keys, every run of inserts, updates, finds and deletes is a run of a map |
| `SplitTableSpec.CollisionMisleads` | src/split_ordered.cc:226 | otherwise storing the one key and looking for the other finds a value under a key that is not stored |
| `SplitTable.SplitOrderedList.ListFind` | src/split_ordered.cc:177-255 | from the bucket's cell, the place before the first match or before the first larger key, and the value there |
| `SplitTable.SplitOrderedList.ListInsert` | src/split_ordered.cc:258-285 | a node is linked in at that place unless a match is there, and the list stays sorted |
| `SplitTable.SplitOrderedList.ListDelete` | src/split_ordered.cc:287-317 | the matching node is taken off, if there is one, and nothing else changes |
| `SplitTable.SplitOrderedList.InitializeBucket` | src/split_ordered.cc:320-347 | the bucket and its missing parents get their dummies; what is stored does not change |
| `SplitTable.SplitOrderedList.Insert` | src/split_ordered.cc:420-454 | the answer and the new contents are those of the specification; the bucket of the hash has its cell; the count is the number of keys and the size a power of two that doubles exactly when the load passes three quarters and 2^20 allows it |
| `SplitTable.SplitOrderedList.Update` | src/split_ordered.cc:457-496 | the same for insert-or-update |
| `SplitTable.SplitOrderedList.Find` | src/split_ordered.cc:498-510 | the answer of the specification, with the contents unchanged although a bucket may be initialised |
| `SplitTable.SplitOrderedList.Delete` | src/split_ordered.cc:512-532 | the answer and contents of the specification, and the count, which is the number of keys, one less when a key is removed |
| `SplitListCalls.CallIs` | src/split_ordered.cc:177-317 | a call works, throughout, with the kind and name that it was begun with, from the moment of its begin |
| `SplitListCalls.AnswersAreRight` | src/split_ordered.cc:177-317 | in every run the answer of every search, insertion and deletion of a stored key was right at a moment of the call; a successful one is the change made by one step of that very call, and no other step of the call changes what is stored |
| `SplitListCalls.FinishesAlone` | src/split_ordered.cc:177-317 | from every reachable state a call that is left alone comes to its end |
| `SplitListSweep.DeletesTakeOff` | src/split_ordered.cc:287-317 | when a deletion has answered that it removed a key, the node it marked has been taken off the list |
| `SplitListSteps.StepsAreAtomic` | src/split_ordered.cc:258-317 | a step that links stores its own name, which was not stored, a step that marks removes its own name, every other step changes nothing stored; and a step takes at most one node off |
| `SplitListSteps.ListStaysSorted` | src/split_ordered.cc:177-317 | in every run the list from bucket 0 is sorted by split-order key |
| `SplitListSteps.MarkedIsFinal` | src/split_ordered.cc:287-306 | a marked node's next cell never changes again |
| `SplitListSteps.UnmarkedIsReachable` | src/split_ordered.cc:177-317 | an inserted node that is not marked is reached from bucket 0 |
| `SplitListSteps.TakenOffOnce` | src/split_ordered.cc:240-247 | each node is taken off at most once, and only after it was marked |
| `SplitListSteps.StepInv` | src/split_ordered.cc:177-317 | every step of every thread keeps the list's invariant and what all threads know |
| `SplitListCore.PutKeeps` | src/split_ordered.cc:274-283 | the swing that links a node in keeps the list well formed |
| `SplitListCore.CutKeeps` | src/split_ordered.cc:240-247 | the swing past a marked node keeps it well formed, and takes off a node that was on it |
| `SplitListCore.MarkNames` | src/split_ordered.cc:296-302 | the mark removes exactly the node's name |
| `SlabMover.Slabs.Finish` | extra/KVS-DRAM-Cache/slabs.c:1007-1070 | every chunk of the page was cleared, exactly that page changes its class, no other chunk is touched, and only pool pages are released |
| `SlabMover.DoneIsClear` | extra/KVS-DRAM-Cache/slabs.c:983-999 | when the mover is done no chunk of the page is on a freelist, handed out or linked |
| `SlabMover.Slabs.Visit` | extra/KVS-DRAM-Cache/slabs.c:777-905 | a free chunk is cut from the freelist and cleared; an idle linked item is held, with a chunk to save it in exactly when it has not expired and one of the first chunks of the freelist is off the page; a busy chunk makes the pass start again |
| `SlabMover.Slabs.Sweep` | extra/KVS-DRAM-Cache/slabs.c:777-1003 | undisturbed, the mover comes to its end on a page of idle items, with every chunk cleared |
| `SlabMover.Slabs.Insist` | extra/KVS-DRAM-Cache/slabs.c:834-850 | an item that others go on holding is unlinked once enough passes were made |
| `SlabMover.Slabs.Commit` | extra/KVS-DRAM-Cache/slabs.c:906-966 | with any calls of others in between, the held item moves to the saved chunk, which is off the page, and its old chunk is cleared; or it is dropped and its chunk freed |
| `SlabMover.Slabs.RebalanceAlloc` | extra/KVS-DRAM-Cache/slabs.c:709-738 | a chunk is found exactly when one of the first chunks of the freelist is off the page, and it is off the page; free chunks of the page met on the way are cleared and nothing else changes |
| `SlabMover.Slabs.CutFree` | extra/KVS-DRAM-Cache/slabs.c:743-752 | the chunk leaves the freelist, which keeps all others |
| `SlabMover.Slabs.Start` | extra/KVS-DRAM-Cache/slabs.c:656-705 | a move starts exactly for two different classes in range of which the first owns two pages and the second has room in its page list, with the first page |
| `SlabMover.Slabs.TakePage` | extra/KVS-DRAM-Cache/slabs.c:242-262 | a page comes from the pool or from malloc, and exactly when; a failed malloc is counted; when the bound on memory survives the call, and the bound that holds in every run |
| `SlabMover.Slabs.NewSlab` | extra/KVS-DRAM-Cache/slabs.c:242-271 | exactly when it succeeds, what it counts when it fails, and that the new chunks are all free and go to the front of the freelist in order |
| `SlabMover.FailuresAddUp` | extra/KVS-DRAM-Cache/slabs.c:517-545 | n failed mallocs for a class without a page count n pages with none owned, and break the bound exactly when n pages are more than the limit |
| `SlabMover.TwoFailures` | extra/KVS-DRAM-Cache/slabs.c:250-258 | the smallest such case: a limit of one page and two failures |
| `SlabMover.Slabs.Alloc` | extra/KVS-DRAM-Cache/slabs.c:274-320 | exactly when it succeeds and what it counts; the chunk is the first of the freelist or of a new page, it was free or not there before, and every other chunk and freelist stays as it was |
| `SlabMover.Slabs.Release` | extra/KVS-DRAM-Cache/slabs.c:374-398 | the chunk is free again and first on its freelist |
| `SlabMover.Slabs.MemoryRelease` | extra/KVS-DRAM-Cache/slabs.c:548-561 | pool pages are given back until the limit is met or the pool is empty, and no more |
| `Assoc.HashTable.Find` | extra/KVS-DRAM-Cache/assoc.c:78-102 | the stored item or none, at every point of an expansion, with the lock of the key's hash held |
| `Assoc.HashTable.Insert` | extra/KVS-DRAM-Cache/assoc.c:156-180 | the contents gain the item, the two tables still hold each item once, and an expansion is asked for above 3/2 load |
| `Assoc.HashTable.Delete` | extra/KVS-DRAM-Cache/assoc.c:182-202 | the contents lose the key and nothing else |
| `Assoc.HashTable.MoveItem` | extra/KVS-DRAM-Cache/assoc.c:226-233 | moving one item keeps the two tables holding the contents once each |
| `Assoc.HashTable.Migrate` | extra/KVS-DRAM-Cache/assoc.c:216-251 | a bucket is emptied and the expansion moves on, ending exactly after the last bucket |
| `Assoc.HashTable.MigrateAll` | extra/KVS-DRAM-Cache/assoc.c:210-255 | an expansion left to itself comes to its end with the contents unchanged |
| `Assoc.HashTable.Expand` | extra/KVS-DRAM-Cache/assoc.c:126-145 | the table doubles with its contents unchanged, or stays when there is no memory |
| `Assoc.LockCovers` | extra/KVS-DRAM-Cache/thread.c:94-104 | the one lock taken for a bucket is the lock of every hash whose chain the move touches |
| `Assoc.RouteIsStable` | extra/KVS-DRAM-Cache/assoc.c:83-90 | moving on changes the chain of no hash but those under that lock |
| `Assoc.ChainDecides` | extra/KVS-DRAM-Cache/assoc.c:83-90 | under its lock the chain that the code goes to holds the key's item exactly when the table has it |
| `LruQueue.Queue.Link` | extra/KVS-DRAM-Cache/items.c:443-459 | the item is the new head of a well-formed queue whose count and bytes are those of its items |
| `LruQueue.Queue.Unlink` | extra/KVS-DRAM-Cache/items.c:474-495 | the item is gone and the others keep their order, count and bytes |
| `LruQueue.Queue.LinkTail` | extra/KVS-DRAM-Cache/items.c:1745-1764 | the crawler is the new tail and is not counted |
| `LruQueue.Queue.UnlinkTail` | extra/KVS-DRAM-Cache/items.c:1766-1785 | the crawler is out wherever it was, also after it has come out by itself, and the items are unchanged |
| `LruQueue.Queue.Crawl` | extra/KVS-DRAM-Cache/items.c:1789-1841 | the crawler changes places with the item before it and gives that item, with the order of the items unchanged; at the head it comes out |
| `LruQueue.Queue.CrawlAll` | extra/KVS-DRAM-Cache/crawler.c:311-362 | an uninterrupted crawl gives every item once, from tail to head, and leaves the queue as it was |
| `BipBuffer.Buffer.Offer` | extra/KVS-DRAM-Cache/bipbuffer.c:109-128 | all bytes are appended or none, all exactly when they fit into the room that the places of the regions leave, and region A is not disturbed |
| `BipBuffer.UnusedIsRoom` | extra/KVS-DRAM-Cache/bipbuffer.c:68-74 | region B is in use exactly when there is more room before region A than behind it, so that the flag tells the larger room; an empty buffer has room for its size |
| `BipBuffer.Buffer.Push` | extra/KVS-DRAM-Cache/bipbuffer.c:91-107 | what stands at the requested place is appended |
| `BipBuffer.Buffer.Write` | extra/KVS-DRAM-Cache/bipbuffer.c:77-89 | writing at the requested place changes nothing in the buffer |
| `BipBuffer.Buffer.PeekAll` | extra/KVS-DRAM-Cache/bipbuffer.c:142-149 | region A, a prefix of the contents, or nothing exactly when the buffer is empty |
| `BipBuffer.Buffer.Poll` | extra/KVS-DRAM-Cache/bipbuffer.c:151-179 | when it refuses, and that it drops a prefix and keeps the buffer well formed exactly when it asks for no more than region A |
| `BipBuffer.Buffer.ReadCycle` | extra/KVS-DRAM-Cache/logger.c:305-336 | the bytes peeked are the bytes polled, whatever is offered in between, and nothing is lost |
| `BipBuffer.PollExact` | extra/KVS-DRAM-Cache/bipbuffer.c:151-179 | the cursors stay well formed if and only if the poll is no longer than region A |
| `BipBuffer.PollTooLong` | extra/KVS-DRAM-Cache/bipbuffer.c:151-158 | a poll that is not refused and leaves cursors that are no regions |
| `BipBuffer.PushAppends` | extra/KVS-DRAM-Cache/bipbuffer.c:68-107 | a push keeps the regions well formed, switches region without losing order, and appends |
| `Jenkins.JenkinsHash` | extra/KVS-DRAM-Cache/jenkins_hash.c:126-297 | the hash is a function of the bytes alone, whatever the key's alignment and length and whatever lies behind the key |
| `Jenkins.ByWords` | extra/KVS-DRAM-Cache/jenkins_hash.c:137-204 | the word path gives that hash, its masked over-reads included |
| `Jenkins.ByHalves` | extra/KVS-DRAM-Cache/jenkins_hash.c:205-251 | so does the half-word path |
| `Jenkins.ByBytes` | extra/KVS-DRAM-Cache/jenkins_hash.c:252-293 | so does the byte path |
| `Jenkins.MixLines` | extra/KVS-DRAM-Cache/jenkins_hash.c:79-87 | mix is its six lines on the words a, b and c, with their rotations |
| `Jenkins.FinalLines` | extra/KVS-DRAM-Cache/jenkins_hash.c:114-123 | final is its seven lines, with their rotations |
| `Jenkins.MixIsBijective` | extra/KVS-DRAM-Cache/jenkins_hash.c:79-87 | mix has an inverse on its three words |
| `Itoa.U32` | extra/KVS-DRAM-Cache/itoa_ljust.c:83-117 | the decimal form of every 32-bit number is appended, also where an int product wraps around |
| `Itoa.Minus` | extra/KVS-DRAM-Cache/itoa_ljust.c:92-107 | what is left after a product that wraps around is taken off a 32-bit number is the true remainder |
| `Itoa.U64` | extra/KVS-DRAM-Cache/itoa_ljust.c:128-140 | the decimal form of every 64-bit number is appended |
| `Itoa.LeadIsDivision` | extra/KVS-DRAM-Cache/itoa_ljust.c:92-107 | the leading digits are what the machine's division by a power of ten gives |
| `Itoa.LowerBlock` | extra/KVS-DRAM-Cache/itoa_ljust.c:135-139 | a lower block is exactly nine digits with its zeros |
| `Itoa.I32` | extra/KVS-DRAM-Cache/itoa_ljust.c:119-126 | a minus sign and the absolute value, the smallest number included |
| `Itoa.I64` | extra/KVS-DRAM-Cache/itoa_ljust.c:142-149 | the same for 64 bits |
| `Itoa.DecimalIsCanonical` | extra/KVS-DRAM-Cache/itoa_ljust.c:83-117 | the decimal form has digits only, no leading zero, and reads back as the number |
| `Itoa.SignedRoundTrip` | extra/KVS-DRAM-Cache/itoa_ljust.c:119-149 | the signed text reads back as the number |

## Left out

- Put: FIND_OR_CREATE is covered for one client only; with several it overwrites a valid value if it loses a race on an emptied node (src/radix_tree.cc:300-307).
- ReturnsAreCurrent: for the code as it is, on runs without leftover slots; for all runs when the intermediate node is rebuilt.
- ScanAll: the tree does not change during the scan, and begin_key_open is taken as an input because src/radix_tree.cc:847-848 reads a field before it is assigned.
- GetsAreCurrent: an allocation failure in item_get is an answer of its own and no absence; data overwritten after the item lock is dropped is not followed.
- SplitTable: marks, tags and retries are left to `SplitListSteps`; a node is allocated when it is linked; FindOrInsert repeats Insert.
- TreeActsAsStore: the changes of the tree are those of the cache's store; a read of the store is one moment there, and the tree's reads of many steps, of which `ReturnsAreCurrent` speaks, are not put into the cache protocol's runs.
- AnswersAreRight: keys are compared as wholes, and the values of the nodes are not followed; insertions of dummies are not answered for.
- FinishesAlone: says that a call ends when the others pause, not how long it takes while they go on.
- SplitListSteps: keys are compared as wholes, for which `MapExactlyWhenSeparated` says when that is right; a bucket's cell may point at any dummy that comes before the key; values and the size of the table are not followed.
- Visit: freelists are sequences rather than linked chunks, and pages come from malloc one by one rather than from one preallocated block.
- Alloc: byte accounting (`requested`) and chunk sizes are not followed.
- MoveItem: hash chains are sequences; between two moves the old bucket stands for what the loop's cursor still leads to.
- ByBytes: the order in which the bytes of a full block are added differs, which makes no difference to a sum of words.
- U32: the two-digit table is taken by its meaning, and the wrapping of a signed product is a hypothesis.
- FIND_OR_CREATE under concurrency, key-value store statistics and metrics: not modelled.
- TagGptr's packing of mark, pointer and tag into two words (include/radixtree/common.h): the fields are kept apart.
- The other cache and version modes: they repeat the same protocol or weaken it.
- Chunked items, slab class sizing, automove heuristics: not modelled.
- Network server, protocol parsing, logging output, persistence, epochs, CityHash and MurmurHash internals: I/O or foreign code.
