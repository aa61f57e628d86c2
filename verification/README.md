# graph-node in Dafny

A model of the parts of graph-node that keep a subgraph correct while its chain reorganises, with
proofs about all inputs, all runs or all reachable states. `dafny verify dfyconfig.toml` checks it.

What is modelled, and what the main results say:

- **Indexing under reorgs** (`Chain`, `PollingStream`, `Reconciliation`, `Runner`, `Pipeline`,
  `PipelineTheorems`, `QueuedReverts`, `ContentHistory`). The chain is a tree of blocks; heads change at
  any time, but blocks more than the reorg threshold below the head are final. The polling stream, the
  bounded buffer, the runner and the store form one state machine with stream errors, restarts, a process
  that may die at any point, and skipped pointer updates. In every run the stored pointer is the block
  the runner has consumed, or an ancestor of it with only empty blocks in between; the buffered events
  lead from there to the stream's position; a revert that is not ignored takes back exactly one block;
  and the committed blocks with triggers are exactly those on the path to the pointer. The pointer is
  behind every block that the buffered events reach if and only if none of them reverts below it. The
  content of the store is always that of the moment when its last remaining block was committed. On a
  head that stands still, every run of the poll loop, with any failed requests, retries and updates, reverts
  to the common ancestor and then only moves forward on the head's chain, and never reverts genesis. From
  every start some run comes to rest; it does so at the head if and only if it started below the head or at
  it.
- **Reverts without a pointer** (`UnwrapPanic`). The runner unwraps the stored pointer when a revert
  arrives. That is safe in all runs if and only if the deployment starts with a pointer: otherwise
  skipped updates let a revert arrive first, and the run is constructed for every reorg threshold.
- **The entity cache** (`Entities`, `Runner`). Layered pending operations mean the same as doing them one
  after the other. The modifications of a block do exactly what its handlers asked for if and only if
  every changed immutable entity is new, or known and left as it is. A committed block did what its handlers
  asked for if and only if every stored immutable entity that it changes was cached or looked up before.
  Whenever the runner waits for an event, its cache agrees with the store.
- **Data-source hosts** (`Hosts`, `PipelineTheorems`, `RestartedHosts`). In every run every stored data
  source has its host. Hosts stay ordered by creation block, so popping a suffix removes exactly the hosts of
  the reverted block. After a longer rewind this holds if and only if no host was created strictly between
  the target and the old pointer. A start that takes back a failed block loads the hosts first. They match
  the store afterwards if and only if no stored data source was created in that block. A run shows what
  happens otherwise: when the block runs again its data source counts as a duplicate and is never stored.
- **Log queries** (`LogFilters`, `LogScan`). The greedy decomposition covers every contract/event edge
  exactly once. Adaptive scanning returns exactly the matching logs whatever requests the node refuses; a
  log comes back twice if and only if its event is both a wildcard and an edge of its contract.
- **Call and block filters** (`CallFilters`). Extending unites what is matched if and only if no address
  wanted whole meets a list of selectors that leaves some selector out; filters built from data sources
  and templates never do that.
  The compiled list accepts exactly what `matches` accepts on well-formed calls.
- **Blocks with triggers** (`Triggers`, `ScanBlocks`, `ScanContract`). The trigger comparison is a total
  preorder if and only if no call lies between two logs whose log indices contradict their transactions.
  The sort is the unique stable sort. A scan on an honest node loses and duplicates nothing, except that
  it drops the calls of failed transactions. The blocks whose hashes it returns meet the contract the
  polling stream relies on, and come with triggers exactly when they carry some.
- **Assignment** (`Assignment`). For every interleaving of table changes with subscribing, reading and
  handling, and whichever manifests resolve when, a drained registrar runs exactly the assigned deployments.
  In a run, starts and stops of a deployment alternate if and only if it is never stopped after a start whose
  manifest did not resolve.
- **Query consistency** (`QueryConsistency`). As long as the 32-bit product does not wrap around, an
  accepted result was not read from a reverted block, in all runs, if and only if each revert call goes
  back by at most one block. With wrap-around, for single-block reverts, this holds if and only if the
  wrapped product still reaches as deep as the counted reorgs can.
- **Firehose** (`Firehose`). The server is a cursor-ordered log that is read after a cursor or from a
  start block on. Over any sequence of refused connections, disconnects, bad responses and rewinds, what
  was yielded since the last rewind is a segment of that log from the requested start, without gaps or
  duplicates, and the first event after a rewind is a block above its target that extends it or has no
  parent.
- **JSON lines** (`JsonLines`). However the bytes are cut into chunks, the same numbered lines come out.
- **GraphQL values** (`GraphValues`). Objects with tombstones act as insertion-ordered maps, and a query
  value survives the round trip, if and only if the tombstone's key is avoided and integers fit 32 bits.

Assumptions taken from the environment, stated as predicates in the code: hashes identify blocks; the
node the stream asks is on the final chain, ahead of the final block or behind it; one scan sees one
chain; a failed store operation leaves the store unchanged, and so does a failed revert leave the pointer
that the runner reads (the source moves it before it writes; `FailedRevertIff` says what follows when the
write then fails); the cached chain head is never ahead of the chain; block numbers stay below the 32-bit
maximum; the range-size ratio is a real number; the eviction policy may keep any part of the cache.

## Model

| member | source | states |
|---|---|---|
| PollingStream.NextStartBlockIsLeast | graph/src/blockchain/polling_block_stream.rs:341-345 | the limit used for a scan is at most every start block after its first block |
| PollingStream.ScanBounds | graph/src/blockchain/polling_block_stream.rs:333-375 | every scan is a forward range ending at or before head minus min(threshold, head), no wider than the range size, which is between 1 and the maximum, and never crosses a start block |
| PollingStream.PollingBlockStream.PollNext | graph/src/blockchain/polling_block_stream.rs:480-619 | the poll loop does, for all answers of its environment, what the five-state machine does |
| PollingStream.PollingBlockStream.constructor | graph/src/blockchain/polling_block_stream.rs:148-184 | a new stream starts slowly and begins with a reconciliation |
| PollingStream.SumTriggers | graph/src/blockchain/polling_block_stream.rs:505-509 | the loop computes the total number of triggers of the scanned blocks |
| PollingStream.RatioNonNegative | graph/src/blockchain/polling_block_stream.rs:505-551 | over all runs the trigger ratio stays non-negative, so every scan size is defined |
| PollingStream.MaximumStaysInRange | graph/src/blockchain/polling_block_stream.rs:494-503 | from at least 10, no sequence of errors and successes raises the maximum range or takes it below 10 |
| PollingStream.SmallMaximumGrows | graph/src/blockchain/polling_block_stream.rs:494-503 | a maximum below 10 is raised to 10 by one error followed by a success |
| PollingStream.MaximumNeverGrowsIff | graph/src/blockchain/polling_block_stream.rs:494-503 | the maximum never grows over all runs if and only if it starts at 10 or more |
| Reconciliation.ScanHops | graph/src/blockchain/polling_block_stream.rs:383-387 | a scan result leads from the current block to the last one by hops that jump only over blocks without triggers |
| Reconciliation.FutureStepKeepsInv | graph/src/blockchain/polling_block_stream.rs:217-472 | whatever the chain does between two requests of a reconciliation, it resolves only to blocks ahead on the right chain or to a revert to the parent, and never reverts genesis |
| Reconciliation.MainChainCheck | graph/src/blockchain/polling_block_stream.rs:292-321 | a block beyond the threshold that the node has on its main chain is final, and otherwise it is not an ancestor of the final prefix |
| Reconciliation.FrozenRun | graph/src/blockchain/polling_block_stream.rs:217-462 | whatever requests fail, a whole reconciliation on a standing head resolves only to a result that position and head allow |
| Reconciliation.PassIsReached | graph/src/blockchain/polling_block_stream.rs:217-472 | every such result is what some sequence of requests resolves to |
| Reconciliation.RequestsStand | graph/src/blockchain/polling_block_stream.rs:217-472 | when chain store and node stand still, every result that the requests of a run resolve to is one that position and head allow at that round |
| Reconciliation.PassMoves | graph/src/blockchain/polling_block_stream.rs:217-462 | each result moves one block down towards the common ancestor, or up on the head's chain |
| Reconciliation.Settles | graph/src/blockchain/polling_block_stream.rs:217-582 | on a standing head every run of the poll loop, with any failed requests, retries, delays and head updates, yields apart from errors first one revert for each block down to the common ancestor, then blocks up on the head's chain by hops over empty blocks, and no more events than there are blocks on this way; started below the head or at it, it is idle only at the head |
| Reconciliation.NeverPastGenesis | graph/src/blockchain/polling_block_stream.rs:464-472 | no run of the loop on a standing head reverts below the common ancestor, and so none reverts genesis |
| Reconciliation.SettlesAtHeadIff | graph/src/blockchain/polling_block_stream.rs:217-582 | from every start some finite run of the loop on a standing head comes to rest; it rests at the head if and only if it started below the head or at it |
| Reconciliation.PassIsPolling | graph/src/blockchain/polling_block_stream.rs:480-582 | some answers take the poll loop through one result and make it yield exactly the result's events, on a standing head if the result is one it allows |
| Reconciliation.WalkIsPolling | graph/src/blockchain/polling_block_stream.rs:480-582 | conversely, every sequence of allowed results is a run of the poll loop on the standing head that yields exactly their events |
| Reconciliation.ScansAreContiguous | graph/src/blockchain/polling_block_stream.rs:333-387 | once a scan up to `to` has been yielded, the stream stands at block `to`, where the next scan continues |
| Pipeline.StreamKeepsInv | graph/src/blockchain/polling_block_stream.rs:535-582 | a round of the loop yields an event that leads from the old position to the new one |
| Pipeline.CommitKeepsLog | core/src/subgraph/runner.rs:354-364 | storing a block keeps the log of committed blocks exact |
| Pipeline.RevertKeepsLog | core/src/subgraph/runner.rs:779-829 | taking back the newest block keeps the log of committed blocks exact |
| Pipeline.RevertStepInv | core/src/subgraph/runner.rs:779-829 | a revert event keeps the whole invariant; if it is not ignored, it takes back the newest stored block |
| Pipeline.BlockStepInv | core/src/subgraph/runner.rs:575-777 | a block event keeps the whole invariant for every outcome |
| Pipeline.StartStepInv | core/src/subgraph/stream.rs:10-45 | a stream that restarts from the stored pointer satisfies the whole invariant |
| Pipeline.RunInv | core/src/subgraph/runner.rs:65-130 | the invariant that relates chain, stream, buffer, runner and store holds in every state of every run |
| ContentHistory.ContentIsOfLastCommit | core/src/subgraph/runner.rs:796-826 | in every state of every run, whatever was committed and reverted since, the content is what it was right after the last block that is still committed |
| PipelineTheorems.PointerTracksStream | graph/src/blockchain/block_stream.rs:30-64 | in every run the pointer is an ancestor-or-equal of the block reached by the consumed events with no triggers in between, and the buffered events lead from there to the stream's current block |
| QueuedReverts.PointerStaysBehindIff | graph/src/blockchain/block_stream.rs:30-64 | in every run the pointer is an ancestor-or-equal of every block that replaying the buffered events reaches, and then of the stream's current block, if and only if no buffered revert goes below it |
| QueuedReverts.PointerIsAhead | graph/src/blockchain/polling_block_stream.rs:535-543 | for every reorg threshold a run in which the pointer is ahead of the stream, because the revert still waits in the buffer |
| PipelineTheorems.CommittedBlocksAreThePath | core/src/subgraph/runner.rs:354-364 | in every run the committed trigger-bearing blocks are those on the path from the start to the pointer, each once, ascending |
| PipelineTheorems.RevertsMoveOneBlock | core/src/subgraph/runner.rs:779-829 | a revert that changes the store moves it from the consumed block to its parent |
| PipelineTheorems.BlocksComeAboveThePointer | store/postgres/src/deployment.rs:333-379 | blocks reach the store above its pointer, so none is refused as a duplicate |
| PipelineTheorems.GenesisIsNeverReverted | graph/src/blockchain/polling_block_stream.rs:464-472 | the request for the parent of genesis is never made in any run |
| PipelineTheorems.FailedRevertIff | store/postgres/src/writable.rs:943-952 | if the write of a revert fails after the cached pointer moved, storing the next block from the target keeps the committed blocks those on the path if and only if the block that should be gone carries no trigger or was never committed |
| PipelineTheorems.HostsMatchStore | core/src/subgraph/runner.rs:210-241 | in runs without a failure after data-source creation, and in which no start took back a block with stored data sources, the hosts are the manifest's followed by those of the stored data sources |
| PipelineTheorems.StartedHostsMatchIff | core/src/subgraph/runner.rs:65-87 | hosts are loaded before a failed block is taken back, so after a start they match the manifest and the store if and only if no stored data source was created in a block taken back |
| PipelineTheorems.StoredSourcesHaveHosts | core/src/subgraph/runner.rs:210-241 | in every state of every run, whatever failed before, every data source of the manifest and of the store has its host |
| RestartedHosts.HostOutlivesItsBlock | core/src/subgraph/instance_manager.rs:154-249 | for every reorg threshold a run that ends with a start after which a host has no stored data source |
| RestartedHosts.DataSourceIsLost | core/src/subgraph/runner.rs:65-87 | for every reorg threshold a run in which a block that was taken back runs again, its data source is a duplicate, and after the next start it is neither stored nor does it have a host |
| PipelineTheorems.HostsSorted | core/src/subgraph/instance.rs:188-233 | hosts that match the store are sorted by creation block and bounded by the pointer |
| PipelineTheorems.RevertKeepsHosts | core/src/subgraph/runner.rs:825 | a revert to the parent pops exactly the hosts of the reverted data sources |
| PipelineTheorems.HostOrderAssertionHolds | core/src/subgraph/instance.rs:188-220 | the ordering assertion fires in no run without a failure after data-source creation, whichever blocks were taken back by starts |
| UnwrapPanic.PointerStays | core/src/subgraph/runner.rs:784-788 | a deployment that starts with a pointer has one in every state |
| UnwrapPanic.PanickingRun | core/src/subgraph/runner.rs:784-788 | without a start pointer a run exists, for every reorg threshold, that ends in the unwrap |
| UnwrapPanic.UnwrapIsSafeIff | core/src/subgraph/runner.rs:784-788 | the unwrap is safe in all runs if and only if the deployment starts with a pointer |
| Hosts.PopIsFilter | core/src/subgraph/instance.rs:222-233 | on sorted hosts, popping the suffix removes every host created at or after the block |
| Hosts.RewindPopsEnoughIff | core/src/subgraph/runner.rs:825 | popping from the old pointer's number is enough for a rewind if and only if no host was created strictly between the target and it |
| Hosts.AddAllKeepsOrder | core/src/subgraph/runner.rs:442-482 | creating data sources in a block after all earlier ones keeps the order and never trips the assertion |
| Hosts.AddAllConcat | core/src/subgraph/runner.rs:210-213 | creating data sources in several batches is creating them in one, and stops where that stops |
| Hosts.AddAllKeepsDistinct | core/src/subgraph/instance.rs:188-220 | no data source gets two hosts, and without an error every requested one has a host |
| Hosts.SubgraphInstance.FromManifest | core/src/subgraph/instance.rs:38-70 | one host per data source in order, or an error if and only if one cannot be built |
| Hosts.SubgraphInstance.AddDynamicDataSource | core/src/subgraph/instance.rs:188-220 | adds a host unless it is over the limit, cannot be built or is a duplicate, keeping order and distinctness |
| Hosts.SubgraphInstance.RevertDataSources | core/src/subgraph/instance.rs:222-233 | the loop leaves exactly the hosts created before the block when they are sorted |
| Hosts.LoadDynamicDataSources | core/src/subgraph/loader.rs:9-40 | returns the stored data sources, or an error if and only if one cannot be built or they are not ordered by creation block |
| Entities.AccumulateMeaning | graph/src/components/store/mod.rs:880-897 | accumulating two operations on an entity means doing one after the other |
| Entities.ApplyToMeaning | graph/src/components/store/mod.rs:867-878 | a reader sees the meaning of the pending operation, up to nulls that are still spelled out |
| Entities.ViewAddOp | graph/src/components/store/cache.rs:196-209 | recording an operation behind the pending ones means doing it last |
| Entities.MoveOp | graph/src/components/store/cache.rs:86-95 | moving an operation from the handler's layer to the block's layer changes nothing that is seen |
| Entities.EntityCache.WithCurrent | graph/src/components/store/cache.rs:67-79 | a cache that agrees with the store shows the store |
| Entities.EntityCache.EnterHandler | graph/src/components/store/cache.rs:81-84 | entering a handler changes nothing that is seen |
| Entities.EntityCache.ExitHandler | graph/src/components/store/cache.rs:86-95 | leaving a handler keeps what it did |
| Entities.EntityCache.ExitHandlerAndDiscardChanges | graph/src/components/store/cache.rs:97-101 | discarding a handler restores what was seen before it and leaves only the pending changes of before |
| Entities.EntityCache.Get | graph/src/components/store/cache.rs:103-114 | a lookup returns what the pending operations mean on the store, and only fills the cache |
| Entities.EntityCache.Set | graph/src/components/store/cache.rs:125-173 | setting an entity merges it into what is seen; a conflicting id is refused without an effect, an entity that is not valid by itself is looked up, and an invalid merged one is an error |
| Entities.EntityCache.RemoveKey | graph/src/components/store/cache.rs:116-118 | removing an entity removes it from what is seen |
| Entities.EntityCache.RecordOp | graph/src/components/store/cache.rs:196-209 | an operation goes to the handler's layer inside a handler and to the block's layer outside |
| Entities.EntityCache.Modify | graph/src/components/store/cache.rs:270-314 | one entity's modification and cached value are those its current state and pending operation determine |
| Entities.EntityCache.AsModifications | graph/src/components/store/cache.rs:225-322 | one modification per changed entity; they do to the store what is seen if and only if changed immutable entities are new, or known and left as they are; if the transaction succeeds it did so if and only if stored immutable entities that changed were known, and the cache that is handed back agrees with the result |
| Entities.ApplyAllPointwise | store/postgres/src/relational.rs:698-764 | with one modification per key, a transaction acts on each entity independently, and fails if and only if an inserted entity exists, or a changed one does not or is immutable |
| Entities.ModificationMeaning | graph/src/components/store/cache.rs:270-310 | a modification turns the known state of an entity into what its operation means |
| Entities.ModificationIsIdleIff | graph/src/components/store/cache.rs:295-302 | a modification leaves the entity as it was if and only if it overwrites it with the same data and spelled-out nulls |
| Entities.ModificationsDoView | graph/src/components/store/cache.rs:225-322 | for well-behaved changes the modifications do what the operations mean |
| Entities.IllBehavedDiffers | graph/src/components/store/cache.rs:235-243 | an immutable entity that exists already makes the transaction fail, or its removal gets lost if it was not known |
| Entities.ModificationsExactIff | graph/src/components/store/cache.rs:225-322 | the modifications do exactly what was asked if and only if every changed immutable entity is new, or known and set to what it is |
| Entities.TransactedExactlyIff | graph/src/components/store/cache.rs:235-243 | a transaction that succeeds did exactly what was asked if and only if every stored immutable entity that was changed was known to the cache |
| Entities.CacheAgreesAfter | graph/src/components/store/cache.rs:225-322 | whenever the transaction succeeds the cache handed back agrees with the new content |
| Runner.RunCalls | core/src/subgraph/runner.rs:402-440 | handlers run in the cache leave what running them directly on the store would leave; a failing handler leaves nothing but what it looked up; the pending changes are exactly those of the other handlers |
| Runner.PoiTransaction | core/src/subgraph/runner.rs:335-345 | after a deterministic failure the transaction holds nothing but the proof of indexing |
| Runner.SubgraphRunner.CreateDynamicDataSources | core/src/subgraph/runner.rs:442-482 | new hosts are appended with the block's number, up to the first that fails, and exactly those are returned |
| Runner.SubgraphRunner.RunAllRounds | core/src/subgraph/runner.rs:210-270 | rounds of creating data sources and running their handlers leave the hosts of all data sources created in one go, and what the handlers would leave in the store, with exactly their changes pending |
| Runner.SubgraphRunner.ProcessBlock | core/src/subgraph/runner.rs:134-400 | for every outcome and any number of rounds of data-source creation: what is committed, which hosts are added, when a restart follows, when an assertion fails, and that the cache agrees with the store if the run goes on; without a fatal error the committed content is what the handlers ask for if and only if every stored immutable entity that they change was cached or looked up |
| Runner.SubgraphRunner.HandleProcessBlock | core/src/subgraph/runner.rs:575-777 | a block is skipped when it is empty, the last update is recent, the deployment is not synced and the head is far; otherwise it is committed with the content that the handlers ask for under the same exact condition, or the store is unchanged; the cache agrees with the store whenever the runner goes on |
| Runner.SubgraphRunner.HandleRevert | core/src/subgraph/runner.rs:779-829 | a revert at or above the pointer is ignored, another one moves the store to its target and pops hosts; it panics if and only if there is no pointer |
| Runner.SubgraphRunner.Run | core/src/subgraph/runner.rs:65-130 | for any events and outcomes, whenever the runner waits for the next event its cache agrees with the store |
| Runner.SubgraphRunner.constructor | core/src/subgraph/runner.rs:44-63 | the runner starts with a cache that agrees with the store |
| LogFilters.MaxVertex | chain/ethereum/src/adapter.rs:375-376 | the chosen vertex has the most neighbours |
| LogFilters.CoverVertex | chain/ethereum/src/adapter.rs:377-396 | the filters of a vertex cover exactly its edges, once each, within the contract limit |
| LogFilters.WildcardFilters | chain/ethereum/src/adapter.rs:344-349 | one filter per wildcard event |
| LogFilters.EthGetLogsFilters | chain/ethereum/src/adapter.rs:343-400 | terminates; every edge is in exactly one filter, no other pair in any; each filter names one contract or one event, neither side empty, at most the maximum contracts |
| LogScan.SelectSplit | chain/ethereum/src/ethereum_adapter.rs:349-412 | adjacent ranges together give the whole range in order |
| LogScan.LogStream | chain/ethereum/src/ethereum_adapter.rs:322-412 | on success exactly the filter's logs of the range; the step shrinks at most as often as its first value has decimal digits, and requests are bounded by blocks plus shrinks |
| LogScan.CompiledFiltersAccept | chain/ethereum/src/adapter.rs:240-257 | the compiled filters accept a log if and only if `matches` does, and how often |
| LogScan.LogsInBlockRange | chain/ethereum/src/ethereum_adapter.rs:662-686 | on success each log of the range comes back as often as it counts, whatever requests were refused |
| LogScan.ScanIsExact | chain/ethereum/src/ethereum_adapter.rs:662-686 | a log is returned if and only if it is in the range and matches |
| LogScan.ReturnedTwiceIff | chain/ethereum/src/ethereum_adapter.rs:662-686 | a log is returned twice if and only if its event is a wildcard and an edge of its contract; never more often |
| CallFilters.Compile | chain/ethereum/src/adapter.rs:413-444 | on well-formed calls the compiled list accepts exactly what `matches` accepts, and every compiled filter is valid |
| CallFilters.ContractAccepts | graph/src/firehose/sf.ethereum.transform.v1.rs:26-37 | a contract's compiled filter accepts exactly the calls the contract asks for |
| CallFilters.EthereumCallFilter.Extend | chain/ethereum/src/adapter.rs:528-559 | merges entry by entry: smaller start block, union of selectors |
| CallFilters.ExtendMatchesUnionIff | chain/ethereum/src/adapter.rs:447-490 | an extended filter matches exactly the union if and only if no address wanted whole meets a list of selectors that leaves some selector out |
| CallFilters.FromIter | chain/ethereum/src/adapter.rs:572-596 | the loop builds the filter of the declarations |
| CallFilters.FromDataSources | chain/ethereum/src/adapter.rs:509-525 | the filter of all call handlers of data sources with an address |
| CallFilters.BuildInPlace | chain/ethereum/src/adapter.rs:136-167 | extending part by part gives the merge of all parts |
| CallFilters.BuildIsFlat | chain/ethereum/src/adapter.rs:528-559 | however data sources and templates arrive, the filter is that of all declarations at once |
| CallFilters.ContractsSum | chain/ethereum/src/adapter.rs:572-596 | an address has an entry if and only if it is declared; the entry holds exactly the declared selectors, at least one, and the smallest declared start block |
| CallFilters.BuiltFilterMatchesDeclared | chain/ethereum/src/adapter.rs:447-525 | a filter built from data sources and templates matches a call if and only if it is well-formed and some handler declares it |
| CallFilters.BuiltFiltersUnite | chain/ethereum/src/adapter.rs:528-559 | extending such a filter by another matches exactly the union |
| CallFilters.EthereumBlockFilter.AddStart | chain/ethereum/src/adapter.rs:696-712 | one entry per address is kept, with the smaller start block |
| CallFilters.EthereumBlockFilter.Extend | chain/ethereum/src/adapter.rs:684-714 | one entry per address, with the smallest start block of both filters |
| CallFilters.LeastIsUnique | chain/ethereum/src/adapter.rs:684-714 | that choice is unique, so the order of the entries does not matter |
| CallFilters.BlockFilterFromDataSources | chain/ethereum/src/adapter.rs:646-682 | one entry per declared address with its smallest start block; every block is wanted if and only if some handler has no filter |
| CallFilters.CallFilterFromBlockFilter | chain/ethereum/src/adapter.rs:598-611 | the derived call filter matches exactly the well-formed calls to the block filter's addresses |
| Triggers.CmpIsTotal | chain/ethereum/src/trigger.rs:271-309 | swapping the arguments reverses the comparison |
| Triggers.OrderIsPreorderIff | chain/ethereum/src/trigger.rs:271-309 | the comparison is transitive on a set of triggers if and only if no call lies between two logs whose log indices contradict their transactions |
| Triggers.CmpComparesKeys | chain/ethereum/src/trigger.rs:271-309 | if log indices grow with the transaction index, it is the comparison by (block last, transaction, log before call, log index) |
| Triggers.LogsInOrderAreConsistent | chain/ethereum/src/trigger.rs:271-309 | and then it is a total preorder |
| Triggers.SortTriggers | graph/src/blockchain/block_stream.rs:131-138 | the vector is sorted in place |
| Triggers.SortIsPermutation | graph/src/blockchain/block_stream.rs:131-138 | no trigger is lost or duplicated by sorting |
| Triggers.SortIsSorted | graph/src/blockchain/block_stream.rs:131-138 | on consistent triggers the result is ordered |
| Triggers.SortIsStable | graph/src/blockchain/block_stream.rs:131-138 | equal triggers keep their order |
| Triggers.StableSortIff | graph/src/blockchain/block_stream.rs:131-138 | the result is the only ordered arrangement that keeps equal triggers in order |
| Triggers.BlocksComeLast | chain/ethereum/src/trigger.rs:271-280 | block triggers come last, in their original order; on inconsistent triggers this speaks of insertion sort |
| ScanBlocks.LoadBlocks | chain/ethereum/src/ethereum_adapter.rs:1243-1289 | every hash contributes its block once, from cache or node, sorted by number; an error if and only if one is found nowhere |
| ScanBlocks.GroupByBlock | chain/ethereum/src/ethereum_adapter.rs:1406-1412 | triggers are grouped by block number in order |
| ScanBlocks.AttachTriggers | chain/ethereum/src/ethereum_adapter.rs:1420-1438 | an error if and only if a block has no group or two blocks have the same number; otherwise each block gets its sorted group |
| ScanBlocks.FilterCallTriggers | chain/ethereum/src/ethereum_adapter.rs:1604-1738 | an error if and only if the status of some call cannot be told; otherwise exactly the calls of failed transactions go |
| ScanBlocks.InspectTransactions | chain/ethereum/src/ethereum_adapter.rs:1658-1701 | the status of every wanted transaction, from the store or else the client |
| ScanBlocks.CheckRange | chain/ethereum/src/ethereum_adapter.rs:1450-1467 | looking at the first and last block rejects exactly results that leave the range |
| ScanBlocks.BlocksWithTriggers | chain/ethereum/src/ethereum_adapter.rs:1404-1468 | any success is ascending and in range; on an honest node it succeeds if and only if all blocks are found and all calls can be inspected, and returns exactly the blocks of the triggers and the last one |
| ScanBlocks.ScanConservesTriggers | chain/ethereum/src/ethereum_adapter.rs:1404-1468 | each trigger comes back as often as it was found, except calls of failed transactions; the last block is `to` |
| ScanBlocks.TriggersSitInTheirBlock | chain/ethereum/src/ethereum_adapter.rs:1404-1468 | each returned trigger is in the block with its own hash |
| ScanContract.ScanMeetsContract | graph/src/blockchain/block_stream.rs:165-176 | the blocks whose hashes the scan returns lie on the chain, ascend, end with its last block and leave out only blocks without triggers, as the polling stream relies on; a block comes with triggers if and only if it carries some |
| ScanContract.LogScanFindsAll | chain/ethereum/src/ethereum_adapter.rs:662-686 | for log filters, the scan for logs finds exactly the trigger-bearing blocks |
| ScanContract.ScanLogTriggers | chain/ethereum/src/ethereum_adapter.rs:1305-1468 | for a deployment with only event handlers, a success on an honest node meets the contract of the polling stream, and each block comes with triggers if and only if it carries some, whatever requests were refused |
| Assignment.SubgraphAssignmentProvider.constructor | core/src/subgraph/provider.rs:19-35 | nothing runs at first |
| Assignment.SubgraphAssignmentProvider.Start | core/src/subgraph/provider.rs:39-70 | idempotent start; a manifest that does not resolve leaves the id in the running set without a call |
| Assignment.SubgraphAssignmentProvider.Stop | core/src/subgraph/provider.rs:72-89 | idempotent stop |
| Assignment.RunInv | core/src/subgraph/registrar.rs:63-131 | in every interleaving, whichever starts resolve, each deployment runs as the table says once its queued changes are handled |
| Assignment.DrainedRunsAssigned | core/src/subgraph/registrar.rs:71-131 | with no change queued or in handling, exactly the assigned deployments run |
| Assignment.DrainConverges | core/src/subgraph/registrar.rs:159-243 | draining from any reachable serving state ends there, whichever starts resolve |
| Assignment.CallsAlternateIff | core/src/subgraph/provider.rs:39-89 | in every state of every run the calls for an id alternate between start and stop if and only if it was never stopped after a start whose manifest did not resolve |
| Assignment.ResolvingCallsAlternate | core/src/subgraph/provider.rs:39-89 | they alternate in every run in which every start of the id resolves |
| Assignment.StoppedWithoutStart | core/src/subgraph/provider.rs:39-89 | a run in which an id whose manifest did not resolve is stopped although it was never started |
| QueryConsistency.LowestBlock | store/postgres/src/deployment.rs:423-444 | each counted reorg lowers the head by at most the depth of one call |
| QueryConsistency.UnchangedIsSound | graphql/src/runner.rs:112-136 | if the check passes, no block at or below the largest one read was reverted, for every run whose reverts stay within the recorded depth |
| QueryConsistency.SingleBlockRevertsAreSound | graphql/src/runner.rs:112-136 | runs that revert one block per call always stay within it |
| QueryConsistency.RewindIsMissed | store/postgres/src/deployment.rs:423-444 | a call that goes back several blocks is recorded as depth one, and a query it affects passes |
| QueryConsistency.CheckIsSoundIff | graphql/src/runner.rs:112-136 | the check is sound if and only if each revert call goes back by at most one block |
| QueryConsistency.ProductIsSoundIff | graphql/src/runner.rs:122-134 | for single-block reverts with final depth m and k counted reorgs, the check is sound in all runs if and only if the product, taken modulo 2^32, is at least the deepest they can reach: k less the number of blocks that must be added so that no more than m reverts come in a row |
| QueryConsistency.LowestSingleRevert | store/postgres/src/deployment.rs:423-444 | no run of single-block reverts goes deeper than that |
| QueryConsistency.DeepestIsReached | store/postgres/src/deployment.rs:333-444 | for every m and k at least 1 some run goes exactly that deep |
| QueryConsistency.WrapAroundExamples | graphql/src/runner.rs:129 | 2^16 reorgs of depth 2^16 are missed; 100000 of depth 100000 wrap around and are still caught |
| QueryConsistency.LargestBlockRead | graphql/src/runner.rs:187-217 | the loop finds the largest block read |
| QueryConsistency.Execute | graphql/src/runner.rs:138-224 | decides by the margin below the old head; if the margin reaches as deep as the reverts can, an accepted result was read from no reverted block; the count assertion holds |
| Firehose.FirehoseBlockStream.constructor | graph/src/blockchain/firehose_block_stream.rs:168-214 | start block, cursor and continuity flag of a new stream |
| Firehose.FirehoseBlockStream.ProcessResponse | graph/src/blockchain/firehose_block_stream.rs:349-415 | proceed, rewind or fail, clearing the flag only on proceed |
| Firehose.FirehoseBlockStream.StreamBlocks | graph/src/blockchain/firehose_block_stream.rs:223-341 | the nested loops do what the step-by-step description says for any sequence of connections |
| Firehose.StreamKeepsPending | graph/src/blockchain/firehose_block_stream.rs:206-304 | in every run, while the flag is up there is no cursor, the pointer is set and the start block is the one after it |
| Firehose.StreamLinks | graph/src/blockchain/firehose_block_stream.rs:369-412 | in every run, whatever the server sends, the first event after a flagged start, and after every rewind, extends the subgraph's block or has no parent if it is a block |
| Firehose.FirstBlockExtends | graph/src/blockchain/firehose_block_stream.rs:281-412 | in every run that the server serves, the first item after a flagged start, and after every rewind, is a block above the subgraph's block that extends it or has no parent |
| Firehose.StreamTracksServer | graph/src/blockchain/firehose_block_stream.rs:260-319 | over any refused connections, disconnects, bad responses and rewinds, the items since the last rewind are a segment of the server's log without a gap; it begins at the first block after the rewind's target, or where the first request asked for, and the next request continues it |
| Firehose.YieldsNoDuplicates | graph/src/blockchain/firehose_block_stream.rs:236-241 | no event is yielded twice between two rewinds |
| Firehose.RewoundStreamReadsOn | graph/src/blockchain/firehose_block_stream.rs:281-304 | a run in which the stream rewinds to a final block, reads on from there and reaches the block that caused the rewind again |
| JsonLines.LinesOfBuffer | core/src/link_resolver.rs:248-275 | a line complete in the buffer is the first line of whatever follows |
| JsonLines.LinesAreLocated | core/src/link_resolver.rs:238-293 | every reported line is a whole non-empty line of the input, numbered by its place among all lines |
| JsonLines.EveryLineIsReported | core/src/link_resolver.rs:238-293 | every non-empty line of the input is reported, with its number |
| JsonLines.LineNumbersGrow | core/src/link_resolver.rs:238-293 | lines come in order, each once |
| JsonLines.LinesTerminated | core/src/link_resolver.rs:280-288 | terminating the last line changes nothing |
| JsonLines.JsonStream.PollNext | core/src/link_resolver.rs:238-293 | each poll yields the next line of what has been read and is to come, the error of a line that is no JSON, or an error of the byte stream, keeping what remains |
| JsonLines.ReadAll | core/src/link_resolver.rs:238-293 | for every way of cutting the input into chunks and any errors in between, the values and errors are those of the lines of the whole input, and then the stream ends |
| GraphValues.Object.Get | graph/src/data/value.rs:24-29 | the value of the first entry with the key |
| GraphValues.Object.Insert | graph/src/data/value.rs:53-61 | replaces in place or appends, and returns the old value |
| GraphValues.Object.Remove | graph/src/data/value.rs:31-39 | leaves a tombstone and returns the old value |
| GraphValues.Object.Iterate | graph/src/data/value.rs:114-125 | yields exactly the entries that are no tombstones, in order |
| GraphValues.InsertActsAsMapIff | graph/src/data/value.rs:53-61 | an insertion acts as on an insertion-ordered map if and only if the key is not the tombstone's |
| GraphValues.ObjectActsAsMap | graph/src/data/value.rs:19-62 | after any insertions and removals of ordinary keys, iteration and lookup are those of an insertion-ordered map |
| GraphValues.GetReturnsLastWrite | graph/src/data/value.rs:24-61 | `get` returns the last insertion of the key unless it was removed since, and no key is listed twice |
| GraphValues.ConvertsIff | graph/src/data/value.rs:297-329 | the conversion from query values succeeds if and only if there is no variable and no integer beyond 64 bits; otherwise the error carries such a part |
| GraphValues.RoundTripIff | graph/src/data/value.rs:357-380 | a converted query value comes back unchanged if and only if its integers fit 32 bits and no key is the tombstone's |

## Left out

- Store internals, network clients, retries, metrics, logging, configuration and WASM hosts: they appear as parameters with contracts.
- Host cleanup after multi-block rewinds: only the exact condition is proved (`RewindPopsEnoughIff`).
- PipelineTheorems.HostsMatchStore: the hosts of a block that fails after it created data sources stay until the next start; until then only `StoredSourcesHaveHosts` speaks of them.
- Receipt flags of log filters, and the Firehose form of log filters.
- Call traces: `trace_stream` and the parsing of triggers out of blocks.
- The scan emits only one kind of block trigger where the in-block path emits two; both paths of trigger discovery are outside the model.
- ScanBlocks.BlocksWithTriggers: starts from the triggers and the hash of block `to`; failures while they are fetched are not modelled.
- ScanBlocks.FilterCallTriggers: the query for stored receipts is taken to succeed; a failure would only add another way to end in an error.
- Triggers.CmpIsTotal: a log is taken to have its transaction index; the source panics when it compares a log without one to a call.
- Firehose.StreamLinks: an event that is not a block clears the continuity flag without being compared, as in the source; `FirstBlockExtends` shows that a server which serves its log sends none there.
- Triggers.BlocksComeLast: the source's sort promises no order on inconsistent triggers; there the statement is about insertion sort.
- LogScan.LogStream: provider-specific error codes are one answer, "too heavy".
- What the schema says of an entity: whether its id fits, and whether it is valid by itself or merged, are parameters.
- Floats of GraphQL values are bit patterns.
- `Object::extend`, which can duplicate keys, and building an object from an iterator.
- What a line of JSON means: whether a line parses is a parameter.
- Back-off delays, node capabilities, other chains, subscriptions and the execution of queries.
