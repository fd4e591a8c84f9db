# Verified models of the chapter systems

A Dafny project that models the algorithms and protocols at the heart of this repository and proves what they are for.
`dafny verify dfyconfig.toml` checks everything.

| area | modules | main results |
|---|---|---|
| consistent hashing | `Ring`, `HashRing`, `Migration` | lookup, locality, order independence, exact migration plans |
| stock exchange | `Exchange`, `Ledger`, `Priority`, `Expiry`, `PriceHeap`, `OrderIndex`, `Engine`, `CommandEffects` | conservation, price-time fairness, exact DAY expiry, exact cancellation and refusal, the daily limit, the in-place engine with its heap and linked-list index refines plain rules |
| market data | `Evolution`, `Books`, `MarketFeed`, `FeedEffects` | consumers always hold the engine's book at the head they name, and a consistent one whatever they are fed |
| digital wallet | `WalletShard`, `WalletEffects`, `Transfers`, `TransferSafety`, `TransferFinality`, `WalletAudit`, `StaggeredAudit`, `TransferProgress`, `TransferDecisions`, `WalletJournal`, `JournalProgress`, `ReplicatedTransfers` | each account's balance told by its transfers, atomicity, finality, conservation, a clean audit however its reads are spread out, every pending transfer can finish and every payable one succeed, a fenced replicated journal that runs ahead of every effect |
| object storage | `ObjectStore`, `ObjectSafety`, `ObjectRetention`, `ObjectMultipart`, `ObjectEffects`, `DataNode` | garbage collection never deletes an acknowledged live copy, nor one of a removed version within grace; multipart sessions |
| unique identifiers | `Bits`, `Snowflake`, `SnowflakeRuns`, `SnowflakeLaw` | round trips for every layout, strictly increasing over any run, the law of time and sequence numbers |
| tools | `ReadmeGuide`, `Inbox`, `GridGraph` | publication is a fixed point, exact message bookkeeping, the street grid |

`Wrappers`, `Sorting`, `Sums`, `Texts` and `Digests` hold the shared groundwork.

Objects the sources update in place are classes whose methods are proved equal to plain functions of the old state;
the lemmas are about those functions. Protocols over several processes are step functions: a run is any list of steps,
and a late, repeated or lost message is a step that happens later, again or never. The hash functions of the ring are
arbitrary partial functions to integers; the chained logs take their row hash as a parameter, and where equal heads
must mean equal logs, freedom from collisions is an explicit precondition (`CollisionFree`). Clock readings are
arbitrary integers. Collection fences are numbers that only grow, standing for identifiers never used twice.

## Where the code does not do what is promised

- A completing multipart session cannot always be finished. Sessions, single uploads and delete markers share one
  idempotency identity (bucket, key, request), but opening a session looks only at other sessions. If an intent of other
  content holds the identity, completion fails with a conflict every time, and since maintenance finishes completing
  sessions first, it never collects again. `ObjectMultipart.CompletionFinishesIff` gives the exact condition and
  `CompletionCanBeStuck` a run that gets there.
- A generated identifier cannot always be parsed: a legal layout may reach past the year 9999, as the parser's own
  documentation admits.
  `Snowflake.ParseInvertsCompose` gives the exact condition, `SnowflakeRuns.SomeIdentifiersDoNotParse` an example.
- The lab client can lose a message in two ways. `remove` deletes the first message that Python finds equal, and `1`,
  `1.0` and `true` are equal; and a frame that is not a JSON object makes `command` raise, as a raising predicate does
  `until`, after the frame was taken off the socket. `Inbox.ExactIffClear` gives the exact condition for both,
  `EqualButDifferentLoses` and `ListIsLost` an example of each.
- A README with a start marker and no end marker behind it is never refreshed, and it stops the publisher for every
  file. `ReadmeGuide.ContentHoldsBlockIff` gives the exact condition on the text, `StartAloneIsUnclosed` an example and
  `Run` the consequence; the fixed point holds for such a text too.

## Model

| member | source | states |
|---|---|---|
| `Ring.BisectRight` | consistent-hashing/src/consistent_hashing/ring.py:66-71 | binary search over the ascending positions finds the first position strictly greater than the hash; equal positions are skipped |
| `Ring.LookupFindsOwner` | consistent-hashing/src/consistent_hashing/ring.py:66-76 | strict-clockwise lookup returns the one entry met first when walking clockwise from the key, wrapping included; no position has two owners |
| `Ring.EqualPositionIsSkipped` | consistent-hashing/src/consistent_hashing/ring.py:122-123 | a key exactly at a virtual-node position is never owned by an entry at that position while another position exists |
| `Ring.Locality` | consistent-hashing/src/consistent_hashing/ring.py:200-219 | if one entry set contains another, whatever nodes the added entries belong to, every position whose owner differs is owned by an added entry: keys move only to what was added, for every hash function, collisions included |
| `Ring.GetNodes` | consistent-hashing/src/consistent_hashing/ring.py:90-108 | `get_nodes`: its errors; otherwise the distinct servers in the order their first entry is met clockwise, as many as asked or all, starting with the owner |
| `Ring.PreferenceIsPrefixMonotone` | consistent-hashing/src/consistent_hashing/ring.py:90-108 | of two preference lists for one key the shorter is a prefix of the longer |
| `HashRing.MembershipFixesEntries` | consistent-hashing/src/consistent_hashing/ring.py:23-31 | the entry tuple is a function of the final node weights alone, however the ring was built, so routing does not depend on membership order |
| `HashRing.BulkIgnoresOrder` | consistent-hashing/src/consistent_hashing/ring.py:151-162 | bulk construction from any reordering of the same nodes gives the same entries |
| `HashRing.Create` | consistent-hashing/src/consistent_hashing/ring.py:126-162 | construction: its refusals in order, else a ring whose entries are exactly the hashed labels of every node, sorted |
| `HashRing.ConsistentHashRing.AddNode` | consistent-hashing/src/consistent_hashing/ring.py:200-219 | adding a node: every refusal leaves the state alone; success publishes exactly the entries of the new weights and returns the positions in index order |
| `HashRing.ConsistentHashRing.RemoveNode` | consistent-hashing/src/consistent_hashing/ring.py:221-235 | removal keeps exactly the other nodes' entries, without hashing, and returns the removed positions in index order |
| `HashRing.ConsistentHashRing.SetVirtualNodes` | consistent-hashing/src/consistent_hashing/ring.py:237-263 | a weight change publishes exactly the entries of the new weights, or refuses and changes nothing |
| `HashRing.ConsistentHashRing.GetNode` | consistent-hashing/src/consistent_hashing/ring.py:269-271 | `get_node` on the live ring is the strict-clockwise owner of the hashed key |
| `HashRing.ConsistentHashRing.GetNodes` | consistent-hashing/src/consistent_hashing/ring.py:273-275 | `get_nodes` on the live ring: its errors; otherwise distinct members in the order their first entry is met clockwise, as many as asked or every member, starting with the owner |
| `HashRing.WeightChangeIsLocal` | consistent-hashing/src/consistent_hashing/ring.py:237-263 | adding or growing one node moves keys only to it; read backwards, shrinking or removing moves only keys it owned |
| `HashRing.GrowThenRestore` | consistent-hashing/src/consistent_hashing/ring.py:254-263 | setting a weight and setting it back restores every entry and so every route |
| `Migration.OwnersAtBoundaries` | consistent-hashing/src/consistent_hashing/migration.py:78-91 | the one-pass owner sweep yields, for every boundary, the owner of that position |
| `Migration.RangesArePlan` | consistent-hashing/src/consistent_hashing/migration.py:43-75 | the changed intervals between union boundaries are disjoint, cover exactly the positions whose owner differs, and carry the right owners, for wrap, full-ring, empty-ring and collision cases |
| `Migration.AffectedRanges` | consistent-hashing/src/consistent_hashing/migration.py:43-75 | `affected_ranges` refuses views of different hash functions and otherwise returns exactly such a plan |
| `Migration.CandidateRange` | consistent-hashing/src/consistent_hashing/migration.py:108-113 | the range found by bisecting the starts contains a position exactly when its owner changes, and then names both owners |
| `Migration.IterMigrations` | consistent-hashing/src/consistent_hashing/migration.py:94-115 | the binary-search filter yields exactly the naive per-key comparison of the two topologies, in order, duplicates kept |
| `Migration.OneSidedPlan` | consistent-hashing/src/consistent_hashing/migration.py:43-75 | the plan of an addition names only the added node as new owner, the plan of a removal only the removed one as previous owner |
| `Exchange.ScanFindsBest` | stock-exchange-system/src/stock_exchange/order_book.py:88-98 | the best resting order by price and then sequence number, found exactly when one rests |
| `Exchange.ReduceKeepsWf` | stock-exchange-system/src/stock_exchange/matching.py:46-209 | every command keeps orders, enumeration and account lines well-formed and advances the cursor by one |
| `Ledger.ReduceKeepsSound` | stock-exchange-system/src/stock_exchange/matching.py:46-209 | one command keeps every audited fact: no negative balance, each owner's held cash and shares exactly what its open orders reserve, each line its opening amount plus its trades, executions dense and within both limits, fills adding up |
| `Ledger.ReplayIsSound` | stock-exchange-system/src/stock_exchange/audit.py:4-60 | every state any command history reaches satisfies all of that |
| `Ledger.SupplyIsConserved` | stock-exchange-system/src/stock_exchange/audit.py:24-36 | total cash, and total shares of every symbol, stay at the configured opening supply in every reachable state |
| `Priority.MatchUncrosses` | stock-exchange-system/src/stock_exchange/matching.py:163-206 | when the matching loop stops no resting bid reaches a resting ask, the incoming order and orders of one owner included |
| `Priority.ReplayIsUncrossed` | stock-exchange-system/src/stock_exchange/matching.py:163-206 | in every reachable state no open bid reaches an open ask of its symbol |
| `Priority.MatchIsFair` | stock-exchange-system/src/stock_exchange/matching.py:163-204 | fills happen in strict price-then-sequence order, at the resting price, within the limit, never with the same owner; a better order is used up before a worse one trades; earlier trades are kept |
| `Priority.MatchStopsForAReason` | stock-exchange-system/src/stock_exchange/matching.py:163-172 | the loop ends because the order is spent, or nothing is within its limit, or the best opposing order is its owner's own and the incoming order is cancelled; no other order ever is: others only have more executed |
| `PriceHeap.Push` | stock-exchange-system/src/stock_exchange/order_book.py:34-36 | `heappush` on the price heap keeps the heap order and adds exactly one value |
| `PriceHeap.Pop` | stock-exchange-system/src/stock_exchange/order_book.py:97-97 | `heappop` removes exactly the least value and keeps the heap order |
| `OrderIndex.OrderBook.Add` | stock-exchange-system/src/stock_exchange/order_book.py:27-50 | linking an order appends it to the queue of its price; a listed order is refused |
| `OrderIndex.OrderBook.Remove` | stock-exchange-system/src/stock_exchange/order_book.py:52-75 | unlinking takes exactly that order out of its queue; an emptied level disappears; compaction changes no queue |
| `OrderIndex.OrderBook.Consume` | stock-exchange-system/src/stock_exchange/order_book.py:77-86 | an execution lowers exactly that order's quantity, removes it when used up, and refuses any other quantity |
| `OrderIndex.OrderBook.Best` | stock-exchange-system/src/stock_exchange/order_book.py:88-98 | the front of the best-priced queue, after popping stale prices, or nothing when the side is empty |
| `OrderIndex.RemoveRepresents` | stock-exchange-system/src/stock_exchange/order_book.py:52-69 | relinking the neighbours and the level represents the queues without that order: links both ways, level totals and stale heap entries included |
| `OrderIndex.Compact` | stock-exchange-system/src/stock_exchange/order_book.py:70-75 | rebuilding brings the heap within twice the live levels plus eight and keeps every live price; `OrderBook.Valid` holds that bound, so every operation keeps it |
| `Engine.FrontIsBest` | stock-exchange-system/src/stock_exchange/order_book.py:88-98 | the front of the best queue is the order that outranks all others on its side of the plain book |
| `Engine.MatchingEngine.BestMaker` | stock-exchange-system/src/stock_exchange/matching.py:164-167 | the index lookup returns exactly what scanning all open orders returns |
| `Engine.MatchingEngine.ReleaseOrder` | stock-exchange-system/src/stock_exchange/matching.py:30-43 | release in place equals the plain rule and keeps the index in step |
| `Engine.MatchingEngine.Execute` | stock-exchange-system/src/stock_exchange/matching.py:173-204 | one execution in place, balances, trade record, index and both orders, equals the plain rule |
| `Engine.MatchingEngine.MatchIncoming` | stock-exchange-system/src/stock_exchange/matching.py:161-206 | the whole loop in place equals the plain matching loop, and the remainder joins the book |
| `Expiry.DayExpiryIsExact` | stock-exchange-system/src/stock_exchange/matching.py:100-103 | DAY expiry closes exactly the active orders of other days; no other order changes, no trade is made, and every line still owns what it owned |
| `Expiry.NothingOutlivesItsDay` | stock-exchange-system/src/stock_exchange/matching.py:100-103 | in every reachable state the orders still working are of the day of the last command, accepted or rejected |
| `Engine.MatchingEngine.ExpireAll` | stock-exchange-system/src/stock_exchange/matching.py:100-103 | the expiry loop in place equals the plain rule and keeps the index in step |
| `Engine.MatchingEngine.ReduceCommand` | stock-exchange-system/src/stock_exchange/matching.py:46-209 | the engine with heaps, links and balances updated in place refines the plain rules for every command, and leaves everything alone on a refused one; `CommandEffects` says what those rules do |
| `CommandEffects.CancelIsExact` | stock-exchange-system/src/stock_exchange/matching.py:116-126 | a cancellation closes the sender's own working order and moves what it reserved from held back to available, on that order's line alone; an unknown or foreign order and a filled one are refused, a cancelled one answered again, and nothing moves |
| `CommandEffects.NewIsRefusedIff` | stock-exchange-system/src/stock_exchange/matching.py:127-145 | a new order is accepted if and only if its identifier is new, its symbol listed, the session open, the day's volume within the limit and the reservation available; otherwise the first failing test is the reason given and nothing changes |
| `CommandEffects.SessionIsTrading` | stock-exchange-system/src/stock_exchange/policies.py:13-21 | the session permits a moment exactly when its weekday is a trading day and its minute lies from the opening on and before the close |
| `CommandEffects.NewIsEntered` | stock-exchange-system/src/stock_exchange/matching.py:146-209 | an accepted order rests as it was asked, is answered with the status matching left it in and counted in the day's volume; the new trades bear its mark, and every other order has only expired or been executed against |
| `CommandEffects.AnswerIsRecorded` | stock-exchange-system/src/stock_exchange/matching.py:111-126 | every command is answered once under its own number and changes no other answer |
| `CommandEffects.ReplaysIff` | stock-exchange-system/src/stock_exchange/matching.py:76-99 | a command history replays if and only if its numbers are dense from two on, its times never go back, its owners are known and its prices and quantities in range, whatever becomes of the orders |
| `CommandEffects.UsageIsSubmitted` | stock-exchange-system/src/stock_exchange/matching.py:135-148 | the volume the limit is checked against is, after any run, exactly the quantity of that owner's orders accepted for the symbol on that day |
| `CommandEffects.LimitHolds` | stock-exchange-system/src/stock_exchange/policies.py:30-32 | so no owner ever has more than the limit accepted for one symbol on one day |
| `Evolution.ReduceEvolves` | stock-exchange-system/src/stock_exchange/matching.py:149-204 | a command only adds orders and trades: order identity never changes, fills grow, closed orders stay closed, new trades are numbered from one |
| `Books.IndexLevelsAreBook` | stock-exchange-system/src/stock_exchange/matching.py:18-27 | the level totals kept by the index equal the book summed from the open orders |
| `Books.ServeLevels` | stock-exchange-system/src/stock_exchange/order_book.py:100-107 | `levels` of a live engine returns that book |
| `Books.BookDiffCarriesOver` | stock-exchange-system/src/stock_exchange/storage.py:209-224 | absolute level sizes, zero deleting, carry every book exactly to the next state's |
| `Books.PatchBooks` | stock-exchange-system/src/stock_exchange/market.py:147-153 | the update loops compute exactly those patched books |
| `FeedEffects.BatchHoldsChanges` | stock-exchange-system/src/stock_exchange/storage.py:209-237 | a row's batch holds exactly the orders its command entered or changed, each once, exactly the price levels whose size changed, with the new size, and exactly the new trades |
| `MarketFeed.HeadNamesHistory` | stock-exchange-system/src/stock_exchange/common.py:106-117 | without hash collisions a chain head names one log |
| `MarketFeed.NextBatchFollows` | stock-exchange-system/src/stock_exchange/market.py:108-158 | the batch of the next log row passes every check the consumer makes: trade numbering, order progress, reconciliation |
| `MarketFeed.PatchIsNext` | stock-exchange-system/src/stock_exchange/market.py:147-164 | applying it makes books, orders and trades exactly the engine's next state |
| `MarketFeed.OfferedBatch` | stock-exchange-system/src/stock_exchange/market.py:86-187 | a batch of any log is taken exactly when it is the next row of the followed log or repeats a retained row; repeats change nothing; anything else ahead is a detected gap |
| `MarketFeed.OfferedSnapshot` | stock-exchange-system/src/stock_exchange/market.py:34-84 | a snapshot is installed exactly when epoch and sequence do not go back and, at the same sequence, it is of the same log |
| `MarketFeed.RunIsFaithful` | stock-exchange-system/src/stock_exchange/market.py:34-187 | whatever genuine batches and snapshots arrive, in any order, the projection is always the engine's own state at the log position its head names |
| `MarketFeed.ClientCatchesUp` | stock-exchange-system/src/stock_exchange/market.py:189-209 | a delta client is told to resynchronize or gets exactly the rows it misses, and applying them gives the current books |
| `MarketFeed.MarketStore.ApplyBatch` | stock-exchange-system/src/stock_exchange/market.py:86-187 | the in-place transaction equals the plain rule and a fault leaves the store alone |
| `MarketFeed.MarketStore.ReplaceWith` | stock-exchange-system/src/stock_exchange/market.py:34-84 | likewise for snapshots |
| `FeedEffects.AcceptedIsChecked` | stock-exchange-system/src/stock_exchange/market.py:86-187 | whatever batch is offered, genuine or not: it changes nothing, or it is chained to the projection's own head and leaves it one row on, reconciled, with executions only added and numbered on, and orders only progressing |
| `FeedEffects.ProjectionStaysConsistent` | stock-exchange-system/src/stock_exchange/market.py:86-187 | so no feed, however it distorts or invents batches, ever makes the projection inconsistent or sends its position or epoch back |
| `FeedEffects.RetentionIsExact` | stock-exchange-system/src/stock_exchange/market.py:62-84 | exactly the last eight rows since the last replacement are kept; a replacement drops them and is counted, one that changes nothing is not |
| `WalletShard.ReduceKeepsSound` | digital-wallet-system/src/digital_wallet/projection.py:9-93 | every shard event keeps balances nonnegative and each account's hold exactly the sum of its prepared outgoing transfers |
| `WalletShard.SettlementNeverFails` | digital-wallet-system/src/digital_wallet/projection.py:70-90 | a confirmation or cancellation the record admits is never refused for lack of funds |
| `WalletShard.ReduceMovesInflow` | digital-wallet-system/src/digital_wallet/projection.py:45-90 | an event changes the shard's total by minus the amount at source confirmation, plus the amount at destination confirmation, and not otherwise |
| `WalletShard.ShardProcess.Append` | digital-wallet-system/src/digital_wallet/shard.py:67-76 | one transaction appends the event and publishes the projection the log replays to |
| `WalletShard.ShardProcess.Action` | digital-wallet-system/src/digital_wallet/shard.py:105-141 | a participant action in place equals the plain rule under the fence check, and a refusal changes nothing; `WalletEffects` gives the effect on each account |
| `WalletShard.ShardProcess.Rebuild` | digital-wallet-system/src/digital_wallet/shard.py:82-103 | replaying the log from genesis gives the projection back |
| `WalletShard.ShardProcess.Fence` | digital-wallet-system/src/digital_wallet/common.py:138-148 | an epoch never goes back, nor to another leader within an epoch |
| `WalletEffects.MoveIsExact` | digital-wallet-system/src/digital_wallet/projection.py:50-61 | a local transfer is confirmed if and only if both accounts exist and the source can pay, and then takes the amount from the source, gives it to the destination and changes no other account; rejected, it changes none |
| `WalletEffects.PrepareIsExact` | digital-wallet-system/src/digital_wallet/projection.py:62-72 | a source is prepared if and only if it can pay, and then exactly that amount is held; a destination if and only if it exists, with no balance changed |
| `WalletEffects.ConfirmIsExact` | digital-wallet-system/src/digital_wallet/projection.py:73-80 | a confirmed source gives up what it held, a confirmed destination receives the amount, and no other account changes |
| `WalletEffects.CancelIsExact` | digital-wallet-system/src/digital_wallet/projection.py:81-87 | a cancellation of a prepared source makes what it held available again; any other changes no balance |
| `WalletEffects.ActRefusesIff` | digital-wallet-system/src/digital_wallet/shard.py:105-140 | a participant refuses exactly malformed and misrouted commands, contradictions of its record, confirmations without a prepared record and cancellations of a confirmed one |
| `WalletEffects.BalancesTellTransfers` | digital-wallet-system/src/digital_wallet/projection.py:48-92 | in every reachable state each account's available plus held money is its opening balance plus its confirmed incoming and minus its confirmed outgoing transfers, and its held money what prepared outgoing transfers reserve |
| `TransferSafety.NextKeepsInv` | digital-wallet-system/src/digital_wallet/coordinator.py:149-254 | every step of clients, worker, administrator, crashes and late deliveries keeps the journal replayable and records, commands in flight and worker reads coherent with it |
| `TransferSafety.CommitKeepsInv` | digital-wallet-system/src/digital_wallet/coordinator.py:162-178 | when the worker decides COMMIT both participants are prepared at that moment, not merely when they were read, and the decision keeps everything coherent |
| `TransferSafety.RunKeepsInv` | digital-wallet-system/src/digital_wallet/coordinator.py:149-254 | that holds in every reachable state |
| `TransferFinality.SettledForever` | digital-wallet-system/src/digital_wallet/shard.py:118-141 | whatever happens after a record is confirmed or cancelled, it stays that record, holds nothing, and no command for it changes anything: a late Try after a tombstone creates no hold, a Confirm after a cancellation is refused |
| `TransferFinality.DeliveryIsIdempotentForever` | digital-wallet-system/src/digital_wallet/shard.py:118-141 | a command accepted once may arrive again at any later moment of any run: it is accepted and the whole system stays as it is |
| `WalletAudit.TransfersAreAtomic` | digital-wallet-system/src/digital_wallet/coordinator.py:149-193 | no transfer is ever confirmed at one participant and cancelled at the other, nor credited before it was taken |
| `WalletAudit.RunConserves` | digital-wallet-system/src/digital_wallet/audit.py:57-130 | available plus held plus in-transit money is the opening supply in every reachable state, mid-commit included |
| `WalletAudit.EveryReachableStatePassesAudit` | digital-wallet-system/src/digital_wallet/audit.py:8-139 | the audit of one moment finds no error in any reachable state with a synced journal |
| `StaggeredAudit.ReadIsArrived` | digital-wallet-system/src/digital_wallet/audit.py:11-15 | reading one shard after another while commands arrive shows exactly the shards of a state the system could have been in |
| `StaggeredAudit.StaggeredReadsPassAudit` | digital-wallet-system/src/digital_wallet/audit.py:8-139 | so every check of a staggered audit but one holds, whenever each shard is read; the remaining one, that no participant changed in between, reports exactly the shards that did |
| `TransferProgress.PendingTransfersCanFinish` | digital-wallet-system/src/digital_wallet/coordinator.py:149-193 | from any reachable state the worker's own steps and arriving commands can bring every pending transfer, local or not, decided or not, to an outcome, and a decided one to exactly the decided outcome |
| `TransferDecisions.ReadingDecides` | digital-wallet-system/src/digital_wallet/coordinator.py:164-178 | a worker that has read both participants of an undecided transfer decides COMMIT when both are prepared and CANCEL when one has refused |
| `TransferDecisions.CancelNeedsRefusal` | digital-wallet-system/src/digital_wallet/coordinator.py:164-169 | in every run in which nobody calls transfers off, a journaled CANCEL means that a participant has refused the transfer |
| `TransferDecisions.PreparedSucceeds` | digital-wallet-system/src/digital_wallet/coordinator.py:174-186 | an undecided transfer whose two participants are prepared is brought to success by the worker's own steps and arriving commands |
| `TransferDecisions.SolventTransfersSucceed` | digital-wallet-system/src/digital_wallet/coordinator.py:149-193 | so is, from any reachable state, every undecided transfer between shards that no participant has refused and whose source is prepared or can pay |
| `TransferDecisions.LocalTransfersFollowFunds` | digital-wallet-system/src/digital_wallet/coordinator.py:155-162 | one within a shard ends succeeded or rejected just as its source can pay or not |
| `TransferDecisions.WithdrawnTransfersEnd` | digital-wallet-system/src/digital_wallet/coordinator.py:256-273 | an administrator can withdraw any undecided transfer between shards, and it can then be brought to its cancelled end |
| `TransferDecisions.CreateRecords` | digital-wallet-system/src/digital_wallet/coordinator.py:70-92 | a transfer is recorded exactly when the journal is acknowledged, the accounts are known, the identifier is new and the history not full; it is then pending and nothing else changes |
| `WalletJournal.NextKeepsSafe` | digital-wallet-system/src/digital_wallet/journal.py:30-53 | every event, forged packets included, keeps logs chained and growing and the committed rows on two replicas |
| `WalletJournal.CommittedStaysOnMajority` | digital-wallet-system/src/digital_wallet/journal.py:185-218 | rows once committed stay in place, unchanged, in the authority and on two of three replicas for ever after |
| `WalletJournal.ReplicasArePrefixes` | digital-wallet-system/src/digital_wallet/journal.py:148-183 | under the operating rules every replica of a journal from its start always holds a prefix of the authority's |
| `WalletJournal.FencedForever` | digital-wallet-system/src/digital_wallet/common.py:131-148 | after a replica is fenced past some credentials nothing they sign is ever accepted there |
| `WalletJournal.ReplicaProcess.Append` | digital-wallet-system/src/digital_wallet/journal.py:30-53 | `append` in place equals the plain rule |
| `JournalProgress.AppendIsExact` | digital-wallet-system/src/digital_wallet/journal.py:30-53 | a replica accepts, under its own credentials, exactly the rows it holds and those that keep its chain when put at its end, with the errors in the source's order |
| `JournalProgress.EveryLogCanCommit` | digital-wallet-system/src/digital_wallet/journal.py:148-218 | from every state the operating rules allow, whatever was lost, fenced or interrupted, a continuation commits the whole log as it stands |
| `ReplicatedTransfers.NoRowIsRefused` | digital-wallet-system/src/digital_wallet/journal.py:148-183 | the journal takes every row a coordinator step adds, so the transfer model and the replicated journal run as one |
| `ReplicatedTransfers.EffectsAreReplicatedFirst` | digital-wallet-system/src/digital_wallet/coordinator.py:194-203 | no command is in flight and nothing has happened at a participant before the rows that call for it, acceptance and decision, are on two of three replicas, where they stay |
| `ObjectSafety.NextKeepsInv` | object-storage-system/src/object_storage/service.py:280-414 | every step of writers, publications, sessions, maintenance and late requests keeps acknowledged copies stored and every still acceptable collection harmless to them |
| `ObjectSafety.PutKeepsInv` | object-storage-system/src/object_storage/node.py:194-205 | an arriving chunk write moves the fence of its node, so older collections are no longer acceptable there |
| `ObjectSafety.ScannedCoversAll` | object-storage-system/src/object_storage/service.py:309-353 | once fences are captured and everything is scanned, the references cover every protected copy |
| `ObjectSafety.OrderKeepsInv` | object-storage-system/src/object_storage/service.py:388-403 | a collection is sent only when its references cover everything its node protects |
| `ObjectSafety.AcknowledgedCopiesAreNeverDeleted` | object-storage-system/src/object_storage/node.py:237-276 | in every run and for every grace, a copy acknowledged for an operation, pending intent, version not removed or live session is still on its node |
| `ObjectSafety.VersionsStayReadable` | object-storage-system/src/object_storage/chunk_io.py:50-55 | every chunk of every version not removed is on a write quorum of nodes in every reachable state |
| `ObjectSafety.StaleCollectionIsRefusedForever` | object-storage-system/src/object_storage/node.py:194-205 | after a node accepts a write, duplicate chunks and repairs included, no collection whose fence was captured before it is ever accepted, whether sent before the write or after |
| `ObjectSafety.FencesAreFromThePast` | object-storage-system/src/object_storage/node.py:248-253 | in every reachable state no fence captured by a sweep or carried by a collection sent is ahead of its node's |
| `ObjectRetention.RemovedVersionsOutliveGrace` | object-storage-system/src/object_storage/metadata.py:148-168 | a copy acknowledged for a version stays on its node after the removal too, until a scan of its shard at least the grace after it |
| `ObjectRetention.UnneededChunksCanGo` | object-storage-system/src/object_storage/service.py:309-403 | and no longer: once every version with the chunk was removed at least the grace ago, no live session has it and the copy is that old, one sweep can delete it |
| `ObjectEffects.PutIsExact` | object-storage-system/src/object_storage/node.py:194-235 | an accepted write stores its chunk under its first arrival's time, keeps every other chunk and acknowledges the copy to its own operation only |
| `ObjectEffects.CollectSparesTheFresh` | object-storage-system/src/object_storage/node.py:237-276 | a collection deletes only chunks of the grace age by the node's clock that are not among its references, and nothing elsewhere |
| `ObjectEffects.IntentIsExact` | object-storage-system/src/object_storage/service.py:90-124 | an upload's intent is recorded exactly when two nodes have acknowledged each chunk and its identity holds no other content, and carries exactly what was written |
| `ObjectEffects.AcknowledgedWritesPublish` | object-storage-system/src/object_storage/service.py:135-143 | from any reachable state outside a sweep such an upload can be published as a version of exactly what was written |
| `ObjectEffects.RemovalIsExact` | object-storage-system/src/object_storage/metadata.py:95-109 | removal marks an existing version with its first time and keeps its content |
| `ObjectEffects.SweepExpiresExactly` | object-storage-system/src/object_storage/service.py:304-308 | maintenance aborts exactly the active sessions whose deadline has passed, after everything pending has been replayed |
| `ObjectEffects.OpenIsExact` | object-storage-system/src/object_storage/catalog.py:131-169 | a session opens, empty and active, exactly when no session has its name or identity |
| `ObjectEffects.FreezeIsExact` | object-storage-system/src/object_storage/service.py:194-230 | completion begins exactly when the session is active and in time and its part numbers run from one without a gap |
| `ObjectEffects.PartIsExact` | object-storage-system/src/object_storage/catalog.py:177-212 | a part is taken exactly when the session is active and in time, the number legal, every chunk on two nodes and a number once written gets the same content again; no other part or session changes |
| `ObjectEffects.AbortIsExact` | object-storage-system/src/object_storage/service.py:248-255 | a session can be aborted exactly when it is active or already aborted |
| `DataNode.DataNodeProcess.Put` | object-storage-system/src/object_storage/node.py:194-235 | `put` in place: the fence moves first, then the chunk is stored unless present |
| `DataNode.DataNodeProcess.Collect` | object-storage-system/src/object_storage/node.py:237-276 | `collect` in place: a moved fence refuses and changes nothing; otherwise exactly the candidates go, one by one, and the fence moves |
| `ObjectMultipart.CompletedSessionIsItsParts` | object-storage-system/src/object_storage/service.py:190-246 | a completed session names one version, for ever: its content is cut, at as many points as there are parts, into the parts' contents in number order, and carries the declared size and checksum |
| `ObjectMultipart.AbortExcludesPublication` | object-storage-system/src/object_storage/service.py:248-255 | an aborted session never freezes a manifest, and one whose completion began is never aborted |
| `ObjectMultipart.FreeCompletionFinishes` | object-storage-system/src/object_storage/service.py:233-246 | a completing session whose identity is free can be finished from any reachable state |
| `ObjectMultipart.TakenCompletionNeverFinishes` | object-storage-system/src/object_storage/catalog.py:238-245 | one whose identity already has other content stays completing for ever, and no collection is ever sent again |
| `ObjectMultipart.CompletionFinishesIff` | object-storage-system/src/object_storage/service.py:294-303 | so a completing session can be driven to its version if and only if no intent of other content holds its identity |
| `ObjectMultipart.CompletionCanBeStuck` | object-storage-system/src/object_storage/catalog.py:238-245 | a concrete run that ends there: a delete marker and an empty session under one idempotency key |
| `Snowflake.Fault` | unique-id-generator/src/unique_id/config.py:33-96 | construction refuses exactly the illegal layouts and identities |
| `Snowflake.ComposeIsPacked` | unique-id-generator/src/unique_id/snowflake.py:94-97 | shifting and or-ing writes the four fields as digits of one number; no field spills into another |
| `Snowflake.ParseInvertsCompose` | unique-id-generator/src/unique_id/parser.py:49-102 | parsing a composed identifier returns its exact fields, and succeeds if and only if its moment is within Python's calendar |
| `Snowflake.ComposeInvertsParse` | unique-id-generator/src/unique_id/parser.py:70-102 | whatever parses is the composition of the fields it parses to |
| `Snowflake.ComposeIsOrdered` | unique-id-generator/src/unique_id/snowflake.py:97-97 | identifiers are ordered as moment and sequence are |
| `Snowflake.IdentitiesNeverCollide` | unique-id-generator/src/unique_id/snowflake.py:52-54 | one layout, two identities: no identifier in common |
| `SnowflakeRuns.AttemptIncreases` | unique-id-generator/src/unique_id/snowflake.py:81-97 | one attempt either issues more than everything before and becomes the new state, or fails and changes nothing |
| `SnowflakeRuns.ReceivedIncreases` | unique-id-generator/src/unique_id/snowflake.py:64-119 | over any run of singles and batches, rollbacks, overflows and failures, received identifiers strictly increase |
| `SnowflakeRuns.RunsNeverCollide` | unique-id-generator/src/unique_id/snowflake.py:52-54 | two generators of one layout with different identities never give out the same identifier, whatever their clocks |
| `SnowflakeRuns.ReceivedParses` | unique-id-generator/src/unique_id/parser.py:49-102 | every received identifier parses back to this generator's identity, unless past the calendar |
| `SnowflakeRuns.PastTheCalendarDoesNotParse` | unique-id-generator/src/unique_id/parser.py:90-94 | under any legal layout a first request whose clock is past the calendar and within the layout gives out an identifier its own parser refuses |
| `SnowflakeRuns.SomeIdentifiersDoNotParse` | unique-id-generator/src/unique_id/parser.py:90-94 | a legal layout and clock whose first generated identifier cannot be parsed |
| `SnowflakeRuns.Generator.WaitNextMillis` | unique-id-generator/src/unique_id/snowflake.py:121-146 | the waiting loop returns the first later reading, or the rollback or overflow error |
| `SnowflakeRuns.Generator.Generate` | unique-id-generator/src/unique_id/snowflake.py:81-97 | `generate` in place equals one attempt, which `SnowflakeLaw.AttemptIsExact` characterizes; state is published only after every check |
| `SnowflakeRuns.Generator.GenerateBatch` | unique-id-generator/src/unique_id/snowflake.py:99-119 | a batch is consecutive attempts, all or nothing for the caller |
| `SnowflakeLaw.AttemptIsExact` | unique-id-generator/src/unique_id/snowflake.py:81-97 | one request: a clock behind the last time issued fails, a later one issues number zero, the same one the next number; when there is none, the first look at another time decides, and without one the sequence overflows |
| `SnowflakeLaw.IssuedTrail` | unique-id-generator/src/unique_id/snowflake.py:99-119 | the identifiers of a batch follow one another, the next number within a millisecond or zero in a later one, at times the clock showed during that very batch |
| `SnowflakeLaw.RunTrail` | unique-id-generator/src/unique_id/snowflake.py:64-119 | over any run the identifiers issued do so from the first on; everything received is among them, and without a batch failing half way it is all of them |
| `SnowflakeLaw.OverflowIsEarned` | unique-id-generator/src/unique_id/snowflake.py:86-90 | a sequence overflow comes only after the run has issued every number of that millisecond, one after another |
| `SnowflakeLaw.RefusalsHaveReasons` | unique-id-generator/src/unique_id/snowflake.py:81-97 | after any run a request that first sees a clock behind the last issued time is refused for the rollback and changes nothing, and every refusal has the cause its error names |
| `ReadmeGuide.PublishingIsAFixedPoint` | tools/build_learning_guides.py:125-143 | publishing a published README changes nothing, for every text, unmatched and repeated markers included |
| `ReadmeGuide.RefreshKeepsGaps` | tools/build_learning_guides.py:135-141 | refreshing writes the current block for every managed stretch and keeps every piece between |
| `ReadmeGuide.PublishingKeepsText` | tools/build_learning_guides.py:125-143 | all text outside managed stretches stays but for trailing whitespace; a first insertion comes right behind the first line break, or before everything when there is none, with one more line break on either side |
| `ReadmeGuide.GapsAreOutside` | tools/build_learning_guides.py:135-141 | every text is its outside pieces with the shortest managed stretches between: no start marker in a piece before a stretch, no end marker inside one, no complete block behind the last |
| `ReadmeGuide.OutsideIsUnique` | tools/build_learning_guides.py:135-141 | and it can be taken apart that way only once |
| `ReadmeGuide.ReadmesSpeakTheirLanguage` | tools/build_learning_guides.py:125-143 | after a publication every README consists of its pieces and at least one block, each the block of its own language |
| `ReadmeGuide.ContentHoldsBlockIff` | tools/build_learning_guides.py:135-143 | what is published holds a complete block if and only if the text had no start marker or an end marker behind its first one |
| `ReadmeGuide.StartAloneIsUnclosed` | tools/build_learning_guides.py:135-141 | the start marker alone is published unchanged, without a block |
| `ReadmeGuide.VerifyBlocks` | tools/build_learning_guides.py:226-237 | the check on what would be written finds exactly the READMEs with an unclosed start marker |
| `ReadmeGuide.Run` | tools/build_learning_guides.py:254-273 | a README with an unclosed start marker or a broken link stops the publisher before anything is written; otherwise every output that differs is written, or with `--check` exactly those are reported |
| `ReadmeGuide.CheckPassesAfterPublishing` | tools/build_learning_guides.py:264-273 | after a publication that was not stopped `--check` of the same pages reports nothing |
| `Inbox.ExactIffClear` | nearby-friends-system/tools/lab.py:209-234 | over any run, messages received are exactly those returned and buffered, each once, in order of arrival, if and only if no wait finds an earlier buffered message Python-equal to the wanted one and no call is reached by a message that makes it raise |
| `Inbox.WellFormedIsClear` | nearby-friends-system/tools/lab.py:209-234 | when every frame is a JSON object and no predicate raises, only equal messages are a danger |
| `Inbox.EqualMessageLoses` | nearby-friends-system/tools/lab.py:220-223 | with an equal message before the wanted one `remove` deletes the earlier, and the returned one stays to be returned again |
| `Inbox.RaisingMessageLoses` | nearby-friends-system/tools/lab.py:214-216 | a message on which `get`, the predicate or the decoder raises is received and neither buffered nor returned |
| `Inbox.UnclearCallLoses` | nearby-friends-system/tools/lab.py:209-234 | any call that fails the condition loses a message |
| `Inbox.EqualButDifferentLoses` | nearby-friends-system/tools/lab.py:220-223 | a concrete run: `1` and `true` are equal, so waiting for `true` loses `1` |
| `Inbox.ListIsLost` | nearby-friends-system/tools/lab.py:214-216 | a concrete run: a JSON list that arrives before the reply ends the command and is lost |
| `Inbox.UntilReturnsEarliest` | nearby-friends-system/tools/lab.py:219-234 | with exact books a wait returns the earliest wanted message not yet returned |
| `Inbox.CommandReturnsItsReply` | nearby-friends-system/tools/lab.py:209-217 | a command takes the next number as its identifier and returns exactly the first message that carries it, if that comes in time with only objects before it; otherwise nothing |
| `Inbox.AwaitServesIff` | nearby-friends-system/tools/lab.py:224-234 | a wait on the socket returns a message exactly when it is the first that is not unwanted, is wanted and comes in time |
| `Inbox.UntilServes` | nearby-friends-system/tools/lab.py:219-223 | `until` returns the first buffered message that is not unwanted if it is wanted, raises with nothing changed if testing it does, and otherwise waits on the socket |
| `Inbox.LabClient.SendCommand` | nearby-friends-system/tools/lab.py:209-217 | the receive loop of `command` in place: got, timed out, or raised exactly when a frame is no object before the reply |
| `Inbox.LabClient.WaitUntil` | nearby-friends-system/tools/lab.py:219-234 | the scan and receive loop of `until` in place, with the same three endings |
| `GridGraph.Grid` | maps-system/tools/benchmark.py:19-44 | the nested loops compute the specified node and edge lists |
| `GridGraph.EdgeCount` | maps-system/tools/benchmark.py:25-43 | exactly 4 * size * (size - 1) edges |
| `GridGraph.NodesAreTheSquare` | maps-system/tools/benchmark.py:19-24 | the nodes are the size * size crossings, each once |
| `GridGraph.EdgesAreStreets` | maps-system/tools/benchmark.py:25-43 | exactly one edge for every ordered pair of neighbouring crossings, and all identifier texts differ |
| `GridGraph.EdgesAreValidAndReversible` | maps-system/tools/benchmark.py:30-38 | both ends of every edge are nodes and every edge has its reverse |
| `GridGraph.ShortestIsDistance` | maps-system/tools/benchmark.py:25-43 | every node reaches every other; the shortest route is as long as the grid distance |
| `GridGraph.CornerRoute` | maps-system/tools/benchmark.py:25-43 | between opposite corners that is 2 * (size - 1) edges |

## Left out

- HTTP, JSON strictness, tokens, deadlines as durations, sockets, thread pools and process management; a deadline is a number of attempts, a timeout a step that gives up.
- SQLite, fsync and file replacement: each documented transaction is one atomic step, and a crash loses only volatile state.
- Shape and range checks of `publication.validate_batch`, `validate_snapshot` and `contracts.validate` beyond the fields the models use; the stored checksum of the engine state (`state_hash`) and the checks that compare it.
- MarketFeed.RunIsFaithful: the batches and snapshots offered are those of genuine logs; for batches with any other content `FeedEffects` proves consistency, not identity with an engine's state. Snapshots of anything but a log's state and the gateway check made before polling are not modelled.
- Exchange.Expire: iterates orders in insertion order; the stored JSON is sorted by key, which can change the order in which expired orders are released but not what any of them releases.
- PriceHeap.Heapify: builds a heap of the same values by insertion; the array layout may differ from CPython's `heapify`.
- Ring: the writer lock, snapshot publication lock and callback reentry check; methods are atomic.
- Wallet read projections, snapshots, waiters, retry schedules and the five-failure dead mark: the worker may begin any pending transfer at any time, or give up.
- StaggeredAudit.StaggeredReadsPassAudit: the head hashes of the two readings are left to the event counts, which only grow.
- Transfers.Next: a local transfer whose reply is used at once is modelled as one that is read again; the fence is constant there and treated in `WalletJournal`.
- Object listing, bucket deletion, reads, repair of damaged copies, disk corruption, the packed-file format and its compaction, part sizes and checksums, and the maintenance budgets.
- ObjectMultipart.CompletedSessionIsItsParts: the limit of 256 chunks and the reading back of every chunk to compare size and checksum, which can refuse a completion before it is frozen.
- DataNode.DataNodeProcess.Collect: append, unlink and index failures that fence the node until recovery; a collection cut short is modelled in `ObjectStore.Collected`.
- Inbox: floating-point NaN, which is not equal to itself; a predicate is a function of the message, which may raise but has no other effect.
- GridGraph.Grid: the coordinates, lengths and speeds, which are constants or multiples of the position.
- ReadmeGuide.Run: the text of the guides and the index, and which links lead nowhere, are inputs; their rendering and the coverage checks before it are not modelled.
- Payment, hotel, queue, chat, leaderboard, metrics, key-value and other chapters, Redis strategies, statistics and benchmarks.
