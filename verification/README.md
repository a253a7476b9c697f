# Lotus chain logic in Dafny

A model of the chain-following core of Lotus, a Filecoin full node, with proofs of what it
promises. It covers the tipset index and the reorg engine, confidence-delayed events, the
message pool with pruning, block packing and block validation, the alignment of messages and
receipts, the layered state tree, payment channels, the sync scheduler, header collection,
block sync, election arithmetic and the printing of FIL amounts. Code that updates things in
place is modelled by methods with loops and by classes; what they compute is tied to
specification functions and predicates, about which the laws are proved as lemmas.

Conventions:

- CIDs and tipset keys are values: equal keys mean equal content. A well-formed chain has
  every parent strictly below its child; completeness and a single genesis are asked for only
  where a result needs them.
- Caches (the skip list, the BLS signature cache) may lose entries at any time.
- The virtual machine, signature checks, gas guesses, gas-to-reward ratios, peers and stores
  that may fail are parameters or arbitrary choices.
- `dafny verify dfyconfig.toml` checks the whole project.

## Main results

1. What the miner packs, the validator accepts exactly when all senders are accounts and no
   sender's Secp256k1 message comes before one of its BLS messages (`Mining.CreateBlock`,
   `Mining.MixedSignatures`), although running gas totals are never rebased; and packing leaves
   room only when nothing more fits.
2. Every answer of the skip-list index is the answer of the plain parent walk; on a complete
   chain it answers exactly when the height is on the chain and no link drops from height 40
   or more into heights 1 to 19 at or above the target (`ChainIndex.Index.GetTipsetByHeight`).
3. Over all head changes an event's handler succeeds at most once, only with enough confidence
   and while its tipset is on the chain, is undone at most once and only after success; every
   change gets its event, and events of tipsets that stay keep their places
   (`HcEvents.Events.ProcessHeadChangeEvent`, `EventQueue.HistoryMeaning`). It is stated exactly
   when a head change passes a waiting event over (`HcEvents.NoneMissedExactly`): never as long
   as every tipset can be read (`HcEvents.StaysLevel`), and there is a run with one read failure
   in which it happens (`GivenUpRun.PassedOver`).
4. A reorg yields the two branches above the highest common ancestor, and replaying queued
   moves keeps a subscriber on the ancestor path of the head until a move between unrelated
   heads is skipped, which one genesis excludes (`Reorg`).
5. Listed messages are the executed messages exactly when every sender can pay for what is
   executed (`Receipts.ListedAreExecuted`); each has the receipt that the machine returned for it
   in the state left by the messages and rewards before it (`Receipts.ReceiptAlignment`).
6. After a head change the pool holds the old and the recovered messages without the applied
   ones. All slots admitted for a sender are off the chain exactly when the sender can pay for its
   messages in the current tipset (`HeadNonces.FreeExactly`), and then, on chains without
   repeated slots, nothing pending comes to be on the chain (`PoolRuns.Pool`).
7. The exponential used by the election is a probability for every rate up to five, so the win
   count is exactly the number of terms of the inverted distribution above the hash
   (`ElectionConstants.ProgramIsGood`, `Election.WinCountIsCut`).
8. Layers with read caching show what a stack of full copies shows, and flushing never changes
   that (`StateTree.Tree`).

## Model

| member | source | states |
|---|---|---|
| `ChainIndex.WalkBackMeaning` | chain/store/index.go:133-161 | the parent walk returns a tipset if and only if it is the lowest one of the ancestor path at or above the height |
| `ChainIndex.WalkBackDefined` | chain/store/index.go:133-161 | on a complete chain the walk answers exactly for heights from 0 to the start |
| `ChainIndex.WalkBackFromAncestor` | chain/store/index.go:133-161 | starting from any ancestor not below the target gives the same answer |
| `ChainIndex.Index.WalkBackLoop` | chain/store/index.go:133-161 | the loop computes the walk |
| `ChainIndex.Index.RoundDown` | chain/store/index.go:118-131 | rounding a tipset down is the walk to the rounded height |
| `ChainIndex.Index.FillCache` | chain/store/index.go:73-116 | a filled entry points to the walk's answer at its target height, keeps all entries valid, and exists exactly when that walk has an answer |
| `ChainIndex.Index.GetTipsetByHeight` | chain/store/index.go:37-67 | every answer is the parent walk's answer; on a complete chain there is an answer if and only if the height is on the chain and no low drop lies in between |
| `ChainIndex.Index.Evict` | chain/store/index.go:21-35 | losing any entries keeps the index valid |
| `ChainIndex.Index.Persist` | chain/store/index.go:73-91 | cached entries stay right while blocks arrive |
| `ChainIndex.LowDropMeaning` | chain/store/index.go:93-116 | the recursive condition says that some link of the path drops from 40 or more into 1..19 at or above the target |
| `ChainIndex.SkipKeepsLowDrop` | chain/store/index.go:37-67 | one skip either keeps the question whether such a link lies ahead or crosses it |
| `ChainIndex.LowDropExample` | chain/store/index.go:93-116 | a chain on which the walk answers and the index does not |
| `ChainIndex.Index.GetTipsetByHeightPrev` | chain/store/store.go:989-1020 | in a null round the answer is the tipset just before or just after, as asked |
| `Reorg.ReorgOps` | chain/store/store.go:472-499 | succeeds exactly when the tipsets share an ancestor, and returns the two parent paths above the highest one |
| `Reorg.BranchesUnique` | chain/store/store.go:472-499 | these two lists are determined by the chains |
| `Reorg.NearestCommonAncestor` | chain/store/store.go:463-470 | the highest common ancestor, except that it indexes an empty list exactly when the first tipset is an ancestor of the second |
| `Reorg.ReplayReorg` | chain/store/store.go:472-499 | replaying reverts and reversed applies turns the old head's chain into the new head's chain |
| `Reorg.ReverseInPlace` | chain/store/store.go:334-338 | the swap loop reverses the array |
| `Reorg.BuildPath` | chain/store/store.go:820-828 | the path list is the notification stream |
| `Reorg.GetPath` | chain/store/store.go:807-829 | the path between two keys replays one chain into the other |
| `Reorg.Notify` | chain/store/store.go:319-345 | nothing is sent exactly when the heads share no ancestor; otherwise exactly the branches, oldest applied first |
| `Reorg.ChainStore.constructor` | chain/store/store.go:305-311 | a store without a head has nothing queued |
| `Reorg.ChainStore.Persist` | chain/store/store.go:508-525 | adding blocks keeps queued moves and the subscriber's chain |
| `Reorg.ChainStore.TakeHeaviestTipSet` | chain/store/store.go:355-382 | a new head queues one move that starts where the last one ended |
| `Reorg.ChainStore.ReorgWorkerStep` | chain/store/store.go:315-345 | a move is skipped exactly when its heads share no ancestor, never with one genesis; while none was skipped every notification fits the subscriber's chain, which becomes the ancestor path of the move's new head |
| `TipSetCache.NormalModulo` | chain/events/tscache.go:127-129 | the result is a valid slot for every offset |
| `TipSetCache.NormalModuloWraps` | chain/events/tscache.go:127-129 | within one turn the double remainder wraps around once |
| `TipSetCache.PushKeepsShape` | chain/events/tscache.go:34-62 | adding above the head keeps one entry per height and a tipset on top |
| `TipSetCache.PopPush` | chain/events/tscache.go:34-79 | reverting the tipset just added undoes the add, null rounds included |
| `TipSetCache.Cache.constructor` | chain/events/tscache.go:24-32 | an empty ring stands for an empty stack |
| `TipSetCache.Cache.Advance` | chain/events/tscache.go:47-59 | one slot forward pushes one entry and drops the oldest when full |
| `TipSetCache.Cache.Add` | chain/events/tscache.go:34-62 | refuses exactly what is not above the head; otherwise the stack grows by null rounds and the tipset |
| `TipSetCache.Cache.Revert` | chain/events/tscache.go:64-79 | takes off exactly the head and the null rounds beneath it |
| `TipSetCache.Cache.RevertTipSet` | chain/events/tscache.go:64-79 | after a matching revert the head slot holds a tipset again or the ring is empty |
| `TipSetCache.Cache.Tail` | chain/events/tscache.go:106-113 | the oldest buffered tipset |
| `TipSetCache.Cache.Get` | chain/events/tscache.go:94-121 | the tipset or null round of the height between tail and head, an error above, storage asked with the tail's key below |
| `TipSetCache.Cache.GetNonNull` | chain/events/tscache.go:81-92 | the answer at the first height from which the cache or storage has a tipset or an error; inside the buffer the lowest tipset at or above the height |
| `TipSetCache.Cache.Best` | chain/events/tscache.go:123-125 | the top of the stack |
| `EventQueue.HistoryMeaning` | chain/events/events_called.go:163-266 | a good history has at most one success, at its due height with the event's tipset on the chain, and at most one revert, right after the success |
| `EventQueue.AttemptKeepsLive` | chain/events/events_called.go:240-262 | recording one attempt keeps every queued event tied to its history |
| `EventQueue.RevertKeepsLive` | chain/events/events_called.go:163-185 | undoing a delivered event keeps all other events as they are |
| `EventQueue.QueueKeepsLive` | chain/events/events_called.go:189-214 | a new event sits at its due height, on the current chain |
| `EventRuns.AttemptKeepsGood` | chain/events/events_called.go:228-264 | an offer keeps all histories good, all events tied to their histories, and every event due its listener's confidence after its tipset |
| `EventRuns.PassStep` | chain/events/events_called.go:222-264 | offering one event leaves all others of the height as they were and gives it one honest entry |
| `EventRuns.OfferedWaitsNot` | chain/events/events_called.go:228-264 | an offered event is delivered, has a disabled listener, or has a failed lookup or handler in its history |
| `EventRuns.WaitsBefore` | chain/events/events_called.go:117-161 | what waits after a stretch of a run waited before it |
| `EventRuns.PassedBand` | chain/events/events_called.go:154-157 | a pass over a height leaves nothing waiting there |
| `EventRuns.ForthPassed` | chain/events/events_called.go:128-158 | below the first height offered, exactly what waited before waits after, unless its listener was disabled |
| `EventRuns.EnteredPassed` | chain/events/events_called.go:189-214 | one more event waits exactly if its listener is enabled |
| `EventRuns.BackPassed` | chain/events/events_called.go:121-126 | after reverts exactly the events of the tipsets that stay wait as before |
| `EventRuns.AttemptListeners` | chain/events/events_called.go:246-262 | an offer disables a listener only by calling it |
| `EventRuns.ListenersTransitive` | chain/events/events_called.go:117-161 | over any stretch of a run a listener is only disabled after it was called, for one of its events or its timeout |
| `HcEvents.ApplyEvent` | chain/events/events_called.go:228-264 | the exact outcome: nothing for a delivered event, otherwise one entry that names the disabled listener, the missing tipset, the failure or the delivery; only a delivery counts against the timeout and may disable the listener |
| `HcEvents.ApplyAt` | chain/events/events_called.go:222-264 | all events of one origin height are offered once, no other event is touched |
| `HcEvents.ApplyDue` | chain/events/events_called.go:217-266 | every event due at the height is offered exactly once, with an entry that is what the world answered, and no event due elsewhere changes |
| `HcEvents.RevertEvents` | chain/events/events_called.go:172-184 | the revert handler runs for exactly the delivered events of the list, in order |
| `HcEvents.Forget` | chain/events/events_called.go:168-184 | the loop undoes and forgets, one trigger height after another, although heights repeat |
| `HcEvents.HandleReverts` | chain/events/events_called.go:163-185 | dropping a tipset undoes its delivered events once, forgets all of its events and leaves every other event and history alone |
| `HcEvents.QueueForConfidence` | chain/events/events_called.go:189-214 | the event waits at its height plus its listener's confidence and is remembered under its own height |
| `HcEvents.QueueAll` | chain/events/events_called.go:135-152 | every change gets its event, under a new identity, and exactly these wait in addition |
| `HcEvents.ApplyWithConfidence` | chain/events/events_called.go:217-266 | one pass over one height |
| `HcEvents.ApplyTimeouts` | chain/events/events_called.go:269-297 | exactly the enabled listeners whose event never came are called, and stay enabled only if they want more |
| `HcEvents.ApplyHeights` | chain/events/events_called.go:154-157 | the inclusive pass from the last tipset leaves nothing waiting up to the new head, across null rounds, and touches nothing due outside these heights |
| `HcEvents.QueueStateChanges` | chain/events/events_called.go:129-139 | the state changes of a new head are queued against the last tipset and nothing is offered |
| `HcEvents.QueueCalls` | chain/events/events_called.go:141-152 | message calls are queued after the state changes, which keep their events |
| `HcEvents.CatchUp` | chain/events/events_called.go:154-160 | queued changes stay queued while everything that became due is offered |
| `HcEvents.ApplyTipSet` | chain/events/events_called.go:128-160 | a new head queues all its changes and catches up; if its messages cannot be read, only its state changes are queued |
| `HcEvents.RevertTipSet` | chain/events/events_called.go:121-126 | the events of the head are gone, its delivered ones undone, all others untouched |
| `HcEvents.RevertTipSets` | chain/events/events_called.go:121-126 | the same for all reverted tipsets; the last tipset ends at the lowest one |
| `HcEvents.ApplyTipSets` | chain/events/events_called.go:128-158 | the chain grows by all tipsets, each one reached has its changes queued, and what is left waiting is exact, also when a tipset cannot be read |
| `HcEvents.NoneMissedExactly` | chain/events/events_called.go:117-161 | after a head change nothing waits below the last tipset if and only if no event of a tipset that stays waited below the first height offered and, when not even the first tipset was read, none of its changes is due below the lowest reverted tipset |
| `HcEvents.SafeMissesNone` | chain/events/events_called.go:117-161 | nothing is passed over when the lowest reverted tipset is not above the last one processed and the first new tipset is read or not below it |
| `HcEvents.StaysLevel` | chain/events/events_called.go:117-161 | as long as every tipset can be read, every head change is of this kind, and the last tipset is never below the head |
| `HcEvents.ProcessHeadChange` | chain/events/events_called.go:117-161 | all of this for one head change as a step from state to state |
| `HcEvents.Register` | chain/events/events_called.go:305-342 | one new listener under an unused identifier, without events; its timeout is set unless it has none |
| `HcEvents.Events.constructor` | chain/events/events_called.go:96-115 | starts with nothing queued and nothing passed over |
| `HcEvents.Events.OnHeadChanged` | chain/events/events_called.go:305-342 | registering keeps the component valid and as caught up as it was |
| `HcEvents.Events.ProcessHeadChangeEvent` | chain/events/events_called.go:117-161 | known events keep place and tipset, histories only grow, events of tipsets that stay keep their places, delivered ones of dropped tipsets are undone, each change reached has its event and identities grow by their number, handlers ran only for events due in the window, and the component is caught up exactly when nothing was missed, which is so until a tipset cannot be read |
| `GivenUpRun.PassedOver` | chain/events/events_called.go:117-161 | a run in which a head change is given up and a later revert moves the last tipset past an event that still waits |
| `BlockValidity.CheckMsg` | chain/sync.go:975-1013 | a message passes exactly when the block with it is still acceptable |
| `BlockValidity.CheckMsgs` | chain/sync.go:1018-1033 | the loop passes exactly the acceptable sequences |
| `BlockValidity.CheckBlockMessages` | chain/sync.go:973-1033 | the validator accepts exactly the blocks whose messages are well-formed, priced, in nonce order per sender and within the gas limit |
| `Messages.TimesIsProduct` | chain/types/message.go:107-109 | the funds a message needs are price times gas limit |
| `MessageSelection.SortByNonce` | miner/selectmessages.go:48-50 | a permutation in nonce order |
| `MessageSelection.FilterOne` | miner/selectmessages.go:52-132 | a message joins its sender's run exactly when it is valid, next in turn and affordable |
| `MessageSelection.FilterPending` | miner/selectmessages.go:52-132 | every sender gets a funded run of consecutive nonces from the account's nonce, and a message that continues a run was left out only for want of funds |
| `MessageSelection.BestOf` | miner/selectmessages.go:157-174 | of the prefixes of one sender that fit, none beats the best so far |
| `MessageSelection.BestPrefix` | miner/selectmessages.go:147-175 | a best-paying fitting prefix of any sender, and none only if nothing fits |
| `MessageSelection.TakeStep` | miner/selectmessages.go:181-192 | taking a prefix moves it from the sender's list to the block and touches no other sender |
| `MessageSelection.TakeGas` | miner/selectmessages.go:182-188 | the total charged for a prefix is its gas and the gas of what the sender gave before, so it only over-counts |
| `MessageSelection.TakeBest` | miner/selectmessages.go:177-192 | one choice keeps the books: block, senders and charged gas |
| `MessageSelection.PackBlock` | miner/selectmessages.go:134-198 | the block is a prefix of every run, the gas charged is within the limit and covers the gas used, every choice takes something, at most one message is too many, and packing stops only when nothing fits |
| `Mining.SelectMessages` | miner/selectmessages.go:19-219 | the same for any pending list and actor table |
| `Mining.SplitBySignature` | chain/gen/mining.go:58-79 | BLS and other messages are separated, each in order |
| `Mining.ReorderKeepsSenders` | chain/gen/mining.go:58-79 | putting BLS messages first keeps the order of every sender whose BLS messages come first |
| `Mining.AcceptableIsBlsFirst` | chain/sync.go:973-1033 | an acceptable block never carries a sender's BLS message past an earlier Secp256k1 message |
| `Mining.PackedIsAcceptable` | chain/sync.go:973-1033 | prefixes of funded runs within the gas limit pass validation in block order if and only if all senders are accounts and no sender's Secp256k1 message precedes one of its BLS messages |
| `Mining.CreateBlock` | miner/miner.go:421-424 | the block holds a prefix of every sender's funded run and leaves room only when nothing more fits, and the validator accepts it exactly when its senders are accounts and none has a Secp256k1 message before a BLS message |
| `Mining.MixedSignatures` | chain/gen/mining.go:58-79 | a pool from which the miner always builds a block that the validator refuses |
| `Receipts.ListOne` | chain/store/store.go:748-764 | one message is listed exactly when it carries the expected nonce and is affordable |
| `Receipts.ListMessages` | chain/store/store.go:748-765 | the loop lists in order and fails exactly on an unknown sender |
| `Receipts.MessagesForTipset` | chain/store/store.go:710-769 | lists exactly the affordable messages in turn, block by block |
| `Receipts.ApplyAll` | chain/stmgr/stmgr.go:209-235 | executes the first occurrence of every message, and adds up what the block's miner has earned |
| `Receipts.ApplyBlocks` | chain/stmgr/stmgr.go:209-272 | the machine runs each block's new messages, awards their gas and penalties to its miner, and closes with cron; it fails only if the machine fails |
| `Receipts.ExecutedAreTaken` | chain/stmgr/stmgr.go:209-235 | with nonces in turn per block and unique slots, de-duplication by CID and by nonce agree |
| `Receipts.ListedAreExecuted` | chain/store/store.go:710-769 | listed and executed messages are the same list if and only if every sender can pay for its executed messages |
| `Receipts.OpsRunExecuted` | chain/stmgr/stmgr.go:209-266 | the tipset's operations run exactly the executed messages, in order |
| `Receipts.PlayAligns` | chain/stmgr/stmgr.go:209-266 | every run of the machine gives message i the receipt made after i messages |
| `Receipts.ReceiptAlignment` | chain/stmgr/stmgr.go:633-671 | on a funded tipset the receipt at an index is what the machine returned for the listed message at that index, in the state left by everything before it |
| `Receipts.ListedAscending` | chain/store/store.go:710-769 | listed nonces of a sender go up |
| `Receipts.TipsetExecutedMessage` | chain/stmgr/stmgr.go:633-671 | the backward search misses nothing: absent means no listed message has the slot |
| `MessagePool.SetAdd` | chain/messagepool/messagepool.go:121-146 | a slot is taken when free, by the same message, or by one paying a quarter more plus one; the next nonce stays above all |
| `MessagePool.FeesGrow` | chain/messagepool/messagepool.go:129-139 | after k replacements 4^k times the new price exceeds 5^k times the first |
| `MessagePool.AddLocked` | chain/messagepool/messagepool.go:467-515 | succeeds exactly when stored, within the gas limit and outbidding; only that slot changes, and the size counter stays exact |
| `MessagePool.AddMany` | chain/messagepool/messagepool.go:467-515 | over any run of adds the k-th replacement in a slot costs more than (5/4)^k times the first message |
| `MessagePool.HighestNonce` | chain/messagepool/messagepool.go:663-674 | the largest nonce left |
| `MessagePool.Remove` | chain/messagepool/messagepool.go:643-677 | only that slot is emptied, an emptied sender disappears, the counter stays exact |
| `ReorgSlots.BySlotMeaning` | chain/messagepool/messagepool.go:725-733 | the map of reverted messages holds exactly the slots of the recovered messages |
| `PoolReorg.RecoverAll` | chain/messagepool/messagepool.go:876-883 | BLS messages whose signature is cached are signed again, in order |
| `PoolReorg.MessagesForBlocks` | chain/messagepool/messagepool.go:865-886 | all recoverable messages, or failure exactly when a block cannot be read |
| `PoolReorg.CollectReverted` | chain/messagepool/messagepool.go:750-767 | reverted messages by slot, the last one winning |
| `PoolReorg.Strike` | chain/messagepool/messagepool.go:734-748 | an applied slot is struck from the waiting messages, and from the pool if nothing waits there |
| `PoolReorg.StrikeTip` | chain/messagepool/messagepool.go:769-782 | all slots of the tipset's blocks are struck, repeated ones once more |
| `PoolReorg.StrikeApplied` | chain/messagepool/messagepool.go:769-785 | exactly the applied slots are struck; a block that cannot be read stops it |
| `PoolReorg.AddAgain` | chain/messagepool/messagepool.go:787-793 | exactly the returnable waiting messages that outbid their slot are pending again |
| `PoolReorg.FollowHead` | chain/messagepool/messagepool.go:721-793 | per slot: not applied, then the recovered message if it returns and outbids, else unchanged; applied, then empty, unless the application only struck a recovered message; on failure messages are only lost |
| `PoolReorg.FollowedSlots` | chain/messagepool/messagepool.go:721-793 | when no recovered slot was pending and all return, the slots afterwards are the old and the recovered ones without the applied ones |
| `HeadNonces.StateNonce` | chain/messagepool/messagepool.go:547-580 | the nonce after the tipset's own messages, or failure exactly when they do not run on from the account's nonce |
| `HeadNonces.CheckState` | chain/messagepool/messagepool.go:435-452 | passes exactly the messages not below that nonce and within the balance |
| `HeadNonces.TakenCounts` | chain/store/store.go:748-764 | a sender's messages in turn count up to its next nonce |
| `HeadNonces.PaidIsListed` | chain/store/store.go:748-764 | a sender who can pay for all its messages in turn has all of them listed |
| `HeadNonces.ListsAllExactly` | chain/store/store.go:748-764 | as many messages of a sender are listed as are in turn if and only if it can pay for them |
| `HeadNonces.TipsetBelow` | chain/store/store.go:748-764 | in valid blocks every message lies below its sender's next nonce |
| `HeadNonces.HeadSlots` | chain/messagepool/messagepool.go:547-580 | from the account's nonce on the chain uses exactly the slots below the next nonce |
| `HeadNonces.FreeExactly` | chain/messagepool/messagepool.go:547-580 | all nonces from the state nonce on are off the chain if and only if the sender can pay for its messages in the current tipset |
| `HeadNonces.UnpaidIsAdmitted` | chain/messagepool/messagepool.go:547-580 | a slot on the chain is admitted when its sender cannot pay for the message there |
| `HeadNonces.UnpaidExample` | chain/messagepool/messagepool.go:547-580 | and such a block is acceptable |
| `PoolRuns.AdmittedOnChain` | chain/messagepool/messagepool.go:435-452 | an admitted message is on the chain exactly when the current tipset holds its slot, and is not if its sender pays |
| `PoolRuns.RunsIntoExactly` | chain/messagepool/messagepool.go:527-580 | from the state nonce on exactly the nonces below the sender's next nonce are on the chain, and none if the sender pays |
| `PoolRuns.AddChecked` | chain/messagepool/messagepool.go:435-458 | adds exactly the admitted messages that the store takes and that outbid their slot |
| `PoolRuns.RecoveredOnTop` | chain/messagepool/messagepool.go:750-767 | a recovered message was on the chain and is on nothing that remains of it |
| `PoolRuns.FollowedOffChain` | chain/messagepool/messagepool.go:721-793 | on chains without repeated slots following a head change keeps pool and chain apart |
| `PoolRuns.FollowChain` | chain/messagepool/messagepool.go:721-793 | the slot rule, and apartness where it held before |
| `PoolRuns.Pool.constructor` | chain/messagepool/messagepool.go:202-238 | an empty pool over any chain |
| `PoolRuns.Pool.EvictSignature` | chain/messagepool/messagepool.go:888-892 | without the signature exactly this message is no longer recovered from reverted tipsets |
| `PoolRuns.Pool.AddTs` | chain/messagepool/messagepool.go:435-458 | the added message is on the chain exactly when the current tipset holds its slot; with a paying sender nothing pending comes to be on the chain |
| `PoolRuns.Pool.GetNonce` | chain/messagepool/messagepool.go:527-545 | every nonce from the one handed out is free in the pool, and free on the chain exactly from the sender's next nonce in the current tipset on |
| `PoolRuns.Pool.HeadChange` | chain/messagepool/messagepool.go:721-793 | the contents follow the slot rule, and on chains with non-repeating slots no pending message is on the new chain if none was on the old one |
| `PoolRuns.Pool.PruneExcess` | chain/messagepool/pruning.go:20-39 | prunes exactly from the upper mark on, down to at most the lower mark, to exactly the kept messages |
| `Pruning.PendingFor` | chain/messagepool/messagepool.go:702-719 | exactly the sender's messages in nonce order |
| `Pruning.AllPending` | chain/messagepool/pruning.go:47-50 | exactly the pending messages |
| `Pruning.ChooseKept` | chain/messagepool/pruning.go:167-219 | a prefix of every run, at most the lower mark, and all runs whole when that is fewer |
| `Pruning.RemoveRest` | chain/messagepool/pruning.go:237-246 | exactly the chosen slots stay, untouched |
| `Pruning.KeptExactly` | chain/messagepool/pruning.go:237-246 | what is pending afterwards is exactly what was chosen |
| `Pruning.PruneMessages` | chain/messagepool/pruning.go:42-249 | at most the lower mark of messages stays, exactly the kept ones, in funded contiguous runs per sender; below the mark no affordable continuation was dropped |
| `FixedPoint.Polyval` | chain/types/electionproof.go:87-98 | the loop is Horner's method rounded down at each step |
| `FixedPoint.HornerIsExact` | chain/types/electionproof.go:84-98 | without rounding, Horner's method is the sum of coefficients times powers |
| `FixedPoint.RoundingError` | chain/types/electionproof.go:87-98 | the rounded value falls short of the exact one by at least nothing and less than the sum of the powers below the degree |
| `ExpNegative.DenominatorAtLeastOne` | chain/types/electionproof.go:74-82 | the denominator is at least one for every rate |
| `ExpNegative.NumeratorAtMostDenominator` | chain/types/electionproof.go:74-82 | rounding included, the numerator never exceeds the denominator |
| `ExpNegative.NumeratorNonNegative` | chain/types/electionproof.go:74-82 | rounding included, the numerator is not negative for rates up to five |
| `ExpNegative.ComputeExpNeg` | chain/types/electionproof.go:74-82 | the quotient of the two rounded polynomials |
| `ExpNegative.ExpNegWithin` | chain/types/electionproof.go:70-82 | for rates up to five the exponential lies between zero and one |
| `ExpNegative.ExpNegOfZero` | chain/types/electionproof.go:74-82 | it is exactly one at zero |
| `ElectionConstants.Division` | chain/types/electionproof.go:37-48 | Horner's method at a point divides a polynomial by its distance from that point |
| `ElectionConstants.NumeratorAtLeast` | chain/types/electionproof.go:37-48 | up to five the numerator polynomial of the program stays above its value at five |
| `ElectionConstants.ProgramIsGood` | chain/types/electionproof.go:16-68 | the program's coefficients meet every condition the results below ask for, and one is 2^256 |
| `Election.Lambda` | chain/types/electionproof.go:101-106 | the largest fixed-point rate whose product with the total power does not exceed power times blocks per epoch |
| `Election.RateWithin` | chain/types/electionproof.go:101-106 | a share of the total power gives a rate of at most five |
| `Election.PmfNonNegative` | chain/types/electionproof.go:154-169 | every term of the distribution is non-negative |
| `Election.IcdfFalls` | chain/types/electionproof.go:154-173 | the inverted distribution never rises |
| `Poisson.Poiss.constructor` | chain/types/electionproof.go:124-150 | starts with one minus the first probability |
| `Poisson.Poiss.Next` | chain/types/electionproof.go:154-173 | each call appends the next term of the inverted distribution |
| `Poisson.CountWins` | chain/types/electionproof.go:195-205 | the least index whose term does not exceed the hash, capped |
| `Poisson.HigherHash` | chain/types/electionproof.go:195-205 | the count is antitone in the hash, whatever the distribution |
| `Election.ComputeWinCount` | chain/types/electionproof.go:178-205 | the least index for any power and total power |
| `Election.WinCountIsCut` | chain/types/electionproof.go:178-205 | the count is exactly the number of terms above the hash |
| `Election.HigherHashWinsLess` | chain/types/electionproof.go:178-205 | a higher hash never wins more at the same rate |
| `Election.NoPowerNeverWins` | chain/types/electionproof.go:178-205 | rate zero never wins, whatever the hash |
| `StateLayers.OverlayMerge` | chain/state/statetree.go:67-80 | merging two layers shows what the two layers showed |
| `StateLayers.CacheHit` | chain/state/statetree.go:82-90 | a cached resolution in any layer is the one the topmost view gives |
| `StateLayers.MergeCaches` | chain/state/statetree.go:67-80 | merged caches agree with the merged view |
| `StateTree.ViewAt` | chain/state/statetree.go:96-108 | the topmost operation on an actor decides what the view holds |
| `StateTree.FindOp` | chain/state/statetree.go:96-108 | the loop finds that operation |
| `StateTree.FindResolved` | chain/state/statetree.go:82-90 | the loop finds the topmost cached resolution |
| `StateTree.LookupIsResolve` | chain/state/statetree.go:153-181 | with right caches the cache makes no difference to any address |
| `StateTree.ReadCaching` | chain/state/statetree.go:205-217 | caching a read in the top layer changes no view |
| `StateTree.Merge` | chain/state/statetree.go:71-77 | the upper layer wins, for actors and cached resolutions alike |
| `StateTree.WriteAll` | chain/state/statetree.go:253-263 | succeeds exactly when each write works and everything deleted is in the root, in any order; the view never changes |
| `StateTree.Tree.constructor` | chain/state/statetree.go:127-139 | one empty layer shows the root |
| `StateTree.Tree.GetById` | chain/state/statetree.go:196-218 | the actor of the topmost copy; no copy changes |
| `StateTree.Tree.LookupID` | chain/state/statetree.go:153-181 | the cache goes first; with right caches the answer is that of the init actor's map, and caches stay right |
| `StateTree.Tree.Remember` | chain/state/statetree.go:92-94 | caching a right resolution keeps all copies |
| `StateTree.Tree.GetActor` | chain/state/statetree.go:184-218 | the actor at any kind of address, as in the topmost copy |
| `StateTree.Tree.SetActor` | chain/state/statetree.go:141-150 | sets the actor in the topmost copy only; caches stay right unless the init actor's map lost something |
| `StateTree.Tree.DeleteActor` | chain/state/statetree.go:220-243 | deletes it from the topmost copy only, if it is there; the same for caches |
| `StateTree.Tree.Apply` | chain/state/statetree.go:110-116 | one operation changes the topmost copy at one actor |
| `StateTree.Tree.Snapshot` | chain/state/statetree.go:267-274 | pushes a copy |
| `StateTree.Tree.Revert` | chain/state/statetree.go:317-322 | puts the copy beneath, or the root, on top |
| `StateTree.Tree.ClearSnapshot` | chain/state/statetree.go:276-278 | drops the copy beneath the topmost |
| `StateTree.Tree.Flush` | chain/state/statetree.go:245-265 | never changes what the tree shows; on success, which is characterised exactly, the root holds that |
| `LaneStates.AppliedTotal` | paychmgr/state.go:109-117 | what one more voucher adds to the total redeemed |
| `LaneStates.AcceptKeeps` | paychmgr/paych.go:133-145 | accepting a voucher ahead of its lane keeps nonces and amounts strictly increasing |
| `PaymentChannels.LaneState` | paychmgr/state.go:78-120 | chain lanes with all stored vouchers applied, or failure exactly on a merge |
| `PaymentChannels.SumLanes` | paychmgr/state.go:129-132 | the sum over all lanes, in any order |
| `PaymentChannels.TotalRedeemedWithVoucher` | paychmgr/state.go:123-151 | equals the total recomputed with the voucher appended, except exactly when it repeats its lane's nonce with another amount |
| `PaymentChannels.CheckVoucherValid` | paychmgr/paych.go:104-184 | passes exactly the vouchers of the channel that are signed, ahead of their lane, without merges and covered by the balance |
| `PaymentChannels.AddToChannel` | paychmgr/paych.go:250-315 | a known voucher only gets a new non-empty proof; another one is accepted exactly when valid and worth the minimum |
| `PaymentChannels.NextLaneFromState` | paychmgr/state.go:62-74 | above all lanes on chain, wrapping to zero exactly at the last lane |
| `PaymentChannels.NextNonceForLane` | paychmgr/paych.go:340-357 | above all stored nonces of the lane, wrapping to zero exactly at the last nonce |
| `PaymentChannels.Open` | paychmgr/state.go:27-60 | a fresh record above all lanes on chain |
| `PaymentChannels.AcceptedOk` | paychmgr/paych.go:286-315 | after acceptance the balance covers redeemed and to-send amounts, and the total grew by the delta |
| `PaymentChannels.AddAndAccount` | paychmgr/paych.go:250-315 | the deltas of accepted vouchers add up to the growth of the total; a known voucher changes at most its proof, a refused one nothing |
| `PaymentChannels.TakeLane` | paychmgr/store.go:180-193 | a lane not used before, as long as the last lane is unused |
| `PaymentChannels.NextLaneFresh` | paychmgr/store.go:180-193 | after a lane is taken the next lane is unused if and only if the last lane was not taken or lane zero is unused |
| `PaymentChannels.LastLaneRun` | paychmgr/store.go:180-193 | a run in which one lane is handed out twice |
| `PaymentChannels.Manager.constructor` | paychmgr/store.go:31-36 | an empty store |
| `PaymentChannels.Manager.TrackChannel` | paychmgr/store.go:98-108 | tracks exactly the untracked channels that exist on chain |
| `PaymentChannels.Manager.AddVoucher` | paychmgr/paych.go:250-315 | over every run all channels keep increasing vouchers, exact totals and covered balances; a refused voucher changes nothing |
| `PaymentChannels.Manager.AllocateLane` | paychmgr/store.go:180-193 | never hands out a used lane while the last lane is unused |
| `SyncFork.JoinFork` | chain/sync.go:1306-1339 | ends at the highest fetched tipset on our chain above genesis; too long only if no fetched tipset is on our chain |
| `SyncFork.TakeSegment` | chain/sync.go:1243-1266 | appends exactly the fetched tipsets down to the wanted height, or meets a denied one |
| `SyncFork.CollectDown` | chain/sync.go:1197-1267 | terminates with a linked list from the incoming tipset, free of denied tipsets |
| `SyncFork.CollectHeaders` | chain/sync.go:1141-1296 | a linked list, above the known height free of denied tipsets, that ends at a child, a sibling or a proper ancestor of the known tipset; with peers that serve everything it fails only where the fork shares nothing fetched |
| `SyncBuckets.SameChainAs` | chain/sync_manager.go:196-209 | equal, parent or child of some tipset of the bucket |
| `SyncBuckets.Add` | chain/sync_manager.go:211-221 | keeps the bucket duplicate-free and connected |
| `SyncBuckets.HeaviestTipSet` | chain/sync_manager.go:223-235 | a heaviest tipset of the bucket |
| `SyncBuckets.RelatedToAny` | chain/sync_manager.go:120-127 | whether some bucket is on the tipset's chain |
| `SyncBuckets.Insert` | chain/sync_manager.go:129-137 | adds exactly this tipset, opening a bucket only if none is on its chain, and keeps every bucket in order |
| `SyncBuckets.Pop` | chain/sync_manager.go:139-163 | takes out one bucket, which holds a heaviest tipset of all |
| `SyncBuckets.PopRelated` | chain/sync_manager.go:165-173 | takes out a bucket on the tipset's chain, if there is one |
| `SyncBuckets.Heaviest` | chain/sync_manager.go:175-185 | a heaviest tipset of all buckets |
| `SyncScheduler.SyncedPeerCount` | chain/sync_manager.go:400-408 | positive exactly when some peer is above genesis |
| `SyncScheduler.SelectSyncTarget` | chain/sync_manager.go:237-259 | a heaviest head of all peers, however they fall into buckets |
| `SyncScheduler.BuildsOnActive` | chain/sync_manager.go:291-301 | says yes only for a child of an active sync, and no wrongly only where the tipset is itself active |
| `SyncScheduler.SyncManager.constructor` | chain/sync_manager.go:58-70 | nothing queued, channel unarmed |
| `SyncScheduler.SyncManager.SetPeerHead` | chain/sync_manager.go:83-106 | the heaviest head goes first; the bootstrap state only moves forward |
| `SyncScheduler.SyncManager.ScheduleIncoming` | chain/sync_manager.go:283-329 | every tipset but the bootstrap target waits behind the active sync it builds on, in the next target of its chain or in the queue; nothing is lost; the channel is armed exactly with a next target |
| `SyncScheduler.SyncManager.PopNext` | chain/sync_manager.go:324-327 | the next target holds a heaviest queued tipset |
| `SyncScheduler.SyncManager.ScheduleProcessResult` | chain/sync_manager.go:331-361 | the bucket behind the sync moves on after success and is dropped after failure, and nothing else is lost; a missing next target is replaced by that bucket or by one with a heaviest queued tipset |
| `SyncScheduler.SyncManager.ScheduleWorkSent` | chain/sync_manager.go:363-373 | the heaviest tipset becomes active and a bucket with a heaviest queued tipset moves up |
| `MessageTables.IndexBlock` | chain/blocksync/blocksync.go:229-241 | in-range indices that name the block's messages in order; the table grows only by new messages |
| `MessageTables.RoundTrip` | chain/blocksync/blocksync.go:216-276 | reading back restores every block exactly when CIDs tell messages apart |
| `MessageTables.Unpack` | chain/blocksync/blocksync.go:265-270 | the messages at the indices, in order |
| `BlockSync.GatherMessages` | chain/blocksync/blocksync.go:216-257 | tables without duplicates or strangers that name all messages; fails exactly when a block cannot be read |
| `BlockSync.BstsToFullTipSet` | chain/blocksync/blocksync.go:259-276 | every block's messages from the tables |
| `BlockSync.CompressionRoundTrip` | chain/blocksync/blocksync.go:216-276 | the round trip holds if and only if CIDs of signed messages tell them apart |
| `BlockSync.RequestMessages` | chain/blocksync/blocksync.go:216-276 | a peer gets an answer exactly when every block can be read, and the very messages exactly when the CIDs of signed messages tell them apart |
| `BlockSync.SecpCidsTell` | chain/blocksync/blocksync.go:243-253 | which is so for secp256k1 signatures |
| `BlockSync.BlsSignedExample` | chain/blocksync/blocksync.go:243-253 | and not for two BLS-signed messages that differ in the signature |
| `BlockSync.CollectChainSegment` | chain/blocksync/blocksync.go:180-214 | the ancestor path of the requested length, at least the start, failing exactly when the path ends early above genesis |
| `BlockSync.ProcessBlocksResponse` | chain/blocksync/blocksync_client.go:322-348 | accepts exactly the non-empty, valid, linked responses, unchanged |
| `BlockSync.RequestBlocks` | chain/blocksync/blocksync.go:136-178 | from an honest complete server the client gets exactly the ancestor path of the capped length |
| `Fil.PositiveRoundTrip` | chain/types/fil.go:13-63 | every positive amount survives printing and parsing |
| `Fil.NegativeIsRefused` | chain/types/fil.go:30-63 | a printed negative amount does not parse |
| `Fil.RoundTrip` | chain/types/fil.go:13-63 | printing then parsing gives the amount back if and only if it is not negative |
| `Fil.Rescale` | chain/types/fil.go:45-62 | trimmed decimal places rescale exactly to attoFIL |
| `Fil.Printed` | chain/types/fil.go:13-19 | the printed number is whole digits and decimal places without trailing zeros |

## Where code and comments differ

- `NearestCommonAncestor` is named for any two tipsets; the code reads the last reverted
  tipset and has none when the first tipset is an ancestor of the second.
- `GetBlocks` is said to verify that the blocks are the requested ones; the response check
  only verifies links, so `SyncFork` takes "segments start at the requested key" as a
  hypothesis on fetching.

## Left out

- Command line, RPC, dependency injection, metrics, journal and logging: no law to prove.
- CBOR codecs, signatures, VRFs, proofs and BLS aggregation: foreign calls; signature checks
  are boolean parameters.
- VM execution and actor code: the virtual machine is a function parameter of
  `Receipts.ApplyBlocks`.
- Arithmetic overflow: gas totals and timeout heights (int64) and message nonces (uint64) are
  unbounded integers; wrap-around is modelled where it decides a result (lanes and voucher
  nonces).
- Election.ComputeWinCount: takes the coefficients and the fixed-point one as parameters with
  their conditions; `ElectionConstants.ProgramIsGood` proves the conditions for the program's
  coefficients. Blocks per epoch are five, the value of an external constant.
- Floating point: the gas-to-reward ratio is an arbitrary non-negative score, so nothing is
  said about which of two senders wins.
- Timing, channel capacities and goroutine interleaving inside one handler: each handler is one
  step.
- HcEvents.ApplyHeights: does not state which listeners time out, which `HcEvents.ApplyTimeouts`
  states for one call; over a run it says that a listener is only disabled after it was called.
- Receipts.ApplyBlocks: starts from the state after null rounds and state forks were handled;
  these are not part of this model.
- TipSetCache.Cache.GetNonNull: asks that the search ends when nothing is buffered, since storage
  that has nothing at any height keeps the code searching.
- PoolRuns.Pool.HeadChange: nothing is claimed about later head changes once one failed half
  way; the pool then only lost messages.
- PoolRuns.Pool.AddTs: the size, address and value checks before the state checks, local
  message storage and publishing are not part of this model.
- SyncFork.CollectHeaders: beacon entry checks and the marking of blocks as bad are not part of
  this model; the deny list is only read, tipset by tipset.
- BlockSync.CollectChainSegment: serves headers; messages are added per tipset by
  `BlockSync.GatherMessages`.
- StateTree.Tree.SetActor: registration of new addresses is not part of this model.
- PaymentChannels.Manager.AddVoucher: for a fixed channel state on chain; failures of the
  key-value store are not part of this model.
- Fil.RoundTrip: letters and white space outside ASCII are not part of this model.
- Height-triggered events, `IsAncestorOf`, message waiting, window proofs and channel creation:
  not part of this model.
