# Verified model of the Axelar relayer's protocols

The project models the stateful core of an Axelar relayer and proves what its design relies on. Each
source component is a module; objects whose methods update fields are classes whose methods are
proved against specification functions, and where several parties interleave a state machine over
their single steps is added and its runs are reasoned about.

- **TON highload wallet.** `QueryId` counts query ids like a two-digit number. `WalletRows` is the
  table of query-id rows and the wrapper that reads, advances and writes one. `ReplayFilter` is the
  two-generation replay memory of the wallet contract quoted in the wrapper's documentation.
  `ReplayComposition` runs table and contract against each other on one clock. `WalletLease` is the
  Redis lock and the wallet pool, `Broadcaster` the acquire/send/release bracket, and `WalletProtocol`
  any number of workers interleaving lock, read, write, send and release, with failing calls and crashes.
  `BroadcastRuns` shows a broadcast to be a run of one such worker.
- **TON traces.** `Traces` holds the data, `GasCalculator` the cost fold, `TraceParser` the
  classification of transactions, `TraceEvents` the pairing of gas payments with calls and the
  spreading of the gas; `TraceLaws` tells the same from the input, op code by op code and event by event. `TraceDedup` is the trace table and the pollers that share it, `TraceRuns` their
  interleavings, with polls that fail.
- **BOC codec.** `Cells` holds cells with their limits, builder and parser; `BufferCell` the chaining
  encoder and loop decoder; `ExecuteMessage` the execute message, its wrapping and the reader.
- **Queue.** `QueueProtocol` is the buffer, its loop, the broker's queues and the consumers as one
  state machine; `QueueRuns` holds what is true of whole runs; `QueueHandlers` is the sequential code
  of a consumer and of the loop over its own fields, shown to be runs of that machine.
- **XRPL monitor and distributor.** `QueuedTxMonitor` and `Distributor`; `CursorSteps` is the distributor's
  loop one step at a time. `Wrappers` and `Powers` are helpers.

## What the proofs found

- The guard `has_next` and the step `next` disagree on exactly two ids. From id 0 the last id is
  (8191, 1020), which the guard lets through and the step refuses, so an exhausted wallet reports
  `ConstructionError`; `NoNextQueryId` is never reported (ton/src/high_load_query_id.rs:56-78).
- The lifetime of a row is `timeout as i32 * 3`. It is three timeouts exactly when the timeout is at
  most 715,827,882 seconds; above that the cast or the product wraps, in a release build.
- The wrapper's documentation calls a reset after three timeouts safe. An id is certainly forgotten
  only strictly after three timeouts from its own acceptance, and the row's expiry counts from id 0. A
  reissue in the next epoch is safe in every run exactly when it does not come sooner after its
  epoch's start than the issue it repeats.
- Holding a wallet for less than a bound keeps both promises, one holder and no repeated id, exactly when
  the bound is at most the 60-second lease. Nothing in the source enforces the bound.
- Every message is published with a fresh header table (relayer_base/src/queue.rs:437-439), so the
  retry count is always absent and the dead-letter branch is unreachable.
- A force requeue acknowledges first and then sends to the buffer. After the buffer loop has ended that
  send fails and the item is gone; shutdown closes the queues while handlers may still be running
  (relayer_base/src/queue.rs:182-188, relayer_base/src/ingestor.rs:184-186). It also returns without
  sending when the acknowledgement took effect but was reported as failed. These are the only two ways
  the model loses an item.
- A trace's retry budget is 10, the column default; the 5 set in `TONTrace::from` is never inserted.
- A stale incomplete version stored after the complete one makes a trace be emitted again.
- A poll that stops at a database error has stored its first traces and hands none over. A trace so
  dropped is emitted later exactly if a complete version different from the one stored before it is
  observed.
- A recovery stops at the end of a batch; it passes over nothing beyond its target exactly when some batch
  ends there.
- The distributor stores its cursor before it publishes the task. A loop that stops in between skips the
  task after a restart, and that is the only point at which the cursor is ahead. A recovery from the
  start of the log stores nothing first, so the old cursor stays until a write succeeds.

## Conventions

- Results of I/O are parameters: whether Redis, the database, the broker or the network answers, the
  clock at each access, and the outcome of every publish, ack and nack.
- A publish, acknowledgement or rejection reported as done took effect; one reported as failed may have.
  The broker may take back an unacknowledged delivery at any time. A Redis command may take effect
  although its reply is lost.
- Times in the wallet modules are seconds on one clock shared by database, Redis and contract; in
  the XRPL monitor they are microseconds.
- A contract that refuses a message may keep or revert the cleanup the message triggered; both are covered.
- The pool's wallets are walked in some fixed order, as a hash map's iteration order is unspecified.
- Redis keys are wallet addresses: the constant `wallet_lock_` prefix is dropped.
- The Keccak digest, the UTF-8 check and the price conversion are parameters; serializing a cell to a
  bag of cells and back is taken to be the identity.
- The layout of the message header, the action list and the optional address follows the TL-B schema
  block.tlb; cell limits follow section 3.1 of the TON Virtual Machine specification.

## Model

| member | source | states |
|---|---|---|
| QueryId.FromShiftAndBitnumber | ton/src/high_load_query_id.rs:42-54 | an id is built exactly for a shift up to 8191 and a bit number up to 1022; which limit is reported otherwise |
| QueryId.OrdinalRoundTrip | ton/src/high_load_query_id.rs:31-54 | ids and their ordinals correspond one to one: shift is the ordinal div 1023, bit the ordinal mod 1023 |
| QueryId.NextIsSuccessor | ton/src/high_load_query_id.rs:56-74 | advancing adds one to the ordinal and fails at exactly two ids, each with its own error |
| QueryId.HasNextDisagreesWithNext | ton/src/high_load_query_id.rs:56-78 | guard and step differ exactly at (8191, 1020) and (8191, 1021), once in each direction |
| QueryId.StepWithinEpoch | ton/src/high_load_query_id.rs:56-78 | on ids reachable from 0 the guard always passes and only the last id has no successor |
| QueryId.EncodeReadsBack | ton/src/high_load_query_id.rs:80-83 | the number is read back as its digits: shift is the number div 1024, bit the number mod 1024 |
| QueryId.EncodeKeepsOrder | ton/src/high_load_query_id.rs:80-83 | encoded ids are below 2^23 and strictly follow the issuing order, so encoding is injective |
| WalletRows.RowLifetimeIsThreeTimeouts | ton/src/high_load_query_id_db_wrapper.rs:148-155 | the 32-bit product is three timeouts exactly for timeouts up to 715,827,882 |
| WalletRows.RowLifetimeWraps | ton/src/high_load_query_id_db_wrapper.rs:148-155 | for every timeout the lifetime is the 32-bit number congruent to three timeouts |
| WalletRows.WalletQueryIdModel.Get | ton/src/models/ton_wallet_query_id.rs:37-51 | a live row's digits, or (-1, -1) when the row is missing or expired |
| WalletRows.WalletQueryIdModel.Update | ton/src/models/ton_wallet_query_id.rs:53-68 | overwrites the digits of an existing row and leaves its expiry |
| WalletRows.WalletQueryIdModel.Upsert | ton/src/models/ton_wallet_query_id.rs:70-96 | inserts or replaces the row with a new expiry |
| WalletRows.HighLoadQueryIdDbWrapper.NextId | ton/src/high_load_query_id_db_wrapper.rs:117-166 | the call's result and the table it leaves, for every row, failure and clock |
| WalletRows.ResetStartsEpoch | ton/src/high_load_query_id_db_wrapper.rs:128-157 | without a live row id 0 is issued and the row lives for the computed lifetime |
| WalletRows.EpochIssuesConsecutiveIds | ton/src/high_load_query_id_db_wrapper.rs:117-166 | until the expiry, whatever other wallets do and whatever calls fail, the wallet gets consecutive ids, one per served call, up to the last one, and the expiry stays |
| WalletRows.EpochIdsInMixedRadix | ton/src/high_load_query_id_db_wrapper.rs:117-166 | the k-th id after a reset is shift k div 1023, bit k mod 1023 |
| WalletRows.EpochNumbers | ton/src/high_load_query_id.rs:80-83 | the number sent for the k-th id of an epoch is (k div 1023) * 1024 + k mod 1023 |
| WalletRows.EpochLength | ton/src/high_load_query_id_db_wrapper.rs:132-146 | an epoch issues one id per served call, 8,380,414 at most |
| WalletRows.ExhaustedEpochFails | ton/src/high_load_query_id_db_wrapper.rs:138-146 | after 8,380,414 ids every call before the expiry fails and changes no row |
| WalletRows.NoNextQueryIdIsUnreachable | ton/src/high_load_query_id_db_wrapper.rs:138-146 | in no run from reachable rows is the exhaustion error reported |
| ReplayFilter.WalletContract.ReceiveMessage | ton/src/high_load_query_id_db_wrapper.rs:10-18 | the in-place rotation of the two generations, and acceptance when neither knows the id |
| ReplayFilter.ReplayHorizonIsThreeTimeouts | ton/src/high_load_query_id_db_wrapper.rs:10-27 | an id is forgotten after a gap, whatever messages come between, exactly when the gap exceeds three timeouts |
| ReplayFilter.RunKeeps | ton/src/high_load_query_id_db_wrapper.rs:10-18 | what each generation says about the last acceptance survives any run that does not accept the id again |
| ReplayFilter.ReplayWithinTimeoutIsRefused | ton/src/high_load_query_id_db_wrapper.rs:10-27 | within one timeout of its acceptance an id is refused, whatever comes between |
| ReplayComposition.WrapperConfigures | ton/src/high_load_query_id_db_wrapper.rs:148-155 | the wrapper's lifetime matches the contract's three timeouts exactly when the timeout does not overflow |
| ReplayComposition.StepsKeepInv | ton/src/high_load_query_id_db_wrapper.rs:117-166 | rows, epochs, the log of issues and the contract's memory stay consistent over every run |
| ReplayComposition.FreshUnlessLaterOffsetBefore | ton/src/high_load_query_id_db_wrapper.rs:20-27 | in every run an issued id is accepted unless the epoch just before issued it at a larger offset |
| ReplayComposition.ResetIsAccepted | ton/src/high_load_query_id_db_wrapper.rs:128-157 | id 0 is accepted at every reset |
| ReplayComposition.ReissueTwoEpochsLaterIsAccepted | ton/src/high_load_query_id_db_wrapper.rs:20-27 | an id last issued two or more epochs ago is accepted |
| ReplayComposition.SoonerReissueCanBeRefused | ton/src/models/ton_wallet_query_id.rs:53-68 | for every timeout and every amount sooner, up to three timeouts, a run exists in which the contract refuses the reissue |
| ReplayComposition.ReissueIsSafeIffNotSooner | ton/src/high_load_query_id_db_wrapper.rs:10-27 | a reissue in the next epoch is accepted in every run exactly when it comes no sooner after its epoch's start |
| WalletLease.RedisLockManager.Lock | ton/src/lock_manager.rs:61-73 | set if absent with a 60 second expiry; an error counts as not locked, whether or not the key was set |
| WalletLease.RedisLockManager.Unlock | ton/src/lock_manager.rs:75-83 | unconditional delete of the key, also when its reply is lost |
| WalletLease.WalletManager.Acquire | ton/src/wallet_manager.rs:124-133 | takes the first wallet whose lease it gets, none exactly when it gets none; every key set on the way stays |
| WalletLease.WalletManager.Release | ton/src/wallet_manager.rs:135-138 | deletes that wallet's lease and no other |
| WalletProtocol.LeaseStep | ton/src/lock_manager.rs:61-83 | every timely step keeps each held wallet's lease its holder's own and keeps holders apart |
| WalletProtocol.InvRun | ton/src/wallet_manager.rs:124-138 | leases, holders' knowledge of the row and the sends stay consistent over every timely run |
| WalletProtocol.NoSharedWalletNoRepeatedId | ton/src/broadcaster.rs:76-110 | in every timely interleaving no wallet has two holders and no two sends of one wallet between resets carry the same id |
| WalletProtocol.ReleaseRemovesOwnLease | ton/src/lock_manager.rs:75-83 | in every timely run the plain delete removes only the lease its caller took |
| WalletProtocol.OverstayingBreaksThePromises | ton/src/lock_manager.rs:61-65 | for every bound beyond the lease, a run within it in which two workers share a wallet and send the same id |
| WalletProtocol.SafeBoundIsTheLease | ton/src/lock_manager.rs:61-65 | all runs whose holders stay below a bound keep both promises exactly when the bound is at most 60 seconds |
| Broadcaster.TONBroadcaster.SendToChain | ton/src/broadcaster.rs:76-110 | on a leased wallet an id is spent before the message is built; what is posted carries its number |
| Broadcaster.TONBroadcaster.Broadcast | ton/src/broadcaster.rs:234-288 | which wallet is taken, the rows and posts it leaves, and that every path that took a wallet deletes its lease |
| BroadcastRuns.BroadcastIsRun | ton/src/broadcaster.rs:234-288 | a broadcast is a run of one idle worker of the protocol, with the same leases, rows and messages |
| GasCalculator.AddCost | ton/src/gas_calculator.rs:21-23 | one entry changes by the amount, the other entries stay, and the sum grows by it |
| GasCalculator.SumValues | ton/src/gas_calculator.rs:111-112 | the sum does not depend on the order in which the map is walked |
| GasCalculator.AddMessages | ton/src/gas_calculator.rs:94-108 | the messages of a transaction move the balances by exactly their scalar cost and keep the key set |
| GasCalculator.Cost | ton/src/gas_calculator.rs:82-113 | the per-address balances add up to one running total; repeated addresses make no difference |
| GasCalculator.CalcMessageGas | ton/src/gas_calculator.rs:115-118 | nothing for a total of at most zero, the total itself below 2^64, its low 64 bits above |
| GasCalculator.ClampedIsGas | ton/src/gas_calculator.rs:115-118 | the clamp and cast have these three cases for every total |
| GasCalculator.CalcMessageGasNativeGasRefunded | ton/src/gas_calculator.rs:57-80 | nothing without a third transaction or its first message; otherwise the same three cases of the total less the message's value |
| GasCalculator.TraceCostAdds | ton/src/gas_calculator.rs:82-113 | for every trace the cost of two disjoint address sets together is the sum of their costs |
| GasCalculator.OwnTraceCostsFees | ton/src/gas_calculator.rs:90-109 | when all accounts are ours the cost is exactly total fees plus forward fees |
| GasCalculator.TraceCostPermutes | ton/src/gas_calculator.rs:90-109 | the cost is the same for every permutation of the transactions |
| GasCalculator.RefundSubtractionIsExact | ton/src/gas_calculator.rs:57-80 | subtracting the refund equals the cost without that value exactly when it went from us to others, or was zero |
| GasCalculator.RefundGasIsCostWithoutRefund | ton/src/gas_calculator.rs:57-80 | a refund from us to others: the refund gas is the clamped cost of the trace with that value set to zero |
| TraceParser.Parse | ton/src/transaction_parser/parser_message_executed.rs:37-48 | the parser that reads a matched transaction is of its kind and keeps its transaction; its message index is in bounds |
| TraceParser.MatchesExclude | ton/src/ton_constants.rs:1-14 | two kinds match one transaction only if they are the two jetton kinds |
| TraceParser.AnyOrderClassifiesAlike | ton/src/transaction_parser/parser.rs:251-326 | every order of trying that keeps the jetton pair picks the same kind |
| TraceParser.SourceOrderKeepsJettonOrder | ton/src/transaction_parser/parser.rs:251-326 | the source's order is one of them |
| TraceParser.AnyOrderCollectsAlike | ton/src/transaction_parser/parser.rs:226-328 | every such order builds the same parser lists for every trace |
| TraceParser.ReadOne | ton/src/transaction_parser/parser.rs:251-326 | the first matching kind of the list is read, the others are not tried |
| TraceParser.CreateParsers | ton/src/transaction_parser/parser.rs:226-328 | calls and other parsers in order, the payments under their keys, and the number of approvals |
| TraceLaws.MatchesMean | ton/src/transaction_parser/common.rs:11-23 | each kind by account, op code, log position and the other message it needs |
| TraceLaws.ReadingMeans | ton/src/transaction_parser/parser.rs:251-326 | a transaction is read as a parser exactly if account, op code, log position and the field of the log's body give that parser, and fails exactly if it is recognized but unreadable |
| TraceLaws.TraceListsInOrder | ton/src/transaction_parser/parser.rs:226-328 | each of the three lists holds exactly its parsers, in transaction order, the others after the leading parser |
| TraceLaws.TraceFailsIff | ton/src/transaction_parser/parser.rs:236-326 | building fails exactly on an unreadable leading message or a recognized transaction that is unreadable |
| TraceLaws.RawLayout | ton/src/transaction_parser/parser.rs:106-122 | each call's event with its own fields, one credit right after it exactly if a payment belongs there, then the events of the others, each with its own fields |
| TraceEvents.PaymentMapHoldsLast | ton/src/transaction_parser/parser.rs:286-313 | the payment map holds the last payment of every key |
| TraceEvents.NoPaymentIsCreditedTwice | ton/src/transaction_parser/parser.rs:106-117 | no payment is credited at two calls |
| TraceEvents.RemainingAtCall | ton/src/transaction_parser/parser.rs:106-117 | at a call the map still has its key exactly when this call is the first with it, and then the last payment |
| TraceEvents.EmitCalls | ton/src/transaction_parser/parser.rs:106-117 | each call's event, then one credit with that call's message id when it is the first with its key and a payment exists |
| TraceEvents.SettleEvents | ton/src/transaction_parser/parser.rs:124-205 | costs filled in and jettons converted, event by event |
| TraceEvents.DivisionIsSafe | ton/src/transaction_parser/parser.rs:155-161 | whenever an approval is settled there is an approval to divide by |
| TraceEvents.ParseTraceInOrder | ton/src/transaction_parser/parser.rs:60-206 | the loops produce the declarative list for any order of parsers; position by position every event keeps its content, executions cost the trace's gas, refunds the refund gas, approvals their share, and credits come out without a token |
| TraceEvents.ParseTrace | ton/src/transaction_parser/parser.rs:60-206 | the same for the source's order, and exactly when there is no result |
| TraceEvents.ExpectedEventsAnswer | ton/src/transaction_parser/parser.rs:124-205 | the declarative list has these contents and costs for every trace |
| TraceEvents.AnyOrderGivesSameEvents | ton/src/transaction_parser/parser.rs:251-326 | reordering the parsers, the jetton pair apart, changes no event |
| TraceEvents.ApprovalsShareTheGas | ton/src/transaction_parser/parser.rs:155-166 | the approvals' costs add up to at most the total gas and fall short by less than their number |
| Cells.BitsRoundTrip | ton/src/boc/buffer_to_cell.rs:18-20 | a number written in enough bits is read back |
| Cells.ToBitsAt | ton/src/boc/buffer_to_cell.rs:18-20 | bits stand most significant first: bit i of a width has weight 2^(width - 1 - i) |
| BufferCell.BuildCellChain | ton/src/boc/buffer_to_cell.rs:9-32 | the recursive encoder never fails and builds the chain of the buffer from any start |
| BufferCell.BufferToCell | ton/src/boc/buffer_to_cell.rs:34-36 | every buffer has a chain |
| BufferCell.CellToBuffer | ton/src/boc/cell_to.rs:44-67 | the nested loops read, on every cell, the bytes of the cell and of its first-reference chain |
| BufferCell.ChainRoundTrip | ton/src/boc/cell_to.rs:44-67 | decoding the encoded chain of any buffer returns the buffer |
| BufferCell.ChainIsInjective | ton/src/boc/buffer_to_cell.rs:9-36 | different buffers have different chains |
| BufferCell.ChainShape | ton/src/boc/buffer_to_cell.rs:9-36 | one cell, or one per started 96 bytes, each with at most 96 whole bytes and one reference |
| BufferCell.ChainCellAt | ton/src/boc/buffer_to_cell.rs:9-32 | cell j of the chain holds bytes 96 j to 96 j + 96 and ends the chain exactly when the buffer ends there |
| BufferCell.BytesToBitsAt | ton/src/boc/buffer_to_cell.rs:13-21 | byte i takes bits 8 i to 8 i + 8 |
| ExecuteMessage.ToCell | ton/src/boc/relayer_execute_message.rs:81-140 | fails exactly for a payload that is not hex; otherwise every field reads back from its own place: op code, relayer address, three texts, digest, payload, destination |
| ExecuteMessage.ExecuteCellReadsBack | ton/src/boc/relayer_execute_message.rs:96-139 | the same of the cell tree, for all fields |
| ExecuteMessage.HexDecodesPairs | ton/src/boc/relayer_execute_message.rs:90-91 | hex decodes exactly for an even number of digits, two to a byte |
| ExecuteMessage.HexRoundTrip | ton/src/broadcaster.rs:200-208 | a payload put into hex decodes to itself |
| ExecuteMessage.OutActionReadsBack | ton/src/out_action.rs:28-53 | an action builds exactly below 2^120 coins; flags, destination, value and body read back, and errors are ignored |
| ExecuteMessage.CoinsReadBack | ton/src/out_action.rs:34-45 | a coin amount reads back, in the fewest bytes |
| ExecuteMessage.InternalTransferBody | ton/src/ton_wallet_high_load_v3.rs:94-114 | refuses more than 254 actions; from the body the op code, the query id and all actions, in order, with mode and message, read back |
| ExecuteMessage.BodyReadsBack | ton/src/ton_wallet_high_load_v3.rs:103-113 | the same for every list of actions and every 64-bit query id |
| ExecuteMessage.FromCell | ton/src/boc/relayer_execute_wrapped.rs:36-75 | succeeds exactly if every reference of the walk is there and both texts are UTF-8, and returns those texts |
| ExecuteMessage.WrappedMessageRoundTrip | ton/src/boc/relayer_execute_wrapped.rs:36-75 | for all fields, earlier actions and query ids the reader returns the message's own id and source chain |
| ExecuteMessage.ExecuteCellWellFormed | ton/src/boc/relayer_execute_message.rs:96-139 | every cell of the message keeps the 1023-bit and 4-reference limits |
| ExecuteMessage.WrappedMessageWellFormed | ton/src/out_action.rs:28-53 | so does every cell of the wrapped message |
| QueueProtocol.StepConservesCopies | relayer_base/src/queue.rs:174-240 | per item and step: a copy is gained only by acceptance or a failed or lost call, and lost only by completion or by being dropped |
| QueueRuns.RunConservesCopies | relayer_base/src/queue.rs:174-240 | copies at the end plus losses equal copies at the start plus gains, for every item and run |
| QueueRuns.StepLosesIffLastCopyDropped | relayer_base/src/queue.rs:182-188 | a step loses an item exactly when it drops its last copy: a requeue after the buffer loop has ended, or a force ack whose effect is reported as failure |
| QueueRuns.RunLosesNothing | relayer_base/src/queue.rs:90-133 | in every run without such a step every accepted item is processed or still somewhere |
| QueueRuns.AcceptedItemsSurvive | relayer_base/src/includer.rs:99-142 | from the start nothing is lost in a run that drops no last copy; without a shutdown or a lost force ack none is dropped |
| QueueRuns.ExitOnlyWithEmptyBuffer | relayer_base/src/queue.rs:119-130 | the loop ends gracefully only after a shutdown and with nothing left in the buffer or in hand |
| QueueRuns.BufferStaysBounded | relayer_base/src/queue.rs:144-154 | in every run the buffer holds at most its thousand items |
| QueueRuns.RetriedItemIsDeliveredAgain | relayer_base/src/queue.rs:209-239 | a failed item comes back after its delay with no retry count, from any state |
| QueueRuns.DeadLetterIsUnreachable | relayer_base/src/queue.rs:422-457 | in every run no message carries a retry count and nothing is dead-lettered |
| QueueRuns.LateRequeueLosesItem | relayer_base/src/queue.rs:182-188 | a run with every publish and ack successful that loses an item during shutdown |
| QueueRuns.LostForceAckLosesItem | relayer_base/src/queue.rs:183-185 | a run without a shutdown that loses an item to the lost reply of a force ack |
| QueueHandlers.Queue.RepublishAtTail | relayer_base/src/queue.rs:182-188 | acknowledge, then append to the buffer, and touch no other queue; a copy is lost exactly when the loop is gone or the ack is wrongly reported |
| QueueHandlers.Queue.RepublishForRetry | relayer_base/src/queue.rs:209-239 | publish to the retry queue, then acknowledge, or reject back to the main queue if the publish is not confirmed; the exact change of every queue and in copies |
| QueueHandlers.Queue.Republish | relayer_base/src/queue.rs:174-240 | which queue the item enters, place by place, for each way to hand a delivery back; the retry limit is never exceeded |
| QueueHandlers.Queue.OnDelivery | relayer_base/src/ingestor.rs:49-92 | ack when processed, tail when irrelevant, retry when failed: the exact change of every queue, each a run of the protocol with its exact effect on copies |
| QueueHandlers.Queue.LoopPass | relayer_base/src/queue.rs:97-131 | the oldest item goes to the main queue or back to the end of the buffer; exit exactly on shutdown with an empty buffer |
| QueueHandlers.Queue.Drain | relayer_base/src/queue.rs:97-131 | during a shutdown the loop ends exactly when everything is published, and the main queue has it all |
| TraceDedup.TraceTable.UpsertAndReturnIfChanged | ton/src/models/ton_trace.rs:82-111 | a row is returned exactly when it was inserted or one of four columns changed; the budget stays |
| TraceDedup.TraceTable.FetchRetry | ton/src/models/ton_trace.rs:115-126 | distinct incomplete rows with budget left, the least recently updated first, all of them when they fit the limit |
| TraceDedup.TraceTable.DecreaseRetry | ton/src/models/ton_trace.rs:128-135 | one row's budget shrinks by one |
| TraceDedup.MaxLt | ton/src/subscriber.rs:100-103 | the largest end time of the batch |
| TraceDedup.Subscriber.PollAccount | ton/src/subscriber.rs:83-130 | the cursor, the rows, the traces passed on, and at an error exactly the traces dropped |
| TraceDedup.RetrySubscriber.PollAccount | ton/src/retry_subscriber.rs:51-112 | the budgets spent, the rows stored, the traces passed on, and at an error exactly the traces dropped |
| TraceRuns.EveryEdgeIsEmittedOrDropped | ton/src/subscriber.rs:111-129 | from any table, in any interleaving with any failing polls, the new complete versions are exactly those emitted and those dropped |
| TraceRuns.EmissionsAreEdges | ton/src/models/ton_trace.rs:82-111 | when no poll fails a trace is emitted, in order, once per complete version that differs from the one stored before |
| TraceRuns.EmittedOnceIffOneBlock | ton/src/subscriber.rs:111-127 | exactly one emission if and only if the complete observations are one block of one version |
| TraceRuns.SettledTraceIsEmittedOnce | ton/src/retry_subscriber.rs:81-109 | incomplete versions followed by one fixed complete version: exactly that version is emitted, once |
| TraceRuns.RetriesStayWithinBudget | ton/src/models/ton_trace.rs:115-135 | budget left plus retries found incomplete is ten, and never negative |
| TraceRuns.PollIsRun | ton/src/subscriber.rs:111-129 | a poll is a run of its upserts, with its rows, its result and, if it fails, what it drops |
| TraceRuns.RetryPollIsRun | ton/src/retry_subscriber.rs:81-111 | the same for a retry poll that answers each fetched id at most once, with the budgets it spends and the versions it observes |
| TraceRuns.StaleVersionEmitsAgain | ton/src/subscriber.rs:111-127 | a run in which a stale incomplete version makes a trace be emitted twice |
| TraceRuns.UnseenIffSomeEmits | ton/src/subscriber.rs:111-127 | a poll has something to hand over, or to drop, exactly when some trace is new and complete when its turn comes |
| TraceRuns.SilentIffNothingFresh | ton/src/subscriber.rs:111-127 | from any table, in every run without a failing poll, a trace is never emitted exactly when no later observation is complete and different from the version stored just before it |
| TraceRuns.DroppedTraceStaysSilentIffNothingFresh | ton/src/subscriber.rs:113-117 | the same for each trace a failing poll dropped, from the state that poll leaves |
| TraceRuns.FailedPollLosesTrace | ton/src/subscriber.rs:113-117 | a run in which a poll fails after storing a new complete trace, and polling again emits only the other one |
| QueuedTxMonitor.CheckTransactionStatus | xrpl/src/queued_tx_monitor.rs:109-137 | which answers confirm, which drop and which are errors, each exactly |
| QueuedTxMonitor.QueuedTransactions.GetReadyForCheck | xrpl/src/models/queued_transactions.rs:61-71 | exactly the queued rows never checked or last checked more than 10 * 2^retries seconds ago, each once |
| QueuedTxMonitor.QueuedTransactions.UpdateStatus | xrpl/src/models/queued_transactions.rs:73-88 | status and check time of one row change |
| QueuedTxMonitor.QueuedTransactions.Store | xrpl/src/models/queued_transactions.rs:90-105 | a new row is queued with no retries; an old one keeps status, retries and check time |
| QueuedTxMonitor.QueuedTransactions.IncrementRetry | xrpl/src/models/queued_transactions.rs:107-117 | retries and check time of one row change |
| QueuedTxMonitor.Monitor.Deal | xrpl/src/queued_tx_monitor.rs:58-103 | one row's transition, expiry without a query included |
| QueuedTxMonitor.Monitor.CheckQueuedTransactions | xrpl/src/queued_tx_monitor.rs:48-107 | a round deals once with every ready row and touches no other; an error stops it there |
| QueuedTxMonitor.StatusIsOutcomeOfChecks | xrpl/src/queued_tx_monitor.rs:57-104 | in every run the status is exactly what the recorded checks say, and retries count the inconclusive ones |
| QueuedTxMonitor.QueriedAtMostTwentyTimes | xrpl/src/queued_tx_monitor.rs:57-70 | at most twenty queries per transaction, plus one per failed update |
| QueuedTxMonitor.NthCheckIsLate | xrpl/src/models/queued_transactions.rs:61-65 | the n-th check of a transaction stored at t0 is recorded later than t0 + 10 (2^n - 1) seconds |
| QueuedTxMonitor.TerminalStatusIsForever | xrpl/src/models/queued_transactions.rs:90-105 | confirmed, dropped and expired are never left in any continuation, even when stored again |
| Distributor.TailStartsAtCursor | relayer_base/src/distributor.rs:113-118 | with distinct ids the cursor determines exactly the rest of the log |
| Distributor.DefaultRoutes | relayer_base/src/distributor.rs:61-75 | with the relayer's own configuration two kinds go to the includer, five to the ingestor, the rest nowhere |
| Distributor.FilterOnlyDrops | relayer_base/src/distributor.rs:132-136 | a filter drops exactly the kinds it does not name and reroutes nothing |
| Distributor.Distributor.HandleTask | relayer_base/src/distributor.rs:126-155 | a task is recorded, then its cursor written, then published |
| Distributor.Distributor.StoreLastTaskId | relayer_base/src/distributor.rs:93-104 | the stored cursor moves exactly when there is one to store and the write succeeds |
| Distributor.Distributor.Dispatch | relayer_base/src/distributor.rs:132-155 | the task is appended to the queue it belongs to, or dropped |
| Distributor.Distributor.Work | relayer_base/src/distributor.rs:106-158 | both queues grow by the routed, filtered tasks, task by task in the order record, write, publish; the cursor moves to the last task, the stored one to the last whose write succeeded, a failed fetch changes nothing |
| Distributor.Distributor.Run | relayer_base/src/distributor.rs:160-175 | after any rounds both queues hold exactly the projections of the log segment passed over, and the stored cursor is unchanged or lies in that segment |
| Distributor.Distributor.NewWithRecoverySettings | relayer_base/src/distributor.rs:76-90 | recovery starts at the given id, stored first; without one the database keeps its cursor |
| Distributor.Distributor.RunRecovery | relayer_base/src/distributor.rs:177-204 | the same with a filter, from any stored cursor; it stops exactly after the first batch with the target |
| Distributor.StoredSinceIsNotBeyond | relayer_base/src/distributor.rs:93-104 | at the end of a round the stored cursor is not ahead of what was passed on, if it was not before |
| Distributor.RecoveryEnds | relayer_base/src/distributor.rs:194-201 | a recovered run ends with the first batch that reaches beyond the target |
| Distributor.RecoveryIsExactIffBatchEndsAtTarget | relayer_base/src/distributor.rs:194-201 | it passes over no task beyond the target exactly when some batch ends at the target |
| Distributor.RecoveryCanOvershoot | relayer_base/src/distributor.rs:194-201 | for any log and target, a run that passes over everything beyond the target |
| CursorSteps.CursorAheadIffWrittenNotPublished | relayer_base/src/distributor.rs:120-156 | wherever the loop stops, the stored cursor is beyond an unpublished task exactly when the write of the task in hand succeeded, its publish is due, and it has a queue |
| CursorSteps.CursorAheadIffNotReached | relayer_base/src/distributor.rs:85-88 | whatever was stored at the start, a restart skips exactly the routed tasks before the stored cursor that the loop has not come past |
| CursorSteps.RoundIsRun | relayer_base/src/distributor.rs:120-156 | the steps a round takes are a run of this machine, with the same queues and cursors |
| CursorSteps.StopBeforePublishSkipsTask | relayer_base/src/distributor.rs:127-155 | a run that stops between write and publish, after which the task is offered no more |
| Distributor.RoutedIsAPartition | relayer_base/src/distributor.rs:132-155 | every occurrence of a task goes to exactly one of the two queues or to none |
| Distributor.RoutedKeepsOrder | relayer_base/src/distributor.rs:120-156 | each queue keeps the order of the log |
| Distributor.PublishedExactlyOnce | relayer_base/src/distributor.rs:120-156 | with distinct ids each task of the segment is in its own queue once and in the other not at all |

## Left out

- Reading the bodies of log and payment messages: the TL-B layouts of the ten message types are data here, so a decoder's field order is not checked.
- The events' metadata, type names, time stamps and fixed status texts, and the other fields of an approved or called message, which travel as one log value.
- The match of the insufficient-gas parser: it is an optional leading parser whose match and parse results are inputs.
- The kinds of error `parse_trace` returns: any failure is one missing result.
- 128-bit overflow of the gas balances: they are unbounded integers; the final cast to 64 bits wraps as in the source.
- QueryId.NextIsSuccessor: the source's 32-bit addition cannot overflow for a valid id and is not modelled beyond that.
- ReplayComposition.ReissueIsSafeIffNotSooner: one wallet whose issue and send are one step on one clock; the delay between issuing an id and the contract seeing it is not modelled.
- WalletProtocol.NoSharedWalletNoRepeatedId: a holder is assumed to finish within 60 seconds of its lock; SafeBoundIsTheLease shows that the assumption cannot be relaxed.
- BroadcastRuns.BroadcastIsRun: the calls come in the order of their clocks, and a failed database write has no effect there; a write whose reply is lost is a step of WalletProtocol.
- ExecuteMessage.ToCell: the Keccak digest is a parameter of 32 bytes, and the message's texts are byte sequences.
- The outer, signed part of the wallet message, and the wallet's own cells around the body: library code not shown.
- QueueRuns.AcceptedItemsSurvive: process crashes, the forced cancel after five seconds and liveness of a full buffer are not modelled; the end of the buffer loop and the closing of its channel are one step.
- QueueHandlers.Queue.OnDelivery: handlers run without interruption there; their interleaving is in QueueProtocol.
- TraceRuns.RetryPollIsRun: one retry poller, and an answer that names each requested trace at most once; a repeated trace in one answer could spend a budget twice.
- QueuedTxMonitor.QueriedAtMostTwentyTimes: one monitor; a query and the recording of its outcome are one step, since nothing else reads or writes what lies between.
- Distributor.Distributor.Run: it describes round ends; a stop inside a round, and what a restart then skips, is in CursorSteps.
- The contiguity of the task log after a cursor: it is the API's promise and is assumed, as are distinct task ids.
- The refund path of the XRPL includer, HTTP, RPC and GMP clients, signing, price feeds, logging, tracing, heartbeats, configuration and the binaries: one-branch code or libraries not shown.
