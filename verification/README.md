# Verification of the CKB order exchange

This project models an order exchange on Nervos CKB and proves properties of the model with Dafny. The
exchange keeps buy and sell orders as on-chain cells under one order lock script. A backend indexes them into a
projection, a bot matches and settles them, a user interface creates and cancels them, and a faucet hands out
test tokens. `dafny verify dfyconfig.toml` checks everything.

## How the files fit together

- `OrderArgs`, `ScriptCodec`: the two binary formats, their encoders and decoders.
- `Cells`, `OrderLock`, `Ledger`: the order lock as a script with loops and checked u64/u128 arithmetic, its
  equivalence with one whole-transaction specification over unbounded integers, and what that gives every maker
  over any run of the ledger.
- `Settlement`, `Spends`: the off-chain builders and the event checks, tied to what the lock accepts: what is
  built is accepted, and what is recorded as a trade or a cancellation happened on the chain.
- `Projection`, `Rollback`, `Effects`, `Replay`, `Recovery`, `Ingestion`: the event handlers over mutable
  collections, the whole-run agreement of orders and trades, the effect of each event field by field, rollback as
  replay of the applied events and, under an exact condition, of all deliveries, and exactly-once ingestion under
  concurrent deliveries.
- `Ticks`: the bot's poll loop against a reorganizing chain: fork-point search, rewind, scan cursor.
- `StableSort`, `Matching`, `Matcher`, `MatchHealth`: the sort, the greedy matcher and its backoff.
- `Claims`: the faucet's reserve, send, commit and release protocol as interleaved atomic database steps.
- `Keyset`, `Market`: cursor paging of the public listings while the collections change.
- `RateLimiter`: the fixed-window limiter.
- `Bytes`, `Sums`, `Lists`: shared bytes, sums and filters.

Code that updates state in place is a class or a method with loops, proved against a function; the properties are
then lemmas about that function. Script hashing is a parameter of every statement, and no statement assumes that
it has no collisions; two inputs are in one script group when their whole locks are equal.

Runs of the projection assume four things about deliveries: D1, `order-confirmed` comes only for orders that are
absent or ORPHANED (the guard at backend/src/bot/index.ts:631-633); D2, fills and cancellations come only for
orders that are not ORPHANED; D3, a spend's block is not below the order's recorded creation block; D4, a
settlement hash determines its pair of orders (`Spends.SpendVerifiesOnce` shows why the lock makes it so).

## Where the code differs from what one might expect

Each comes with a lemma that gives the exact condition and, where the code as configured can meet it, one that
gives a failing input.

- The UI's cancellation of a buy order is refused by the lock when the order cell carries data, because the UI
  refunds empty data: `Settlement.RefundIsRefund`, `Settlement.CancelIsAccepted`,
  `Settlement.DataBuyCannotBeCancelled`.
- The fill helper accepts a sell cell whose amount takes fewer than sixteen bytes; the lock does not:
  `Settlement.FillIsAccepted`, `Settlement.ShortDataFillRefused`. The token's own type script, which may keep such
  a cell from being made, is not part of this model.
- The script decoder ignores the table's field offsets, so an owner search by prefix misses orders whose offsets
  are unusual: `ScriptCodec.DecodeThenEncode`, `ScriptCodec.OwnerPrefixAmongAccepted`,
  `ScriptCodec.PrefixMissesOtherOffsets`.
- A reorg that spares the newest checkpoint goes unnoticed, so an order above that checkpoint, left by a scan that
  stopped early, stays open off the chain: `Ticks.OrdersAreCanonical`, `Ticks.ReorgAboveCheckpointIsMissed`,
  `Ticks.InterruptedScanLeavesStaleOrder`.
- Replaying all deliveries can bring a refused cancellation or trade back, unless the run itself has made it good,
  as it does when the refused event is delivered again: `Recovery.RollbackEqualsReplayOfDeliveries`,
  `Recovery.RedeliveryHeals`, `Recovery.RefusedSpendComesBack`, `Recovery.RefusedEventComesBack`.
- Checkpoints are trimmed to five hundred blocks below each one saved, so after a rollback fewer than five hundred
  blocks below the newest may be covered: `Ticks.CheckpointsAreHeld`, `Ticks.TrimmedStaysTrimmed`.
- Releasing a faucet reservation that took over an abandoned one leaves the recipient reserved without a time, so
  it can never claim again: `Claims.ReleaseFreesUnlessTakenOver`, `Claims.TakeoverThenUndoLocksOut`.
- The first claim of a day is inserted whatever the guard says. It stays within the limits exactly when one claim
  fits them (`Claims.FirstClaimOfDay`), which the startup checks see to: the configuration refuses a claim limit
  that is not positive, and it and the store refuse a token budget below one drip (`Claims.ClaimStore.Open`).
- The limiter is tighter than twice its limit: 2 * max - 1 per interval (`RateLimiter.UnderTwiceMaxInAnyInterval`),
  and that is reached (`RateLimiter.BoundIsReached`).

## Model

| member | source | states |
|---|---|---|
| `OrderArgs.BuildThenDecode` | ui/src/services/ckb/dex.js:31-43 | The UI refuses exactly the terms that do not fit u128/u64; for all others its 90 bytes decode, in the contract, the backend and the fill helper alike, to the terms that went in |
| `OrderArgs.DecodeThenBuild` | smart-contract/contracts/dex-order-lock/src/main.rs:63-90 | Any bytes the contract accepts are the encoding of the terms it reads from them: together with BuildThenDecode, a bijection between accepted byte strings and encodable terms |
| `OrderArgs.DecodersAgree` | backend/src/utils/dex-order-args.ts:30-65 | The Rust, backend and fill-helper decoders accept the same byte strings and read the same side, makers, asset and little-endian values; the two TypeScript decoders also fail alike |
| `OrderArgs.BuildIsInjective` | ui/src/services/ckb/dex.js:31-43 | Two different sets of terms never get the same lock args |
| `OrderArgs.WireFormat` | ui/src/services/ckb/dex.js:31-43 | The ninety bytes themselves: version 1, side 0 or 1, both hashes, and every digit of amount and price to the base 256, least significant first |
| `OrderArgs.DecoderRefusals` | smart-contract/contracts/dex-order-lock/src/main.rs:63-77 | Each decoder refuses for the length, the version or the side, in this order, with its own code |
| `OrderLock.LoadTokenAmount` | smart-contract/contracts/dex-order-lock/src/main.rs:92-100 | Reads the first sixteen bytes as a u128, or fails on shorter data |
| `OrderLock.ValidateSellOrder` | smart-contract/contracts/dex-order-lock/src/main.rs:102-146 | The checked u64 loop over outputs returns, exit code for exit code, what the same conditions over unbounded sums give |
| `OrderLock.ValidateBuyOrder` | smart-contract/contracts/dex-order-lock/src/main.rs:148-204 | The loop with its u128 and u64 accumulators returns, exit code for exit code and in scan order, what the conditions over unbounded sums give |
| `OrderLock.ValidateCancellation` | smart-contract/contracts/dex-order-lock/src/main.rs:206-233 | Accepts exactly when one single output has the maker's lock, the same type and data and at least the capacity of the group's first input |
| `OrderLock.CountDexInputs` | smart-contract/contracts/dex-order-lock/src/main.rs:253-257 | Counts the inputs whose lock has this script's code hash and hash type |
| `OrderLock.FindPair` | smart-contract/contracts/dex-order-lock/src/main.rs:279-315 | The pairing loop returns the one buy and the one sell with equal terms, or the error of the first input that prevents it |
| `OrderLock.ProgramEntry` | smart-contract/contracts/dex-order-lock/src/main.rs:235-323 | The whole script returns the specified exit code for any transaction its group can see |
| `OrderLock.BuyScanMeaning` | smart-contract/contracts/dex-order-lock/src/main.rs:158-183 | The overflow-checked scan succeeds exactly when every counted output holds sixteen bytes and both true sums fit their widths |
| `OrderLock.ValidatorsMeanPaid` | smart-contract/contracts/dex-order-lock/src/main.rs:102-204 | Each validator accepts exactly when its maker is paid in the sense of the unbounded specification: no overflow check refuses more or less than that |
| `OrderLock.SellCodes` | smart-contract/contracts/dex-order-lock/src/main.rs:102-146 | What each exit code of the sell check says about the transaction, in both directions |
| `OrderLock.BuyScanStop` | smart-contract/contracts/dex-order-lock/src/main.rs:158-183 | A failing scan names the first output that stops it, and what is wrong with it |
| `OrderLock.BuyCodes` | smart-contract/contracts/dex-order-lock/src/main.rs:148-204 | What each exit code of the buy check says about the transaction, in both directions |
| `OrderLock.EntryCodes` | smart-contract/contracts/dex-order-lock/src/main.rs:235-323 | Which exit code the entry point gives, case by case: its own args, the number of DEX inputs, the refund, or the pair |
| `OrderLock.CancellationVerdict` | smart-contract/contracts/dex-order-lock/src/main.rs:264-272 | For a transaction with one DEX input, its group accepts exactly a cancellation: maker input present and one unsplit refund |
| `OrderLock.SettlementVerdict` | smart-contract/contracts/dex-order-lock/src/main.rs:274-323 | For a transaction with two DEX inputs, both runs accept exactly a settlement of the one against the other, whichever comes first |
| `OrderLock.VerdictsAddUp` | smart-contract/contracts/dex-order-lock/src/main.rs:235-323 | For every transaction the separate verdicts of all script groups together are equivalent to one whole-transaction specification: no DEX input, one cancellation, or one settlement with both payouts and no maker input |
| `Ledger.AcceptedHonours` | smart-contract/contracts/dex-order-lock/src/main.rs:102-323 | Every order an accepted transaction consumes is honoured (sell: capacity + price in plain CKB; buy: the exact tokens and all but price and 10,000 shannons; cancellation: one full refund), and the outputs counted for two orders are disjoint |
| `Ledger.SpentOnceAcross` | smart-contract/contracts/dex-order-lock/src/main.rs:235-323 | Over every run of the ledger no cell is consumed twice |
| `Ledger.RunHonoursOrders` | smart-contract/contracts/dex-order-lock/src/main.rs:102-323 | Over every run: each consumed order is honoured, and outputs counted for different orders, in the same or different transactions, are different cells |
| `Ledger.TxPaysMaker` | smart-contract/contracts/dex-order-lock/src/main.rs:102-323 | One accepted transaction pays a maker at least what all its consumed orders are due, in plain and in token cells separately, also when the maker is on both sides |
| `Ledger.RunPaysMakers` | smart-contract/contracts/dex-order-lock/src/main.rs:102-323 | Over every run, each maker has received at least the sum of what all its consumed orders were due |
| `Ledger.RunPaysTokens` | smart-contract/contracts/dex-order-lock/src/main.rs:102-323 | Over every run, each maker has received, of every token, at least the sum of what its filled buys asked for and its cancelled orders held |
| `Settlement.VerifiedIffBacked` | backend/src/services/event-verification.ts:40-109 | An order-confirmed event is accepted exactly when its transaction is committed, canonical and deep enough and its row describes the on-chain cell in the contract's own terms, for a supported asset and a maker that funded it |
| `Settlement.ConfirmationVerdicts` | backend/src/services/event-verification.ts:36-50 | A transaction is waited for exactly when nothing but confirmations is missing, and refused exactly when the node does not have it in the block the event names |
| `Settlement.PutOffIffShallow` | backend/src/services/event-verification.ts:36-109 | So is an order event as a whole, whatever else is wrong with it |
| `Settlement.TradeVerdicts` | backend/src/bot/index.ts:278-337 | Exactly when the bot can trade two rows, exactly why it refuses otherwise, and what both outputs hold |
| `Settlement.AllocateSettlementCapacity` | shared/settlement-capacity.mjs:5-19 | Splits the buy capacity with nothing lost, exactly when the fee is capped and the token cell gets its minimum |
| `Settlement.TwoOutputSettlement` | smart-contract/contracts/dex-order-lock/src/main.rs:235-323 | The two-output settlement shape is accepted by both groups exactly when no input carries a maker's lock and the sell data can hold an amount |
| `Settlement.TradeIsAccepted` | backend/src/bot/index.ts:278-337 | The transaction the bot builds from two backed rows conserves capacity to the fee, keeps the token cell's minimum, and is accepted by both groups exactly when no input carries a maker's lock; it fits u64 exactly when sell capacity + price does |
| `Settlement.FillIsAccepted` | offchain/src/fill-order.ts:109-174 | The fill helper's transaction conserves capacity and is accepted exactly when, besides, the sell cell holds at least sixteen bytes, which the helper does not check |
| `Settlement.FillsIff` | offchain/src/fill-order.ts:91-174 | Exactly when the fill helper settles two orders whose args the contract reads, and what both outputs hold |
| `Settlement.FillRefusalsAreTrue` | offchain/src/fill-order.ts:91-174 | Every refusal of the helper names something that is so |
| `Settlement.CreatedOrderIsBacked` | ui/src/services/ckb/dex.js:115-156 | Every order cell the UI creates carries the entered terms and passes as a backed row |
| `Settlement.CreatedOrderIsFunded` | ui/src/services/ckb/dex.js:50-60 | The UI makes a cell exactly for terms that fit the format, and funds a sell with what it occupies, a buy with price, token cell and 20,000 shannons |
| `Settlement.CreatedBuyCanBeFilled` | ui/src/services/ckb/dex.js:58-60 | A buy funded by the UI's rule can be settled against a matching sell, at any fee up to the cap, exactly when the sell's token cell needs no more than the reserve leaves, always for the usual sixteen-byte data; and if the payment fits u64 the lock accepts the result unless an input carries a maker's lock |
| `Settlement.RefundIsRefund` | ui/src/services/ckb/dex.js:198-212 | The UI's refund output satisfies the lock exactly when the order is a sell or its cell has no data |
| `Settlement.RefundIsWhole` | ui/src/services/ckb/dex.js:198-212 | The refund returns the whole capacity to the owner, and only a sell row without its type script has none |
| `Settlement.CancelIsAccepted` | ui/src/services/ckb/dex.js:198-228 | With a maker input, the UI's cancellation is accepted exactly when no other input uses the DEX lock and some output is a proper refund |
| `Settlement.DataBuyCannotBeCancelled` | ui/src/services/ckb/dex.js:198-228 | For every supported asset, depth, maker, capacity and non-empty data a verified buy order with that data that the UI cannot cancel, with any other inputs and any change without data |
| `Settlement.ShortDataFillRefused` | offchain/src/fill-order.ts:130-174 | For any parties, token, price and capacities that pay for the settlement, a sell cell with its amount in one byte for which the helper builds a settlement that the lock refuses |
| `Settlement.CancelNeedsMaker` | smart-contract/contracts/dex-order-lock/src/main.rs:264-276 | Without a maker input an order that is the only DEX input cannot be cancelled |
| `OrderLock.DexPositions` | smart-contract/contracts/dex-order-lock/src/main.rs:261-323 | In an accepted transaction, an order at any input is cancelled as the only order, or settled against exactly one other |
| `Spends.SpendIsCancelOrFill` | smart-contract/contracts/dex-order-lock/src/main.rs:261-323 | An accepted spend of a recorded order is a cancellation exactly when the maker's lock is among the inputs, and a fill against one other order exactly when it is not |
| `Spends.CancelVerdicts` | backend/src/services/event-verification.ts:111-117 | The answer to every cancellation: unknown orders pass, shallow transactions are put off, and otherwise the transaction must spend the order with its maker among the inputs |
| `Spends.TradeVerdicts` | backend/src/services/event-verification.ts:127-149 | The answer to every trade: an unknown order, or one named twice, passes; the rest must be a buy and a sell that the transaction spends and whose makers and terms the event repeats |
| `Spends.CancelVerifiedIffRefunded` | backend/src/services/event-verification.ts:111-117 | A cancellation event verifies exactly when its transaction is final and refunds the maker on the chain |
| `Spends.TradeVerifiedIffSettled` | backend/src/services/event-verification.ts:127-149 | A trade event verifies exactly when its transaction is final, settles these two orders against each other under the lock, and the event repeats the enforced makers and terms |
| `Spends.RecordedTradeIsPaid` | backend/src/services/event-verification.ts:127-149 | Whenever the trade check passes, the seller has price plus deposit in plain CKB and the buyer the exact tokens and all but the price and a bounded fee |
| `Spends.FillsOnePair` | smart-contract/contracts/dex-order-lock/src/main.rs:274-315 | A filling transaction spends no recorded order besides its pair and cancels nothing |
| `Spends.SpendVerifiesOnce` | backend/src/services/event-verification.ts:111-149 | One transaction verifies as a trade of at most one pair, and then never also as a cancellation of a recorded order |
| `Projection.Collections.ApplyOrderConfirmed` | backend/src/services/event-ingestion.ts:221-283 | The handler's reads and writes add up to the specified change of the collections and the specified answer |
| `Projection.Collections.ApplyOrderCancelled` | backend/src/services/event-ingestion.ts:285-310 | Cancels in the spending block, ignores an unknown order, throws where the transition is not allowed, so also for an order already filled or cancelled; nothing else changes |
| `Projection.Collections.ApplySettlementSubmitted` | backend/src/services/event-ingestion.ts:312-349 | The loop over both orders marks the live ones pending, all or none |
| `Projection.Collections.ApplyTradeConfirmed` | backend/src/services/event-ingestion.ts:351-437 | Fills both orders at the settlement's block and upserts the trade under its hash, all or none |
| `Projection.Collections.ApplyChainReorg` | backend/src/services/event-ingestion.ts:439-503 | The three query-and-write passes are together one rollback of every order and trade above the ancestor |
| `Projection.RollbackInPasses` | backend/src/services/event-ingestion.ts:441-478 | Two passes over separately queried sets equal one pointwise rollback, also for an order both created and spent above the ancestor |
| `Projection.RevertInOnePass` | backend/src/services/event-ingestion.ts:480-488 | Reverting the queried trades equals reverting every trade pointwise |
| `Projection.Collections.Apply` | backend/src/services/event-ingestion.ts:206-219 | Dispatches each event kind to its handler; answer and new state are the specification's |
| `Effects.Lifecycle` | backend/src/services/event-ingestion.ts:33-44 | From which statuses each status can be reached |
| `Effects.ConfirmedEffect` | backend/src/services/event-ingestion.ts:221-283 | A confirmation is ignored exactly for an order that is there from the same block, and otherwise stores the event's row, LIVE and untouched |
| `Effects.CancelledEffect` | backend/src/services/event-ingestion.ts:285-310 | When a cancellation is ignored, refused or applied, by status, and every field it writes or leaves |
| `Effects.SubmittedEffect` | backend/src/services/event-ingestion.ts:312-349 | Two orders become PENDING together exactly when both are known, distinct and not pending, closed, invalid or orphaned; every field |
| `Effects.TradeEffect` | backend/src/services/event-ingestion.ts:351-437 | Two orders become FILLED together exactly when both are known, distinct and neither closed nor invalid; every field, and the trade, whose legs stay those it was inserted with |
| `Effects.ReorgEffect` | backend/src/services/event-ingestion.ts:439-503 | A rollback is always applied, and what it makes of every order and trade, field by field |
| `Effects.ReservedEffect` | backend/src/bot/index.ts:624-630 | A reservation marks a LIVE order and changes nothing else |
| `Effects.RollbackUndoesCancel` | backend/src/services/event-ingestion.ts:439-503 | Rolling back a cancellation gives the order back as it was, but for when and by which event it was last confirmed |
| `Effects.RollbackUndoesTrade` | backend/src/services/event-ingestion.ts:439-503 | The same for both orders of a trade, which is then reverted |
| `Effects.UntouchedIsLive` | backend/src/services/event-ingestion.ts:206-503 | Over every run, an order that no later step reserved, submitted, closed or rolled back is LIVE, with the row it was confirmed with |
| `Rollback.StepKeepsAgreement` | backend/src/services/event-ingestion.ts:206-503 | Every event or reservation step keeps the agreement of orders and trades |
| `Rollback.RunAgrees` | backend/src/services/event-ingestion.ts:206-503 | Orders and trades agree in every reachable state under D1 to D4 |
| `Rollback.ConfirmedIffFilled` | backend/src/services/event-ingestion.ts:351-437 | In every reachable state a trade is CONFIRMED exactly when both its orders are FILLED by its hash in its block |
| `Rollback.FilledHasOneTrade` | backend/src/services/event-ingestion.ts:351-437 | In every reachable state an order is FILLED exactly when some CONFIRMED trade has it, and no order is in two |
| `Rollback.ClosedUntilReorg` | backend/src/services/event-ingestion.ts:33-62 | A FILLED or CANCELED order keeps its whole document under every step except a reorg |
| `Rollback.ApplyMatchesBook` | backend/src/services/event-ingestion.ts:206-503 | Each applied event changes the view of the collections (absent, open, or closed at a block by a transaction; confirmed trades) as one step of a small book |
| `Rollback.BookMatchesApply` | backend/src/services/event-ingestion.ts:206-503 | Conversely, an event that takes effect in the book is deliverable to the collections and applied |
| `Rollback.RunMatchesBook` | backend/src/services/event-ingestion.ts:206-503 | The view after any run is the fold of the applied events over the book |
| `Rollback.RewindForgets` | backend/src/services/event-ingestion.ts:439-503 | Whatever an event above the ancestor did is gone after the rewind |
| `Rollback.RewindCommutes` | backend/src/services/event-ingestion.ts:439-503 | An event below the ancestor still takes effect after the rewind, and the same effect |
| `Rollback.RewindIsFilter` | backend/src/services/event-ingestion.ts:439-503 | Rewinding what a log built equals building from the log without its events above the ancestor |
| `Rollback.SurvivorsRebuild` | backend/src/services/event-ingestion.ts:439-503 | Any log, reorgs included, builds the same book as the events no later reorg rolled back |
| `Rollback.RollbackEqualsReplay` | backend/src/services/event-ingestion.ts:439-503 | After any run under D1 to D4 the collections show what a valid run of only the surviving applied events from scratch would show |
| `Replay.ReplayIsValid` | backend/src/services/event-ingestion.ts:206-503 | Replaying every surviving delivery of a run, refused ones included, respects D1 to D4 and creates the same orders in the same blocks |
| `Recovery.MirrorsIffHealed` | backend/src/services/event-ingestion.ts:206-503 | For every run, and every block it may still be cut back to: the replay shows what the run shows below the cut if and only if, for each refused spend that stands and was refused only for what a later reorg rolls back, the run ends with its orders closed by exactly that spend (spends that share an order with an earlier such spend aside) |
| `Recovery.AnswersAgreeIffRefusalsLast` | backend/src/services/event-ingestion.ts:285-503 | The replay applies exactly the spends the run applied if and only if each refused cancellation or trade that stands names an unknown order or one closed in a block that no later reorg rolls back |
| `Recovery.RollbackEqualsReplayOfDeliveries` | backend/src/services/event-ingestion.ts:439-503 | For every run: replaying all deliveries that no later reorg rolled back is a valid run; both conditions above are exact, the first for what the replay shows, the second for how it answers; the second implies the first |
| `Recovery.RedeliveryHeals` | backend/src/services/event-ingestion.ts:127-204 | Ordinary recovery: if each spend that was refused only for what a later reorg rolls back is delivered again and then applied, replaying all surviving deliveries shows what the run shows |
| `Recovery.RefusedSpendComesBack` | backend/src/services/event-ingestion.ts:439-503 | If one of them ends with an order open, or closed in another block, by another transaction or in another way, the replay shows something else |
| `Recovery.KnownSpendCloses` | backend/src/services/event-ingestion.ts:285-437 | A surviving cancellation or trade of known orders always leaves one of them closed in the replay |
| `Recovery.OpenSpendComesBack` | backend/src/services/event-ingestion.ts:439-503 | So whenever the run ends with none of its orders closed, the replay shows something else |
| `Recovery.RefusedEventComesBack` | backend/src/services/event-ingestion.ts:285-310 | A concrete run whose replay shows something else |
| `Recovery.RedeliveredAfterRollback` | backend/src/services/event-ingestion.ts:285-310 | The same run with the refused cancellation delivered once more: refused for a passing reason, and yet the replay shows what the run shows |
| `Ingestion.InsertMeansFresh` | backend/src/services/event-ingestion.ts:151-163 | Once a FAILED record is dropped, inserting under the unique index succeeds exactly when the event id was never committed |
| `Ingestion.StepKeeps` | backend/src/services/event-ingestion.ts:127-204 | Every step of any delivery keeps projection, audit records and committed events consistent |
| `Ingestion.ExactlyOnce` | backend/src/services/event-ingestion.ts:127-204 | Under every interleaving of concurrent, repeated and failing deliveries the projection is the fold of the committed events, every id is committed at most once, has at most one record, and is on record as processed exactly when committed |
| `Ingestion.IngestedStateAgrees` | backend/src/services/event-ingestion.ts:127-503 | Under every interleaving of deliveries whose commits respect D1 to D4, the stored orders and trades agree and show what replaying the surviving applied events would show |
| `Ingestion.RecordsTellOutcomes` | backend/src/services/event-ingestion.ts:127-204 | The record of every committed event is PROCESSED as applied or as ignored exactly as the collections answered it |
| `Ingestion.CommitAnswers` | backend/src/services/event-ingestion.ts:140-175 | What a delivery is answered from its transaction, and what it leaves behind, in each case |
| `Ingestion.OtherStepsOnlyAudit` | backend/src/services/event-ingestion.ts:127-204 | No other step touches the collections or what was committed; failures are audited and answered as errors, retryable ones without an audit |
| `Ingestion.ProcessedIsFinal` | backend/src/services/event-ingestion.ts:87-107 | No later step rewrites or removes a processed record |
| `Ingestion.FailedCanStillBeProcessed` | backend/src/services/event-ingestion.ts:128-132 | An event on record as FAILED is processed by a later delivery that verifies and does not throw |
| `Ingestion.AloneEnds` | backend/src/services/event-ingestion.ts:127-204 | Where a lone delivery ends, for every record state, verifier verdict and handler outcome |
| `Ingestion.RecordFailedEffect` | backend/src/services/event-ingestion.ts:87-107 | Auditing a failure keeps every processed record and every other id, keeps ids unique, and puts the failure on record unless its event was already processed |
| `Ingestion.IngestionService.AuditFailure` | backend/src/services/event-ingestion.ts:87-107 | The search, the rewrite in place and the insert that the unique index may refuse have that effect |
| `Ingestion.IngestionService.Ingest` | backend/src/services/event-ingestion.ts:127-179 | The service method, step by step, ends where the lone delivery of the state machine ends: same records, projection and answer |
| `StableSort.SortPermutes` | backend/src/bot/index.ts:120-139 | The sort keeps exactly the given elements |
| `StableSort.SortSorts` | backend/src/bot/index.ts:120-139 | For a total preorder its result is sorted |
| `StableSort.SortIsStable` | backend/src/bot/index.ts:120-139 | Elements that compare equal keep their sequence |
| `Matching.GreedyIsMatching` | backend/src/bot/index.ts:453-462 | The greedy pairs use each side at most once and avoid blocked pairs |
| `Matching.GreedyIsStable` | backend/src/bot/index.ts:453-462 | For every unblocked pair not chosen, the buy got an earlier sell or the sell an earlier buy |
| `Matching.GreedyUnblocked` | backend/src/bot/index.ts:453-462 | With nothing blocked the i-th buy meets the i-th sell until one side runs out |
| `Matcher.CompareIsTotalPreorder` | backend/src/bot/index.ts:120-139 | The comparator is a total preorder |
| `Matcher.BookIsPriceTime` | backend/src/bot/index.ts:119-139 | In the sorted book sells come before buys, better prices first, and among equal prices the older order first |
| `Matcher.GroupOrders` | backend/src/bot/index.ts:443-450 | The grouping loop fills one bucket per exact terms with the unquarantined orders, in book order |
| `Matcher.FindSell` | backend/src/bot/index.ts:456-458 | The search returns the first sell neither taken nor blocked for this buy |
| `Matcher.MatchGroup` | backend/src/bot/index.ts:453-462 | The loop over a group's buys with its set of taken sells computes the greedy pairing |
| `Matcher.FindMatches` | backend/src/bot/index.ts:442-464 | The method returns the specified proposals for the whole book, whatever quarantines it forgets on the way |
| `Matcher.ProposalsAreAllowed` | backend/src/bot/index.ts:442-464 | Every proposed pair is a buy and a sell of the book with equal asset, amount and price, unquarantined and unblocked |
| `Matcher.ProposalsAreTradable` | backend/src/bot/index.ts:278-300 | Equal asset, amount and price, so the bot's trade of the two rows is never refused for differing terms or wrong sides |
| `Matcher.ProposalsOfTerms` | backend/src/bot/index.ts:442-464 | The proposals of an asset, amount and price are exactly the greedy pairing of the unquarantined buys and sells of these terms |
| `Matcher.ProposalsInBookOrder` | backend/src/bot/index.ts:442-464 | Proposals come in the sequence in which the book first meets their terms, and for equal terms in the sequence of their buys |
| `Matcher.ProposalsAreApart` | backend/src/bot/index.ts:442-464 | No order is in two proposed pairs, also across groups |
| `Matcher.ProposalsAreStable` | backend/src/bot/index.ts:442-464 | For every allowed pair that is not proposed, the buy got a sell earlier in the book or the sell went to an earlier buy |
| `Matcher.AtLeastHalf` | backend/src/bot/index.ts:442-464 | The number of proposals is at least half the size of any allowed matching of the book |
| `Matcher.UnblockedGroup` | backend/src/bot/index.ts:442-464 | With no pair of some asset, amount and price blocked, min(buys, sells) pairs of these terms are proposed, the i-th oldest with the i-th oldest |
| `Matcher.GroupsAreOldestFirst` | backend/src/bot/index.ts:120-139 | Within one side of an asset, amount and price, earlier means older on the chain |
| `MatchHealth.OutpointIdsArePlain` | backend/src/bot/match-health.ts:18-20 | An outpoint id, a hash in hexadecimal, a colon and an index, never holds the separator |
| `MatchHealth.KeyNamesPair` | backend/src/bot/match-health.ts:18-20 | The joined key splits back into the two ids it was made of, for ids without the separator |
| `MatchHealth.MatchHealth.IsOrderQuarantined` | backend/src/bot/match-health.ts:26-34 | Answers whether the quarantine still runs; forgetting an expired one changes no answer now or later |
| `MatchHealth.MatchHealth.RecordPairFailure` | backend/src/bot/match-health.ts:37-43 | Counts the failure and blocks the pair for min(5000 * 2^(k-1), 600000) ms |
| `MatchHealth.MatchHealth.Prune` | backend/src/bot/match-health.ts:55-63 | The two pruning loops leave exactly what the specification keeps |
| `MatchHealth.PruneIsInvisible` | backend/src/bot/match-health.ts:55-63 | Pruning changes no answer about any pair now or later, none about a live order, and no failure count of a live pair |
| `MatchHealth.PruneDropsTheRest` | backend/src/bot/match-health.ts:55-63 | And it keeps nothing else: exactly the quarantines still running of live orders, and the backoffs still running or of live pairs |
| `MatchHealth.QuarantineLasts` | backend/src/bot/match-health.ts:22-34 | Over every run in between, an order quarantined for ms is out at a later time if and only if less than ms have passed |
| `MatchHealth.BackoffIsExact` | backend/src/bot/match-health.ts:37-52 | Over every run of calls that keeps both orders live, the k-th consecutive failure blocks the pair for exactly its delay, whatever happens in between |
| `MatchHealth.DelaySequence` | backend/src/bot/match-health.ts:37-43 | The delay starts at five seconds, doubles, and stays at ten minutes from the eighth failure on |
| `MatchHealth.AttemptsAreSpaced` | backend/src/bot/match-health.ts:45-48 | Attempts made only when the pair is not blocked are at least the delay apart from the last failure |
| `Ticks.NewestMeaning` | backend/src/bot/index.ts:213 | The window holds the greatest checkpoints, descending, at most fifty |
| `Ticks.ProbeFindsGreatest` | backend/src/bot/index.ts:216-225 | Walking down, the first canonical checkpoint met is the greatest canonical one, and the evidence lies above it |
| `Ticks.Bot.DetectReorg` | backend/src/bot/index.ts:212-246 | The search loop, the ingested rollback and the deleted checkpoints add up to the specified state |
| `Ticks.Bot.ScanForOrders` | backend/src/bot/index.ts:155-200 | The scan loop indexes unknown or orphaned orders once and saves the end block as checkpoint when it completes |
| `Ticks.ScanSavesCheckpoint` | backend/src/bot/index.ts:155-206 | A completed scan saves the block at the confirmation depth below the tip and keeps exactly the checkpoints at most 500 blocks below it; any other changes none |
| `Ticks.ScanIndexesFound` | backend/src/bot/index.ts:180-192 | Every order a scan finds under a new event id is in the collections afterwards, with the row it was found with if it was not there before |
| `Ticks.RepeatedIdIsIgnored` | backend/src/services/event-ingestion.ts:127-141 | A found order under an id that was already ingested changes nothing, also when it was orphaned since; a new one is recorded |
| `Ticks.AcceptedRollbackIsReal` | backend/src/services/event-verification.ts:151-157 | A rollback that names a block of the old chain is believed exactly when that block and all above it have left the chain and its ancestor is below |
| `Ticks.EvidenceIsRecorded` | backend/src/bot/index.ts:233-246 | Every rollback leaves its evidence on record, and none is forgotten |
| `Ticks.RepeatedEvidenceIsIgnored` | backend/src/bot/index.ts:233-246 | A rollback with evidence that was already used leaves the collections alone |
| `Ticks.EvidenceIsLowest` | backend/src/bot/index.ts:216-225 | The evidence is the lowest checkpoint above the ancestor that is no longer canonical |
| `Ticks.DeepReorgGivesUpTheWindow` | backend/src/bot/index.ts:228-246 | When none of the newest checkpoints is canonical any more, the rollback starts at the oldest of them and all of them are given up |
| `Ticks.CheckpointsAreHeld` | backend/src/bot/index.ts:199-246 | Over every run of ticks, every checkpoint that a completed scan saved, that was not rolled back and that is at most 500 blocks below the greatest ever saved is held, and nothing else |
| `Ticks.TrimmedStaysTrimmed` | backend/src/bot/index.ts:199-246 | Below the greatest ever saved, not below the newest held: a rollback makes an older checkpoint the newest, and what was trimmed stays gone |
| `Ticks.ShallowReorgSurvives` | backend/src/bot/index.ts:212-246 | A reorg leaves one of the fifty newest checkpoints canonical whenever one that was saved, not rolled back, at most 500 below the greatest and with fewer than fifty above it lies on both chains |
| `Ticks.BoundedTicksAreValid` | backend/src/bot/index.ts:155-246 | So all results about runs of ticks hold of every run whose reorgs are bounded in this way |
| `Ticks.RollbackIsAccepted` | backend/src/services/event-verification.ts:151-157 | Every rollback event the bot emits passes the backend's own check, also when no checkpoint survived |
| `Ticks.ForkPointIsGreatestCanonical` | backend/src/bot/index.ts:212-246 | If one of the fifty newest checkpoints survives, the rollback point, the rewound checkpoint and the block before the next scan are all the greatest canonical checkpoint, and no canonical checkpoint is lost |
| `Ticks.EvidenceIsReverted` | backend/src/bot/index.ts:233-243 | The evidence of a reorg is a hash that has just left the chain, so its event id was never used before |
| `Ticks.TicksAreAnchored` | backend/src/bot/index.ts:155-246 | In every run of ticks all checkpoints are canonical and every recorded rollback names a reverted hash, whatever the scans do |
| `Ticks.DetectIsCanonicalIffNoticed` | backend/src/bot/index.ts:212-246 | From canonical orders, the fork-point search leaves only canonical orders if and only if it found a fork or every order above the newest checkpoint is still on the chain |
| `Ticks.StepIsCanonicalIffNoticed` | backend/src/bot/index.ts:155-246 | The same for a whole tick, with any scan, finished or interrupted |
| `Ticks.OrdersAreCanonical` | backend/src/bot/index.ts:155-246 | Over every run of ticks: each tick ends with every order that is not ORPHANED created on the canonical chain, if and only if no tick meets a reorg that spares the newest checkpoint and reverts the block of an order above it |
| `Ticks.StepCoversIffClean` | backend/src/bot/index.ts:155-194 | A tick leaves no order above the newest checkpoint exactly when its scan saved its checkpoint or met no new order before it stopped |
| `Ticks.CleanTicksAreCanonical` | backend/src/bot/index.ts:155-246 | Hence with clean scans every tick ends with canonical orders, below the next scan's first block |
| `Ticks.ReorgAboveCheckpointIsMissed` | backend/src/bot/index.ts:212-231 | A reorg that leaves the newest checkpoint canonical changes no order already in the projection, whatever the next scan finds |
| `Ticks.InterruptedScanLeavesStaleOrder` | backend/src/bot/index.ts:183-194 | For every confirmation depth a two-tick run in which an interrupted scan and a reorg leave an open order that is on no chain: reorgs do go unnoticed |
| `Claims.ClaimStore.Open` | faucet/src/services/claims.ts:34-38 | Opens an empty store exactly when the daily token budget holds at least one drip |
| `Claims.ClaimStore.Reserve` | faucet/src/services/claims.ts:44-87 | Cooldown first, budget second; a refused caller changes nothing, except that a budget refusal restores the claim it had just reserved |
| `Claims.ClaimStore.Commit` | faucet/src/services/claims.ts:89-98 | Records the sent claim if the reservation still holds its document |
| `Claims.ClaimStore.Release` | faucet/src/services/claims.ts:101-107 | Restores the claim if still held, and always gives the day's budget back |
| `Claims.ReservableIff` | faucet/src/services/claims.ts:44-70 | Who can reserve: anyone new, with a claim behind them exactly after the cooldown, with a reservation in progress exactly once it is as old as the timeout |
| `Claims.ReservationIsWritten` | faucet/src/services/claims.ts:61-70 | What a reservation writes, and that it touches no other document and no earlier claim |
| `Claims.CommitStartsCooldown` | faucet/src/services/claims.ts:89-98 | After a commit the recipient can reserve again exactly when the cooldown is over |
| `Claims.BudgetRefusedIffFull` | faucet/src/services/claims.ts:115-134 | A day's budget is refused exactly when one more claim would exceed its claims or its tokens |
| `Claims.ChargedToItsDay` | faucet/src/services/claims.ts:31-31 | A claim is charged to the day of twenty-four hours in which it reserves |
| `Claims.RetryAfterIsTight` | faucet/src/services/claims.ts:148-156 | Waiting the announced seconds is enough, and one second less is not, beyond the minimum of one |
| `Claims.ReleaseUndoesReserve` | faucet/src/services/claims.ts:101-146 | Release after reserve restores status, last claim time, count and budget whenever the previous status was not RESERVED |
| `Claims.ReleaseFreesUnlessTakenOver` | faucet/src/services/claims.ts:136-146 | After a release the recipient can claim again if and only if the released reservation had not taken over an abandoned one |
| `Claims.TakeoverThenUndoLocksOut` | faucet/src/services/claims.ts:136-146 | A run from any fresh state (crash after reserving, takeover after the timeout, failed send, undo) after which no call can ever reserve for the recipient again, whatever else happens |
| `Claims.FirstClaimOfDay` | faucet/src/services/claims.ts:115-134 | The inserting upsert of a day's first claim ignores its own guard: it stays within the limits if and only if at least one claim fits them |
| `Claims.BudgetSafety` | faucet/src/services/faucet.ts:96-122 | Under every interleaving of reserve, send, commit, release and crash, a day's counters are budgets taken minus given back, tokens are drip times claims, both within limits and never negative, and so are the sends charged to the day |
| `Claims.CooldownHolds` | faucet/src/services/claims.ts:44-98 | Recorded commits for one recipient are at least the cooldown apart, also from the claim on record at the start, and claimCount counts exactly them |
| `Claims.FencedForever` | faucet/src/services/claims.ts:89-107 | A reservation that lost its document never holds it again; its commits and restores change no claim, ever |
| `Claims.TakeoverFences` | faucet/src/services/claims.ts:52-60 | Once an abandoned reservation is taken over, nothing its owner does later changes a claim |
| `Claims.TakeoversAreApart` | faucet/src/services/claims.ts:44-107 | From any state: a call that reserves for a recipient whose reservation was neither released nor committed since comes at least the timeout after the call that made it; alone, exactly from then on |
| `Claims.SendsAreApart` | faucet/src/services/faucet.ts:96-122 | No double payment: over every run, after a call that sent, the next call that reserves for the same recipient begins at least the shorter of timeout and cooldown later, crashes and lost commits included |
| `Claims.ReservingIsReserve` | faucet/src/services/claims.ts:44-87 | A call that nothing interleaves reserves, takes the budget or undoes the reservation as the store's operation does |
| `Claims.FailedSendReleases` | faucet/src/services/faucet.ts:98-105 | After a failed send a call releases as the store's operation does |
| `Claims.AttemptsCount` | faucet/src/services/faucet.ts:109-120 | Every attempt to record a sent claim counts, and after three there is none |
| `Keyset.PageMeaning` | backend/src/routes/market.ts:82-92 | A page holds the first rows past the cursor in key sequence, and every other row past the cursor is past the next one |
| `Keyset.FollowAscends` | backend/src/routes/market.ts:56-94 | Along any walk, over any sequence of collection states, keys strictly rise |
| `Keyset.FollowReturns` | backend/src/routes/market.ts:56-94 | A row present with its key at every request of a walk that ended was returned |
| `Keyset.FollowEnds` | backend/src/routes/market.ts:56-94 | A walk over finitely many keys ends before it has asked more often than they fill pages |
| `Keyset.FollowListsAll` | backend/src/routes/market.ts:56-94 | On a collection that does not change the pages together are the sorted listing |
| `Market.BookClausesMeanPast` | backend/src/routes/market.ts:66-75 | The four alternatives of the filter together select exactly the rows strictly after the cursor's row, for ascending and descending prices |
| `Market.NewestClausesMeanPast` | backend/src/routes/market.ts:129-135 | The two alternatives select exactly the rows strictly older, or as old with a greater id |
| `Market.IdsAscend` | backend/src/routes/market.ts:78-78 | Ties are broken by ids, character by character |
| `Market.BookIsBestFirst` | backend/src/routes/market.ts:56-94 | The first page of the book holds live orders of the asset and side asked for, bids from the highest price down, asks from the lowest up, equal prices in the sequence of the chain; whatever else is listed comes later |
| `Market.OrdersAreNewestFirst` | backend/src/routes/market.ts:118-153 | The first page of the orders holds what was asked for, newest first; whatever else is listed comes later |
| `Market.TradesAreNewestFirst` | backend/src/routes/market.ts:155-184 | The same for the trades that are not reverted |
| `Market.OrderBook` | backend/src/routes/market.ts:56-94 | The handler's filter, sort, limit + 1 and slice return exactly one page of the listing, with the cursor of its last row when there are more |
| `Market.Orders` | backend/src/routes/market.ts:118-153 | The same for a maker's or market's orders, newest first |
| `Market.Trades` | backend/src/routes/market.ts:155-184 | The same for trades that are not reverted, newest block first |
| `Market.BookWalk` | backend/src/routes/market.ts:56-94 | While orders come and go between requests: no sort key twice, strictly best-first, nothing unlisted, every order listed unchanged throughout exactly once, and an end after finitely many keys |
| `Market.OrdersWalk` | backend/src/routes/market.ts:118-153 | The same for the orders listing |
| `Market.TradesWalk` | backend/src/routes/market.ts:155-184 | The same for the trades listing |
| `Market.BookWalkIsBestFirst` | backend/src/routes/market.ts:56-94 | Over a walk, whatever happens in between: prices never rise on bids and never fall on asks and undirected books, equal prices come in the sequence of the chain, and only live orders that were asked for come |
| `Market.OrdersWalkIsNewestFirst` | backend/src/routes/market.ts:118-153 | Over a walk of the orders, newest first, and only what was asked for |
| `Market.TradesWalkIsNewestFirst` | backend/src/routes/market.ts:155-184 | Over a walk of the trades, newest first, and none that is reverted |
| `Market.ListingsComeWhole` | backend/src/routes/market.ts:56-184 | On collections that do not change all three walks return the full sorted listing, for every limit |
| `ScriptCodec.Write` | backend/src/utils/shared.ts:74-82 | Overwrites just the given stretch of the buffer |
| `ScriptCodec.WriteHeader` | backend/src/utils/shared.ts:75-78 | Writes the total size and the three field offsets in front |
| `ScriptCodec.EncodeScript` | backend/src/utils/shared.ts:67-84 | Filling the buffer piece by piece gives the script's layout, or the error of the first check that fails |
| `ScriptCodec.WireFormat` | backend/src/utils/shared.ts:67-84 | The bytes themselves: total size, offsets 16, 48 and 49, code hash, hash type as 0, 1, 2 or 4, length and args, least significant byte first |
| `ScriptCodec.EncodeThenDecode` | backend/src/utils/shared.ts:87-120 | Decoding an encoded script anywhere in a buffer gives the script back and the exact end offset, whatever follows |
| `ScriptCodec.DecodeThenEncode` | backend/src/utils/shared.ts:87-120 | Re-encoding what the decoder accepted gives the same bytes if and only if the three field offsets, which it does not look at, are the fixed ones |
| `ScriptCodec.DecodeRefusalsAreTrue` | backend/src/utils/shared.ts:87-120 | Every refusal of the decoder names something that is so |
| `ScriptCodec.PrefixFree` | backend/src/utils/shared.ts:67-84 | No encoded script is a prefix of another: what follows can always be told apart |
| `ScriptCodec.EncodeDexLockScriptArgs` | backend/src/utils/shared.ts:125-139 | Refuses prices outside 1 to 2^64 - 1 and unencodable locks, and otherwise returns lock, type byte and price |
| `ScriptCodec.ArgsWireFormat` | backend/src/utils/shared.ts:125-139 | Behind the script one byte for the order type, 0 or 1, and the price in eight bytes |
| `ScriptCodec.ArgsRefusalsAreTrue` | backend/src/utils/shared.ts:141-163 | Order args are refused for their script, their length or their order type, and the refusal says which |
| `ScriptCodec.EncodeThenDecodeArgs` | backend/src/utils/shared.ts:141-163 | Encoded order args decode to the order they were made of |
| `ScriptCodec.DecodeThenEncodeArgs` | backend/src/utils/shared.ts:141-163 | Accepted args re-encode to themselves if and only if their field offsets are the fixed ones |
| `ScriptCodec.OwnerPrefixFindsOwner` | backend/src/utils/shared.ts:173-174 | The search prefix of a lock is a prefix of an encoded order if and only if that order's owner lock is this lock |
| `ScriptCodec.OwnerPrefixAmongAccepted` | backend/src/utils/shared.ts:173-174 | Among all args the decoder accepts, the prefix finds the owner's orders that carry the fixed field offsets, and no others |
| `ScriptCodec.PrefixMissesOtherOffsets` | backend/src/utils/shared.ts:173-174 | For every owner and price, accepted args that name this owner and that the search for its orders misses |
| `RateLimiter.Limiter.Purge` | backend/src/middleware/index.ts:102-104 | The purging loop leaves exactly the windows that have not expired |
| `RateLimiter.Limiter.Request` | backend/src/middleware/index.ts:95-123 | One request has the specified verdict and leaves the specified windows |
| `RateLimiter.Verdicts` | backend/src/middleware/index.ts:95-123 | Who is shed, limited or passes, exactly: shed only when the windows still running fill the table, limited only when the limit is used up |
| `RateLimiter.WindowsAfter` | backend/src/middleware/index.ts:95-123 | What a request leaves of every client's window |
| `RateLimiter.RetryAfterIsTight` | backend/src/middleware/index.ts:119-121 | A refused client's window has expired after s seconds if and only if s reaches the announced number |
| `RateLimiter.TrackedClients` | backend/src/middleware/index.ts:100-112 | After any sequence of requests at most maxClients clients are tracked |
| `RateLimiter.WindowPassesAtMostMax` | backend/src/middleware/index.ts:114-122 | In every state of every run, what passed in a client's current window is its count cut off at the limit |
| `RateLimiter.RemainingIsExact` | backend/src/middleware/index.ts:115-117 | The remaining count sent to a client, with what already passed in its window, makes exactly the limit |
| `RateLimiter.UnderTwiceMaxInAnyInterval` | backend/src/middleware/index.ts:95-123 | No interval as long as a window, wherever it starts, sees more than 2 * max - 1 of a client's requests pass |
| `RateLimiter.BoundIsReached` | backend/src/middleware/index.ts:95-123 | For every positive limit and every window longer than a millisecond some run reaches that bound, so it cannot be lowered |

## Left out

- Load failures of the script's system calls (exit codes -1, -5, -8, -12, -13 and -20): every index the script asks for exists, so only the remaining codes are modelled.
- The database and the chain client: collections are maps or sequences, guarded updates and transactions are atomic steps, occupied capacity, fees and change outputs are parameters.
- Recovery.RollbackEqualsReplayOfDeliveries: for all deliveries the property fails (Recovery.RefusedEventComesBack); the lemma gives the exact conditions.
- Recovery.RedeliveryHeals: deliveries are calls of the handlers. Ingestion redelivers an event whose handler threw, as it does for a refused cancellation; a refused trade is ignored and recorded as processed, so its event does not come back under the same id (Ingestion.ExactlyOnce).
- Ticks.OrdersAreCanonical: says nothing about completeness after a reorg, because repeated event ids are taken for duplicates; spends are not part of the tick model, since they may be one block above the scan's safe tip.
- Ticks.ForkPointIsGreatestCanonical: needs a surviving checkpoint among the fifty newest, as bounded reorgs leave one (Ticks.ShallowReorgSurvives); deeper reorgs use a guess just below the window (Ticks.DeepReorgGivesUpTheWindow), and the run results do not cover them. The cursor fallback for an empty checkpoint store, which sorts block numbers as text, is not modelled.
- Market.OrderBook: rows carry their block and transaction position, which ingestion writes (backend/src/services/event-ingestion.ts:251-253) and a startup backfill adds to older rows (backend/src/services/backfill.ts:5-15); the cursor's fallback to 0 for a row whose decimal strings cannot be converted is not modelled, nor is the JSON form of the cursor.
- Market.Trades: rows carry their block, for the same reason.
- Matcher.CompareIsTotalPreorder: compares block numbers and positions as integers, where the code first compares their decimal strings for equality.
- MatchHealth.KeyNamesPair: ids do not contain the separator; order ids are a hash, a colon and an index.
- ScriptCodec.EncodeScript: works on bytes; the hexadecimal form, its validation and the check for an unknown hash type or order type name are left out.
- ScriptCodec.EncodeDexLockScriptArgs: likewise on bytes, without the check for an unknown order type.
- Writing statuses without a check (returning failed settlements to LIVE, bulk fallbacks), retrying failed swaps, reconciling spent orders and submitting transactions: they depend on polling and on error texts.
- Settlement.VerifiedIffBacked: says when an event is accepted; which of several reasons a refusal is worded with is carried along and fixed by no law. The same goes for the texts of thrown errors.
- MatchHealth.QuarantineLasts: the durations the bot passes (an hour unless told otherwise) and which failed trade leads to which quarantine or backoff are not modelled.
- Ingestion.ExactlyOnce: a commit is one atomic step; the service's database transaction provides that.
- Settlement events in mempool (the check of settlement-submitted) only ask whether the transaction spends the orders, and settlement-submitted closes no order: it is delivered unchecked here.
- The order in which the faucet's retries of commit fail is folded into one step that may be lost; sending is one step that succeeds or not.
- Realtime pushes, HTTP routing, authentication, configuration, deployment checks, React components and the plain lock script contract.
- Candle bucketing and wallet totals in the user interface: arithmetic for display that no other code reads.
- The cap on matches tried per tick, which only shortens the list of proposals, and the search for a single pair.
