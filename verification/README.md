# Settlement replay, proved

The `polymarket-data` crate decides whether an on-chain interval is fully explained by the facts that
it reports. It rebuilds the receipt of every Exchange match from its calldata, replays direct module
operations, legacy migrations and conditional-token operations against authenticated balances, and
keeps a few stateful pieces beside that: a matcher of two trade sockets, a paged history reader, a
comparison of overlapping pages, a window of fingerprints and a bounded cache. This project models
that logic in Dafny and proves what it promises, for every input and every run.

## How the model is laid out

- `Words`, `Arithmetic`, `Bytes`: 256-bit words as bounded naturals with checked operations, floor
  division, and big-endian words in byte strings. The bound of a word is the number of 32-byte
  strings, `Span(Zeros(32))`; it is never written as a numeral. The curve's prime is written in four limbs.
- `Ledger`: receipt logs as typed values and the meters that add up what a list of logs moves. It is
  the independent reference: every replay is proved to agree with the net of the logs.
- `MatchCall`, `MatchCodec`, `Settlement`, `SettlementLaws`, `CallSettlement`, `MatchTheorems`,
  `MatchWitness`, `Receipts`, `Inventory`, `Trades`: from `matchOrders` calldata to an explained interval.
- `ModuleCalls`, `ModuleOperations`, `ModuleLaws`, `ModuleReplay`: operations funded by direct transfers.
- `NativeScan`, `ModuleTheorems`, `NativeActivity`, `ModuleWitness`: trades and operations side by side, by a scan that
  leaves the operations to the module replay and hands it the trade facts.
- `Migration`, `MigrationLaws`, `MigrationCodec`, `MigrationInterval`, `MigrationTheorems`, `MigrationWitness`,
  `Payouts`: migration of legacy positions, and normalised results against the CTF's own payout rule.
- `CtfCondition`, `CtfCalls`, `CtfOperations`, `CtfClassification`, `CtfVerdicts`, `CtfLifecycle`: conditional tokens.
- `MatchAcceptance`, `InventoryAcceptance`, `TradeAcceptance`, `ModuleAcceptance`, `MigrationAcceptance`,
  `CtfAcceptance`: when each operation accepts, stated in prices, totals and receipts and not by its own steps, and
  what it then leaves. `MatchReading` and `CallReading` say the same of the decoders, in numbers and byte offsets.
- `CurvePoint`, `Residues`, `Carry`, `Firehose`, `TtlCache`, `HistoryPages`, `HistoryVerdicts`, `History`, `Overlap`:
  the smaller pieces. `Residues` proves the little theorem of Fermat for the square roots of `CurvePoint`.

Code that builds lists or updates records in loops is a method with the same loop. It is proved equal
to, or exactly accepted by, a statement over whole sums and sequences, and the promises are lemmas about
that statement. Where a step is a plain expression it is a function, and the promise is a lemma about
what it means rather than how it is computed.

## Assumptions

- A transaction's movement observations are the faithful decoding of its logs: both are the `Moved`
  logs of one list. Text, hex and topic comparison is equality of typed logs.
- Hashes, recovered senders and authenticated balances are given values. Functions that hash are
  parameters (`hash` of an order, `derive` of a condition id).
- Where a statement needs it, the two position ids of a pair are different and so are the accounts it
  names; each lemma says which. `Setup.Separate` and `Separate` collect those conditions.
- Offsets in calldata never overflow a machine word because they are bounded by the length of the data.
- The interval's blocks and the lists beside them (boundaries, points, condition proofs) are aligned, as
  their builders make them. Condition proof k + 1 is the one taken at the end of block k.
- Where both replays are joined, blocks ascend and a transaction's index is its place in the block, as the evidence
  is built (`polymarket-data/src/chain_log_audit.rs:4159-4185`).
- Deadlines, request timeouts and cancellation are not modelled, only runs that are not cut off.

## Found on the way

- The minimum take of a normal match (lines 999-1002) can only be refused by overflow of its product;
  crossing and floor rounding already give it (`SettlementLaws.MinimumTakeIsRedundant`).
- The Exchange's net never comes out non-zero when no order is its own (`MatchTheorems.ExchangeCheckNeverFails`).
- The scan's tests after the classification of a match cannot refuse (`NativeScan.LaterTestsNeverRefuse`), and no fact
  of a scan is refused registration (`ModuleTheorems.TradeFactsRegister`). What the module's own
  orders would earn is outside the module replay: its balances are the net of the logs less exactly that
  (`ModuleTheorems.BoundariesAreLogs`, `ModuleWitness.ModuleMakerDiffers`).
- The refusal for a fill without an `OrderFilled` event cannot be reached (`Trades.BindFills`), nor can the
  module replay's refusals for left-over trade facts and for a module that is not empty
  (`ModuleLaws.AllTradesMet`, `ModuleLaws.ModuleNeverLeftFull`), nor the migration replay's last check of
  the stored result (`MigrationTheorems.ClosingNeverRefuses`). A maker's second fee test, that a seller's fee
  is at most the taking, follows from the cap (`CallSettlement.CapCoversFee`). After a page has passed its
  ordering rules, the history reader's own cursor checks cannot fail, so `History` does not repeat them.
- The history reader's comparison of the two last headers cannot fail: two headers of one number have been
  found equal before. Only the expected hash can differ (`History.ReadHistory`).
- Valid condition transitions compose, but only because proofs have been interpreted
  (`CtfCondition.UninterpretedNeedNotCompose`).

## Model

| member | source | states |
|---|---|---|
| Settlement.BuildNormal | polymarket-data/src/chain_log_audit/fifth_binary_trades.rs:911-1055 | a normal match is built exactly under `NormalAccepts`, a condition over whole sums of fills, takings and fees, and the result is the outcome stated over those sums, every log in its place |
| Settlement.BuildMint | polymarket-data/src/chain_log_audit/fifth_binary_trades.rs:1058-1249 | a mint match is built exactly under `MintAccepts`: every pair crosses, the mint is the amount received, the collateral pays sellers and fees and the rest is the refund |
| Settlement.BuildMerge | polymarket-data/src/chain_log_audit/fifth_binary_trades.rs:1251-1426 | a merge match is built exactly under `MergeAccepts`: every pair crosses, what is left to give is used up, and the proceeds cover the fee |
| SettlementLaws.CrossingPrice | polymarket-data/src/chain_log_audit/fifth_binary_trades.rs:1469-1474 | a leg that crosses, with its taking rounded down, honours the taker's price on its own |
| SettlementLaws.MintingPrice | polymarket-data/src/chain_log_audit/fifth_binary_trades.rs:1428-1467 | so does a leg of the same side in a mint, where the pair must add up to at least one unit of collateral |
| SettlementLaws.MergingPrice | polymarket-data/src/chain_log_audit/fifth_binary_trades.rs:1428-1467 | so does a leg of the same side in a merge, where the pair must add up to at most one unit of collateral |
| SettlementLaws.LimitPriceHonoured | polymarket-data/src/chain_log_audit/fifth_binary_trades.rs:739-743 | for any maker list and every branch, taking × maker amount is at least making × taker amount, although only the normal branch compares totals |
| SettlementLaws.MinimumTakeIsRedundant | polymarket-data/src/chain_log_audit/fifth_binary_trades.rs:999-1002 | the minimum take of a normal match never rejects once its product fits |
| SettlementLaws.MatchBalances | polymarket-data/src/chain_log_audit/fifth_binary_trades.rs:911-1426 | for every account and every asset, the net of a built match's logs is the account's fills, plus the fees when it is the receiver, plus the supply when it is the zero address, and nothing else |
| CallSettlement.AccountFlows | polymarket-data/src/chain_log_audit/fifth_binary_trades.rs:841-869 | the inflows and outflows of an account are its ledger totals; they are missing exactly when one overflows |
| CallSettlement.ExchangeNetIsZero | polymarket-data/src/chain_log_audit/fifth_binary_trades.rs:1497-1530 | true exactly when the Exchange nets to zero in both positions and in cash; missing exactly on overflow |
| CallSettlement.PrepareLegs | polymarket-data/src/chain_log_audit/fifth_binary_trades.rs:720-744 | legs are prepared exactly when every maker order is usable, and each taking is the floor of the order's own ratio |
| CallSettlement.FillsAndFees | polymarket-data/src/chain_log_audit/fifth_binary_trades.rs:797-836 | the owner's fills are taker first, then makers in order, their fees add up without overflow, and the result is missing exactly when a fee exceeds its cap |
| CallSettlement.CapCoversFee | polymarket-data/src/chain_log_audit/fifth_binary_trades.rs:814-824 | a fee within the cap is at most a tenth of its cash basis, so a seller's fee never exceeds the taking |
| CallSettlement.BuildSettlement | polymarket-data/src/chain_log_audit/fifth_binary_trades.rs:687-882 | a call settles exactly under `Settles`, and the settlement says the outcome's branch, logs, flows, fees, refund and fills |
| MatchTheorems.SettlementHonoursLimit | polymarket-data/src/chain_log_audit/fifth_binary_trades.rs:687-882 | every call that settles honours the taker's limit price |
| MatchTheorems.OwnerFlowsAreFills | polymarket-data/src/chain_log_audit/fifth_binary_trades.rs:792-881 | net flows of any owner but the fee receiver are the net of its fills, in cash and in each position, even when it is taker and several makers at once; the owner fee is the sum of the fill fees |
| MatchTheorems.BystandersNetToZero | polymarket-data/src/chain_log_audit/fifth_binary_trades.rs:911-1426 | the Exchange, the module, and any account without an order that is not the fee receiver or the zero address, nets to zero in every asset |
| MatchTheorems.ExchangeCheckNeverFails | polymarket-data/src/chain_log_audit/fifth_binary_trades.rs:781-783 | with no order of the Exchange the check can be missing by overflow but never answers no |
| MatchTheorems.SupplyIsBacked | polymarket-data/src/chain_log_audit/fifth_binary_trades.rs:1093-1379 | supplies of both positions change alike and opposite to the supply of pUSD |
| MatchTheorems.FeeEventsAreFees | polymarket-data/src/chain_log_audit/fifth_binary_trades.rs:784-824 | the Fee events of a match add up to all its fees |
| MatchTheorems.FeesArePaidAndCapped | polymarket-data/src/chain_log_audit/fifth_binary_trades.rs:1476-1478 | the fee receiver is paid what the Fee events say, at most a tenth of the summed cash bases |
| MatchTheorems.SettlementIsBalanced | polymarket-data/src/chain_log_audit/fifth_binary_trades.rs:687-882 | in every call that settles, both positions and pUSD are minted and burned one against the other, the fee receiver gets exactly the Fee events and at most a tenth of the summed cash bases, and every other account without an order nets to zero in every asset |
| MatchWitness.EveryBranchSettles | polymarket-data/src/chain_log_audit/fifth_binary_trades.rs:687-882 | the conditions of a settlement can be met in all three branches: three concrete calls settle, each with a fill of its owner |
| MatchAcceptance.PairIsFair | polymarket-data/src/chain_log_audit/fifth_binary_trades.rs:1428-1474 | a maker can be paired with a taker exactly when their unit prices agree: across sides on one id at a price that covers the other, on one side on the two ids with prices that add up to at least one unit for a mint and at most one for a merge |
| MatchAcceptance.CapIsSmall | polymarket-data/src/chain_log_audit/fifth_binary_trades.rs:1476-1478 | a fee is within its cap exactly when it is at most a tenth of the cash basis |
| MatchAcceptance.FairIsAccepted | polymarket-data/src/chain_log_audit/fifth_binary_trades.rs:911-1426 | orders are usable and a branch accepts them exactly when the call is fair, a condition over prices, fills, fees and sums alone, whatever part of each order is filled; making and taking are then the amounts that the prices give |
| MatchAcceptance.SettlesExactly | polymarket-data/src/chain_log_audit/fifth_binary_trades.rs:687-882 | a call settles exactly when it is fair and the flows that are reported fit in words |
| MatchAcceptance.FairSettles | polymarket-data/src/chain_log_audit/fifth_binary_trades.rs:687-882 | with room for all amounts together and an Exchange that is no party, every fair call settles for any owner |
| MatchAcceptance.StraightPairSettles | polymarket-data/src/chain_log_audit/fifth_binary_trades.rs:911-1055 | a buyer and a seller whose prices meet settle at any fill of the maker that asks no more than the fill of the taker, partial or whole, and give and get what the seller's ratio says, rounded down |
| MatchAcceptance.MintPairSettles | polymarket-data/src/chain_log_audit/fifth_binary_trades.rs:1058-1249 | two buyers of the two positions settle by a mint at any fill of the maker that leaves the taker to pay no more than its fill |
| MatchAcceptance.MergePairSettles | polymarket-data/src/chain_log_audit/fifth_binary_trades.rs:1251-1426 | two sellers of the two positions settle by a merge at any common fill |
| MatchCodec.AddressIsTwentyBytes | polymarket-data/src/chain_log_audit/fifth_match_orders_call.rs:244-248 | a word is read as an address exactly when its first twelve bytes are zero, and the address is the number of the other twenty |
| MatchCodec.OrderRoundTrip | polymarket-data/src/chain_log_audit/fifth_match_orders_call.rs:175-238 | an order tuple is decoded at a place exactly when its one encoding stands there |
| MatchCodec.WordArrayRoundTrip | polymarket-data/src/chain_log_audit/fifth_match_orders_call.rs:152-173 | a word array is decoded at a place exactly when its one encoding stands there and its length is the expected one |
| MatchCodec.OrderArrayRoundTrip | polymarket-data/src/chain_log_audit/fifth_match_orders_call.rs:126-150 | an array of orders is decoded exactly when heads and tails stand in their one layout, for 1 to 128 makers |
| MatchCodec.CallRoundTrip | polymarket-data/src/chain_log_audit/fifth_match_orders_call.rs:73-124 | bytes decode to a call exactly when they are the call's encoding, so decoding inverts encoding and encoding inverts decoding |
| MatchCodec.DecoderIsInjective | polymarket-data/src/chain_log_audit/fifth_match_orders_call.rs:73-124 | two inputs that decode to the same call are the same input |
| MatchCodec.ReadOrderArray | polymarket-data/src/chain_log_audit/fifth_match_orders_call.rs:126-150 | the cursor loop over the orders computes the order array decoder |
| MatchCodec.ReadWordArray | polymarket-data/src/chain_log_audit/fifth_match_orders_call.rs:152-173 | the loop over the words computes the word array decoder |
| MatchCodec.WriteOrder | polymarket-data/src/chain_log_audit/fifth_match_orders_call.rs:342-370 | the appending encoder of an order writes its encoding |
| MatchCodec.WriteOrderArray | polymarket-data/src/chain_log_audit/fifth_match_orders_call.rs:381-395 | the appending encoder of the orders writes offsets and tails in their one layout |
| MatchReading.DecodedOrderReads | polymarket-data/src/chain_log_audit/fifth_match_orders_call.rs:175-238 | every field of a decoded order is the number at its own byte offset; side 0 is a buy and 1 a sell, the signature types are 0 to 3 in their order, and the padding is zero |
| MatchReading.DecodedArrayReads | polymarket-data/src/chain_log_audit/fifth_match_orders_call.rs:126-150 | an array of 1 to 128 orders starts with its count, and each order stands where its offset word says |
| MatchReading.DecodedWordsRead | polymarket-data/src/chain_log_audit/fifth_match_orders_call.rs:152-173 | a word array starts with the expected count, and each word is the number at its offset |
| MatchReading.DecodedCallReads | polymarket-data/src/chain_log_audit/fifth_match_orders_call.rs:73-124 | a decoded call starts with the four bytes of the selector, and its taker, makers, fills, fees and the three amounts of the taker are the numbers at their own offsets |
| MatchReading.EverySizeDecodes | polymarket-data/src/chain_log_audit/fifth_match_orders_call.rs:40-124 | every call of 1 to 128 makers with signatures of at most 2,048 bytes decodes from its encoding of at most 262,144 bytes |
| Inventory.ReplayLogs | polymarket-data/src/chain_log_audit/fifth_legacy_binary_inventory.rs:364-431 | the loop over the movements of a transaction is the replay of its logs, and keeps the balances it reached when it is refused |
| Inventory.ReplayNet | polymarket-data/src/chain_log_audit/fifth_legacy_binary_inventory.rs:485-533 | a replay that is not refused moves each balance by exactly the net of the logs |
| Inventory.ReplayInventory | polymarket-data/src/chain_log_audit/fifth_legacy_binary_inventory.rs:344-453 | matched exactly when every boundary agrees with the replay; a mismatch names the first boundary and asset that differ; unavailable exactly when the replay is refused, and then it names the first block that is refused and that block's reason |
| Inventory.MatchedExplainsBoundary | polymarket-data/src/chain_log_audit/fifth_legacy_binary_inventory.rs:344-453 | a matched boundary is the opening balance plus the net of all logs so far |
| InventoryAcceptance.BatchIsAccepted | polymarket-data/src/chain_log_audit/fifth_legacy_binary_inventory.rs:364-431 | a batch is applied exactly when the owner's balances can take what its rows carry together of each selected id; other ids are passed over |
| InventoryAcceptance.ReplayIsAccepted | polymarket-data/src/chain_log_audit/fifth_legacy_binary_inventory.rs:344-453 | a replay goes through exactly when every log of the tracked contracts can be read and every balance, opening plus net of the logs so far, stays a word |
| InventoryAcceptance.RefusalHasReason | polymarket-data/src/chain_log_audit/fifth_legacy_binary_inventory.rs:344-533 | a refused replay names the reason of the first log that cannot be followed: unsupported, unequal lists, below zero or above a word |
| InventoryAcceptance.InventoryIsAccepted | polymarket-data/src/chain_log_audit/fifth_legacy_binary_inventory.rs:344-453 | an inventory has a verdict exactly when all its receipts together can be replayed |
| InventoryAcceptance.BoundaryIsAccepted | polymarket-data/src/chain_log_audit/fifth_legacy_binary_inventory.rs:433-452 | a boundary matches exactly when the logs so far can be replayed and the authenticated balances are the running ones |
| InventoryAcceptance.MismatchIsReal | polymarket-data/src/chain_log_audit/fifth_legacy_binary_inventory.rs:433-452 | a mismatch names the first of the three balances that differs, with its authenticated and its replayed value |
| Trades.InactiveIsStill | polymarket-data/src/chain_log_audit/fifth_binary_trades.rs:639-670 | a receipt without movements that mention the owner moves none of its selected assets |
| Trades.BindFills | polymarket-data/src/chain_log_audit/fifth_binary_trades.rs:575-605 | every fill gets its own OrderFilled event, the first free one that fits; the refusal for a missing one cannot be reached |
| Trades.EventsCoverFills | polymarket-data/src/chain_log_audit/fifth_binary_trades.rs:1532-1555 | the events of a built match contain one for every fill of the owner, counted with repeats |
| Trades.ClassifyTransaction | polymarket-data/src/chain_log_audit/fifth_binary_trades.rs:481-626 | each transaction is quiet, a fact or refused exactly as `Classifies` says, in the program's order of refusals |
| Trades.ClassifiedMoves | polymarket-data/src/chain_log_audit/fifth_binary_trades.rs:481-626 | a quiet transaction moves nothing of the owner's and a fact's flows are the net of its logs |
| Trades.FactIsFills | polymarket-data/src/chain_log_audit/fifth_binary_trades.rs:481-626 | a fact's flows are worth exactly its fills, and its fee is the sum of their fees |
| Trades.ClassifyInterval | polymarket-data/src/chain_log_audit/fifth_binary_trades.rs:317-390 | an interval is matched exactly when its inventory is and no transaction is refused; otherwise the first refused transaction is named and no fact is reported |
| Trades.MatchedIntervalExplainsBoundaries | polymarket-data/src/chain_log_audit/fifth_binary_trades.rs:317-390 | at every block boundary of a matched interval, opening balance plus the flows of the facts so far is the authenticated balance, for both positions and for cash |
| Trades.MatchedIntervalExplainsFills | polymarket-data/src/chain_log_audit/fifth_binary_trades.rs:317-390 | every fact of a matched interval moves exactly what its fills say |
| TradeAcceptance.ActivityIsAPart | polymarket-data/src/chain_log_audit/fifth_binary_trades.rs:639-685 | an owner is active in a transaction exactly when some log is a transfer of its selected assets, an event that names it, or a log of the two token contracts that cannot be read |
| TradeAcceptance.StrangersAreQuiet | polymarket-data/src/chain_log_audit/fifth_binary_trades.rs:481-540 | a transaction that failed, went to another target or is no matchOrders call is quiet exactly when all its logs are foreign to the owner |
| TradeAcceptance.SettledMatchIsClassified | polymarket-data/src/chain_log_audit/fifth_binary_trades.rs:540-626 | a match that settles, sent with its encoding and with exactly its logs, becomes a fact with the owner's fills, or is quiet without them |
| TradeAcceptance.RuleChangeStops | polymarket-data/src/chain_log_audit/fifth_native_binary_trades.rs:806-841 | a scan stops at an event that changes the rules, whatever else the transaction is |
| TradeAcceptance.AsideIsPassed | polymarket-data/src/chain_log_audit/fifth_native_binary_trades.rs:583-637 | otherwise it passes, as quiet, what is sent to the module or a token contract and every transaction of others to another target than the Exchange |
| TradeAcceptance.OtherCallStops | polymarket-data/src/chain_log_audit/fifth_native_binary_trades.rs:583-637 | a call of the Exchange that is no match stops the scan for that reason |
| ModuleCalls.ModuleCallRoundTrip | polymarket-data/src/chain_log_audit/fifth_direct_module_operations.rs:1189-1242 | a module call is parsed exactly from its one encoding for this owner, condition and pair |
| ModuleCalls.PusdFundingRoundTrip | polymarket-data/src/chain_log_audit/fifth_direct_module_operations.rs:1244-1253 | a pUSD funding is parsed exactly from its one encoding |
| ModuleCalls.PositionFundingRoundTrip | polymarket-data/src/chain_log_audit/fifth_direct_module_operations.rs:1255-1275 | a position funding is parsed exactly from its one encoding |
| CallReading.ModuleCallReads | polymarket-data/src/chain_log_audit/fifth_direct_module_operations.rs:1189-1242 | a call of the module is parsed exactly from its selector and the numbers of its arguments, each at its own place |
| CallReading.FundingReads | polymarket-data/src/chain_log_audit/fifth_direct_module_operations.rs:1244-1275 | so are the two transfers that fund it |
| ModuleOperations.RegisterTrades | polymarket-data/src/chain_log_audit/fifth_direct_module_operations.rs:823-848 | trade facts are registered exactly when each names a transaction of the evidence by all locators and no two share a key; otherwise the first bad one is found |
| ModuleOperations.Compare | polymarket-data/src/chain_log_audit/fifth_direct_module_operations.rs:1787-1834 | no difference is reported exactly when the owner's and the module's balances are the authenticated ones |
| ModuleLaws.MatchingUsesAll | polymarket-data/src/chain_log_audit/fifth_direct_module_operations.rs:1295-1337 | a call that matches the pending funding uses all of it, asset by asset |
| ModuleLaws.OperationEmptiesModule | polymarket-data/src/chain_log_audit/fifth_direct_module_operations.rs:1619-1659 | an accepted operation leaves the module with nothing and is refused only when the owner's side overflows |
| ModuleLaws.ThroughKeeps | polymarket-data/src/chain_log_audit/fifth_direct_module_operations.rs:849-1060 | throughout the interval the module holds exactly the pending funding, and the owner's balance with what is pending is opening plus trades met plus operations |
| ModuleLaws.AllTradesMet | polymarket-data/src/chain_log_audit/fifth_direct_module_operations.rs:851-855 | each registered trade fact is met exactly once: a replay that reaches the end has none left |
| ModuleLaws.ModuleNeverLeftFull | polymarket-data/src/chain_log_audit/fifth_direct_module_operations.rs:1076-1085 | the interval never ends as module-not-empty |
| ModuleLaws.MatchedIsExplained | polymarket-data/src/chain_log_audit/fifth_direct_module_operations.rs:795-1087 | on a match, opening plus all trade facts plus inflows minus outflows of all operations is the last authenticated balance, and the module is empty |
| ModuleLaws.OperationsAreTransactions | polymarket-data/src/chain_log_audit/fifth_direct_module_operations.rs:941-1002 | every reported operation is one successful transaction of the owner to the module, with the call's one encoding and exactly the operation's logs, and its funding adds up to its outflows |
| ModuleLaws.OperationLogsMove | polymarket-data/src/chain_log_audit/fifth_direct_module_operations.rs:1357-1457 | the expected logs of an operation pay the owner its inflows and take its outflows from the module |
| ModuleLaws.FundingLogsMove | polymarket-data/src/chain_log_audit/fifth_direct_module_operations.rs:1339-1355 | the expected logs of a funding move its amount from the owner to the module |
| ModuleReplay.ClassifyModuleInterval | polymarket-data/src/chain_log_audit/fifth_direct_module_operations.rs:795-1087 | the loops compute the interval's status; a fact that cannot be registered refuses it by its own names |
| ModuleReplay.PayoutIsFloor | polymarket-data/src/chain_log_audit/fifth_direct_module_operations.rs:956-977 | a redemption pays the floor of the amount at its outcome's millionths, at most the amount |
| ModuleAcceptance.TradeIsAccepted | polymarket-data/src/chain_log_audit/fifth_direct_module_operations.rs:1161-1179 | a registered trade passes exactly when the owner's balances can take its flows, and leaves exactly the changed balances |
| ModuleAcceptance.FundingIsAccepted | polymarket-data/src/chain_log_audit/fifth_direct_module_operations.rs:892-940 | a transfer to the module passes exactly when the owner sent it, holds it, the module can take it and it left its one log; it is then pending with its asset, id and locator |
| ModuleAcceptance.OperationIsAccepted | polymarket-data/src/chain_log_audit/fifth_direct_module_operations.rs:941-1002 | a call of the module passes exactly when the owner sent it, the pending transfers add up to what it uses, its payout is known, the balances can move and it left exactly its logs, spelled out for split, merge and redemption |
| ModuleAcceptance.OperationPasses | polymarket-data/src/chain_log_audit/fifth_direct_module_operations.rs:1619-1723 | it then leaves no pending transfer, the moved balances and one more operation with its amounts, funding and locator |
| ModuleAcceptance.StrangersPass | polymarket-data/src/chain_log_audit/fifth_direct_module_operations.rs:885-1003 | a transaction of others to another target passes with nothing changed, failed or not |
| ModuleAcceptance.OthersAreAside | polymarket-data/src/chain_log_audit/fifth_direct_module_operations.rs:1725-1781 | whatever passes without being a trade, a funding or an operation moves nothing of owner and module |
| ModuleAcceptance.BoundaryIsAccepted | polymarket-data/src/chain_log_audit/fifth_direct_module_operations.rs:1004-1060 | a boundary is passed exactly when the result continues, no control changed, the module keeps its minter role and its roles, and all six balances agree |
| ModuleAcceptance.MismatchIsReal | polymarket-data/src/chain_log_audit/fifth_direct_module_operations.rs:1787-1834 | a mismatch names the first balance that differs, asset by asset and the owner first, with its authenticated and its replayed value |
| NativeScan.ScanTransaction | polymarket-data/src/chain_log_audit/fifth_native_binary_trades.rs:583-637 | each transaction is passed or stopped at exactly as `Passes` and `Stops` say: a control event first, then calls left to the module replay, then other calls of the Exchange, then the trade classification |
| NativeScan.PassesOrStops | polymarket-data/src/chain_log_audit/fifth_native_binary_trades.rs:583-637 | a transaction is never both passed and stopped at, and it is stopped at for one reason |
| NativeScan.LaterTestsNeverRefuse | polymarket-data/src/chain_log_audit/fifth_native_binary_trades.rs:638-665 | only a successful match gives a fact, and a match that passes has been decoded and has a sender, so the scan's tests after the classification never refuse |
| NativeScan.ScanInterval | polymarket-data/src/chain_log_audit/fifth_native_binary_trades.rs:564-687 | the loops collect the facts of all blocks, or name the first transaction that is not passed and its reason |
| NativeScan.ScannedIsCleared | polymarket-data/src/chain_log_audit/fifth_native_binary_trades.rs:564-687 | where no operations are allowed, the scan passes exactly what the trade classification clears without a control event and without another call of the Exchange |
| NativeScan.ScannedFactsAreFills | polymarket-data/src/chain_log_audit/fifth_native_binary_trades.rs:564-687 | every fact of a scan moves exactly what its fills say, whatever is skipped among the trades |
| ModuleTheorems.FactMoves | polymarket-data/src/chain_log_audit/fifth_direct_module_operations.rs:1161-1179 | a fact says what its transaction's logs move for the owner, and they move to the module exactly what its own orders earn |
| ModuleTheorems.TradeFactsRegister | polymarket-data/src/chain_log_audit/fifth_direct_module_operations.rs:823-848 | every fact of a scan is registered by the module replay of the same evidence: each names its transaction by all locators and no two share a key |
| ModuleTheorems.TradeFactsAreFaithful | polymarket-data/src/chain_log_audit/fifth_native_activity.rs:474-503 | the facts of a scan all say what their transactions' logs move for the owner and for the module |
| ModuleTheorems.BoundariesAreLogs | polymarket-data/src/chain_log_audit/fifth_direct_module_operations.rs:1047-1060 | fed with the facts of a scan, at every boundary the module replay passes the owner's authenticated balances are opening plus the net of all receipt logs so far, and the module's are that net less what its own orders earned |
| ModuleTheorems.AsideEarnsNothing | polymarket-data/src/chain_log_audit/fifth_direct_module_operations.rs:1047-1060 | a module that makes no order and receives no fee earns nothing, so its authenticated balances are the net of all logs |
| ModuleTheorems.BothExplain | polymarket-data/src/chain_log_audit/fifth_native_activity.rs:474-503 | when scan and replay match, the last authenticated balance is opening plus the fills of every trade fact plus every operation, each once, and the module is empty |
| NativeActivity.ClassifyActivity | polymarket-data/src/chain_log_audit/fifth_native_activity.rs:401-535 | the activity is matched exactly when the scan passes and the module replay matches over the facts it found; facts and operations are reported on a match only, and then explain the last authenticated balances |
| ModuleWitness.ScannedTogether | polymarket-data/src/chain_log_audit/fifth_native_activity.rs:474-503 | an interval in which a trade fact and an operation stand side by side, passed by the scan and matched by the replay together |
| ModuleWitness.ModuleMakerDiffers | polymarket-data/src/chain_log_audit/fifth_direct_module_operations.rs:1047-1060 | the same with the module as the maker: both still match, and the logs move ten units to a module whose authenticated balance is nothing |
| Migration.Replay.DepositRows | polymarket-data/src/chain_log_audit/fifth_direct_legacy_migration.rs:731-742 | the loop over the rows updates the record as the deposits one after the other |
| Migration.Replay.Run | polymarket-data/src/chain_log_audit/fifth_direct_legacy_migration.rs:700-877 | the migration updates the record to the stated next state and gives the stated logs, or is missing exactly when a checked step fails |
| Migration.Replay.ApplyUnrelated | polymarket-data/src/chain_log_audit/fifth_direct_legacy_migration.rs:954-1010 | the loop over unrelated collateral transfers updates CTF and vault, and fails exactly when one touches the module or does not fit |
| MigrationLaws.MigrationConserves | polymarket-data/src/chain_log_audit/fifth_direct_legacy_migration.rs:700-877 | a migration keeps legacy plus new positions of each outcome and the collateral of module, CTF and vault together, and leaves no collateral with the module |
| MigrationLaws.MigrationLeavesNoSet | polymarket-data/src/chain_log_audit/fifth_direct_legacy_migration.rs:799-849 | it leaves at least one residue zero, and both once results are known; the result is stored exactly when they are |
| MigrationLaws.ResolvedRedeemsFloors | polymarket-data/src/chain_log_audit/fifth_direct_legacy_migration.rs:823-849 | once results are known it redeems, of each outcome, the floor of everything held at the CTF's payout vector |
| MigrationLaws.MigrationLogsMove | polymarket-data/src/chain_log_audit/fifth_direct_legacy_migration.rs:743-860 | the expected logs move each of the ten tracked balances exactly as the record does |
| MigrationAcceptance.DepositIsAccepted | polymarket-data/src/chain_log_audit/fifth_direct_legacy_migration.rs:731-742 | the rows are deposited exactly when the owner holds the total of each outcome, up to the whole balance, and both totals fit with the module and in the new positions |
| MigrationAcceptance.MigrationIsAccepted | polymarket-data/src/chain_log_audit/fifth_direct_legacy_migration.rs:700-877 | a migration is accepted exactly under `CanMigrate`, a condition over the totals and the opening record: totals held and fitting; no payout and no stored result, or a resolved binary condition whose result is stored or can be; products that fit; collateral in the CTF; room in the vault. It then leaves exactly the stated balances and result |
| MigrationAcceptance.MigrationReports | polymarket-data/src/chain_log_audit/fifth_direct_legacy_migration.rs:760-877 | an accepted migration reports its branch, the collateral as merged or redeemed, what is swept, and the normalised payouts of a first resolution |
| MigrationWitness.UnresolvedReceipt | polymarket-data/src/chain_log_audit/fifth_direct_legacy_migration.rs:743-860 | the receipt of a migration of both outcomes without payouts, log by log |
| MigrationWitness.ResolvedReceipt | polymarket-data/src/chain_log_audit/fifth_direct_legacy_migration.rs:743-860 | the receipt of a migration of both outcomes with payouts, log by log, with or without the three events of a first result |
| MigrationCodec.DecodeRows | polymarket-data/src/chain_log_audit/fifth_direct_legacy_migration.rs:1177-1241 | the decoder gives some rows exactly when the input is their one encoding: one or two rows, distinct outcomes, amounts above zero |
| MigrationCodec.EncodingIsUnique | polymarket-data/src/chain_log_audit/fifth_direct_legacy_migration.rs:1177-1241 | no input encodes two different lists of rows |
| CallReading.RowsRead | polymarket-data/src/chain_log_audit/fifth_direct_legacy_migration.rs:1177-1291 | the rows of a migration are encoded exactly by these numbers: three offsets, then conditions, outcomes and amounts, each with its length before it |
| MigrationInterval.ClassifyMigrationInterval | polymarket-data/src/chain_log_audit/fifth_direct_legacy_migration.rs:248-410 | the loops compute the interval's status, in the program's order of refusals |
| MigrationAcceptance.VisitIsAccepted | polymarket-data/src/chain_log_audit/fifth_direct_legacy_migration.rs:287-392 | the replay goes on after a transaction exactly when it changes no rule and is a migration that can be made with exactly its logs, or goes to another target, concerns nobody here and leaves CTF and vault within words |
| MigrationAcceptance.ActivityIsConcern | polymarket-data/src/chain_log_audit/fifth_direct_legacy_migration.rs:879-1063 | a transaction has relevant activity exactly when some log is not aside, log kind by log kind |
| MigrationAcceptance.PassIsAccepted | polymarket-data/src/chain_log_audit/fifth_direct_legacy_migration.rs:954-1010 | unrelated transfers are followed exactly when none touches the module and CTF and vault can take them one by one |
| MigrationAcceptance.StrangersPass | polymarket-data/src/chain_log_audit/fifth_direct_legacy_migration.rs:879-1010 | a transaction of strangers passes with nothing changed, failed or not |
| MigrationAcceptance.BoundaryIsAccepted | polymarket-data/src/chain_log_audit/fifth_direct_legacy_migration.rs:1065-1175 | a boundary is passed exactly when the record is the authenticated one; otherwise one of the ten balances that differs is named with both values |
| MigrationAcceptance.HonestIntervalMatches | polymarket-data/src/chain_log_audit/fifth_direct_legacy_migration.rs:248-410 | an interval whose blocks hold migrations that can be made, with their logs and balances, or transactions of strangers, matches and reports exactly these migrations |
| MigrationWitness.WholeBalanceMatches | polymarket-data/src/chain_log_audit/fifth_direct_legacy_migration.rs:248-410 | an owner who migrates a whole balance of one outcome, unresolved: the interval matches and the fact is written out |
| MigrationTheorems.ThroughKeeps | polymarket-data/src/chain_log_audit/fifth_direct_legacy_migration.rs:248-410 | throughout an interval: positions and collateral are conserved, the module holds no collateral and no complete set, minting is exact, and the branches are all unresolved or one first resolution at most, first, unpaused, then stored results |
| MigrationTheorems.UnresolvedIsBacked | polymarket-data/src/chain_log_audit/fifth_direct_legacy_migration.rs:799-822 | without results, whatever the split and order, the module keeps of each outcome what its total exceeds the smaller total by and the vault has received the smaller total |
| MigrationTheorems.ClosingNeverRefuses | polymarket-data/src/chain_log_audit/fifth_direct_legacy_migration.rs:394-408 | the last look at the stored result never refuses |
| MigrationTheorems.BoundariesMatchLogs | polymarket-data/src/chain_log_audit/fifth_direct_legacy_migration.rs:1065-1078 | at every boundary passed, each of the ten authenticated balances is the opening one plus the net of all receipt logs so far |
| MigrationTheorems.PassLogsMove | polymarket-data/src/chain_log_audit/fifth_direct_legacy_migration.rs:879-952 | a transaction without relevant activity moves each tracked balance exactly as its logs do |
| MigrationTheorems.FactsAreTransactions | polymarket-data/src/chain_log_audit/fifth_direct_legacy_migration.rs:335-388 | every reported migration is one successful transaction of the owner to the module whose calldata encodes its rows and whose logs are exactly the expected ones |
| Payouts.NormalizedShares | polymarket-data/src/chain_log_audit/fifth_legacy_binary_result.rs:288-301 | normalised shares add up to a million, the first rounded down and the second taking the rest |
| Payouts.StoredResultIsNormalized | polymarket-data/src/chain_log_audit/fifth_legacy_binary_result.rs:265-286 | for an interpreted proof of a resolved binary condition the stored result is accepted exactly when it is the normalised payout; the other tests cannot fail |
| Payouts.ModuleRedemptionIsClose | polymarket-data/src/chain_log_audit/fifth_direct_module_operations.rs:956-977 | a module redemption through an accepted stored result pays at most the CTF's share on the first outcome and at least that on the second, each within a millionth of the amount plus one |
| Payouts.WholeSetsPayAlike | polymarket-data/src/chain_log_audit/fifth_direct_legacy_migration.rs:823-849 | a whole set redeemed outcome by outcome through the module, or at once by the migration, loses at most one unit either way, and the migration pays exactly the CTF's two shares |
| CtfCondition.TransitionsCompose | polymarket-data/src/chain_log_audit/ctf_condition_state.rs:66-102 | valid transitions between interpreted proofs compose |
| CtfCondition.UninterpretedNeedNotCompose | polymarket-data/src/chain_log_audit/ctf_condition_state.rs:66-102 | three proofs, the first not interpretable, whose neighbouring transitions are valid while the outer one is not |
| CtfCondition.AdjacentCoversAll | polymarket-data/src/chain_log_audit/ctf_condition_state.rs:66-102 | so checking neighbours covers every pair of blocks |
| CtfCondition.PreparedStays | polymarket-data/src/chain_log_audit/ctf_condition_state.rs:30-102 | once prepared always prepared, and once resolved the proof never changes |
| CtfCondition.ReadIsReachable | polymarket-data/src/chain_log_audit/ctf_condition_state.rs:30-64 | stored words are read as a condition exactly when the contract can have stored them, by preparing once and reporting once |
| CtfCondition.ValidIsReachable | polymarket-data/src/chain_log_audit/ctf_condition_state.rs:66-102 | between conditions that are read, a transition is valid exactly when the contract can make it |
| CtfCondition.StatusIs | polymarket-data/src/chain_log_audit/ctf_condition_state.rs:30-64 | the four readings, by the number of outcomes and the denominator |
| Carry.AddOne | polymarket-data/src/chain_log_audit/ctf_condition_state.rs:18-28 | the in-place carry loop computes `Increment` |
| Carry.IncrementAddsOne | polymarket-data/src/chain_log_audit/ctf_position_identity.rs:121-131 | `Increment` adds one to the big-endian word and wraps an all-ones word to zero |
| CtfCalls.DecodeWordsIs | polymarket-data/src/chain_log_audit/ctf_operations.rs:320-343 | a dynamic array is decoded exactly when its length and its words end the bytes |
| CtfCalls.CallRoundTrip | polymarket-data/src/chain_log_audit/ctf_operations.rs:209-287 | each of the five calls is decoded exactly from its one encoding |
| CallReading.CtfCallReads | polymarket-data/src/chain_log_audit/ctf_operations.rs:209-343 | each of the five calls is decoded exactly from its selector and the numbers of its arguments and list, each at its own place |
| CtfOperations.BurnAll | polymarket-data/src/chain_log_audit/ctf_operations.rs:789-813 | the redemption loop computes `BurnSlots` |
| CtfOperations.BurnsOnlyNamed | polymarket-data/src/chain_log_audit/ctf_operations.rs:789-813 | burned amounts and payout are those of the slots the list names, and the loop is refused exactly for another slot or an overflow |
| CtfOperations.SameSlotsSameBurn | polymarket-data/src/chain_log_audit/ctf_operations.rs:789-813 | lists that name the same slots burn and pay the same, whatever their order and repeats |
| CtfOperations.CheckRedeemCall | polymarket-data/src/chain_log_audit/ctf_operations.rs:768-858 | the redemption check with its loop gives a match exactly when the call is in scope and the logs are the burns, the cash and the event |
| CtfOperations.CheckedCallMoves | polymarket-data/src/chain_log_audit/ctf_operations.rs:663-858 | an accepted split, merge or redemption reports exactly what its logs move, in both positions and in cash |
| CtfOperations.MergeNeverUnderflows | polymarket-data/src/chain_log_audit/ctf_operations.rs:860-977 | replaying an accepted merge never underflows; it is refused only when the cash would overflow |
| CtfOperations.RedeemNeverUnderflows | polymarket-data/src/chain_log_audit/ctf_operations.rs:860-977 | replaying an accepted redemption never underflows; it is refused only when the cash would overflow |
| CtfOperations.CheckedCallReplays | polymarket-data/src/chain_log_audit/ctf_operations.rs:860-977 | replaying an accepted split, merge or redemption changes every balance by exactly what the operation reports, and is refused exactly when one of the new balances is not a word |
| CtfAcceptance.SplitExactly | polymarket-data/src/chain_log_audit/ctf_operations.rs:663-766 | a split is accepted exactly with its four logs, where the approval had room for the amount |
| CtfAcceptance.MergeExactly | polymarket-data/src/chain_log_audit/ctf_operations.rs:663-766 | a merge is accepted exactly with its three logs, when both positions are held |
| CtfAcceptance.RedeemExactly | polymarket-data/src/chain_log_audit/ctf_operations.rs:768-858 | a redemption is accepted exactly when it names only the two slots, its amounts are words, and its logs are the burns of all that is held of the named outcomes, the cash, if any, and the event |
| CtfAcceptance.BurnedInOrder | polymarket-data/src/chain_log_audit/ctf_operations.rs:789-813 | outcomes are burned in the order in which the list first names them, each once |
| CtfClassification.ScanTransaction | polymarket-data/src/chain_log_audit/ctf_operations.rs:1100-1220 | the loop over lifecycle events stops at the first refusal and computes the scan |
| CtfClassification.ClassifyReport | polymarket-data/src/chain_log_audit/ctf_operations.rs:979-1510 | the loops over blocks and transactions compute the run of the classification |
| CtfVerdicts.VerdictsAreLinked | polymarket-data/src/chain_log_audit/ctf_operations.rs:979-1510 | complete implies consistent and no unavailable transaction; consistent implies that the replay met every authenticated boundary |
| CtfVerdicts.CompleteExplainsBalances | polymarket-data/src/chain_log_audit/ctf_operations.rs:1427-1466 | in a complete report every authenticated balance is the opening one plus the net of the logs of all successful transactions so far |
| CtfVerdicts.OneResolution | polymarket-data/src/chain_log_audit/ctf_operations.rs:1136-1218 | at most one resolution is matched in a run |
| CtfVerdicts.OnePreparationOneResolution | polymarket-data/src/chain_log_audit/ctf_operations.rs:1107-1135 | with valid neighbouring proofs at most one preparation is matched, and the run's state is prepared exactly when the last proof is |
| CtfLifecycle.ScanIsFine | polymarket-data/src/chain_log_audit/ctf_operations.rs:1100-1220 | the lifecycle scan of a transaction is not refused exactly when it holds no such event, one preparation alone, or one resolution as its only log, each of the selected condition and as the proof has it |
| CtfLifecycle.StaysComplete | polymarket-data/src/chain_log_audit/ctf_operations.rs:1222-1425 | a complete report stays complete exactly over a transaction of one of five shapes: outside, external, an operation of the owner, a preparation call or a resolution call |
| CtfLifecycle.CompleteExactly | polymarket-data/src/chain_log_audit/ctf_operations.rs:979-1510 | a report is complete exactly when its inventory matches, no upgrade is seen, and every transaction and every boundary is explained |
| CtfLifecycle.ExplainedStep | polymarket-data/src/chain_log_audit/ctf_operations.rs:1100-1466 | over an explained transaction the balances follow the logs, and preparation, payout and what the block has seen follow the events |
| CtfLifecycle.BlockEndsAsProved | polymarket-data/src/chain_log_audit/ctf_operations.rs:1449-1497 | a complete report goes on from the authenticated balances and condition of each block |
| CtfLifecycle.EventIsMatched | polymarket-data/src/chain_log_audit/ctf_operations.rs:1421-1425 | in a complete block a successful transaction with a lifecycle event, that moves nothing of the owner elsewhere, was sent to the contract and has a matched fact of that kind |
| CtfLifecycle.MatchedAreEvents | polymarket-data/src/chain_log_audit/ctf_operations.rs:1100-1425 | in a complete report the matched preparations, and the matched resolutions, are as many as the events of that kind |
| CtfLifecycle.TurnsAreEvents | polymarket-data/src/chain_log_audit/ctf_operations.rs:1107-1218 | a block over which the condition turns prepared, or resolved, holds a successful transaction with that event |
| CurvePoint.RootCollectionId | polymarket-data/src/chain_log_audit/ctf_position_identity.rs:58-105 | the walk returns the first candidate within the limit that has a root, written as a point, and nothing exactly when none has |
| CurvePoint.BaseFieldIsUsable | polymarket-data/src/chain_log_audit/ctf_position_identity.rs:3-6 | the program's own prime is odd and lies below the parity bit, and its exponent is a quarter of the successor of that prime |
| CurvePoint.PassesIsHasPoint | polymarket-data/src/chain_log_audit/ctf_position_identity.rs:80-82 | over a prime field with that exponent, the squaring test passes exactly for the x of a point of the curve |
| CurvePoint.WalkFindsFirstPoint | polymarket-data/src/chain_log_audit/ctf_position_identity.rs:58-105 | so the walk in the program's field, taken to be prime, stops at the first candidate that is the x of a point |
| CurvePoint.RootOfParity | polymarket-data/src/chain_log_audit/ctf_position_identity.rs:82-86 | a passing candidate has a y of either wanted parity on the curve, at most the prime |
| CurvePoint.EncodeAdds | polymarket-data/src/chain_log_audit/ctf_position_identity.rs:92-97 | the returned word is x plus the weight of the parity bit when y is odd |
| CurvePoint.SplitIsUnique | polymarket-data/src/chain_log_audit/ctf_position_identity.rs:92-97 | a word splits in one way only into x and parity |
| Firehose.DualTradeMatcher.Primary | polymarket-data/src/trade_firehose.rs:305-324 | a row from the first socket keeps the matcher's invariant; what comes out extends a prefix of the first stream, and all of it comes out exactly when both sockets have shown the same keys equally often; otherwise the row is kept with its time and the oldest equal waiting row goes |
| Firehose.DualTradeMatcher.Secondary | polymarket-data/src/trade_firehose.rs:326-345 | the same for a row from the second socket: it marks the oldest equal row without a partner, or waits from its time on |
| Firehose.AgreesWhenNothingOpen | polymarket-data/src/trade_firehose.rs:347-359 | nothing is open in either queue exactly when the keys received on both sockets are equal as multisets |
| Firehose.DualTradeMatcher.Unhealthy | polymarket-data/src/trade_firehose.rs:361-371 | with rows in the order of time, looking at the two fronts finds any overdue row of either queue |
| Firehose.RollingTradeDedup.InsertIfNew | polymarket-data/src/trade_firehose.rs:443-464 | a fingerprint is refused exactly when it is among the last 3,000 accepted, and set and queue stay that window |
| TtlCache.TtlCache.Get | polymarket-data/src/ttl_cache.rs:59-71 | a hit is the latest insertion of the key and fresh; an expired entry is dropped from both structures |
| TtlCache.TtlCache.Insert | polymarket-data/src/ttl_cache.rs:74-92 | an insertion keeps the queue a duplicate-free listing of the keys by insertion time within capacity, and pushes out the oldest only for a new key in a full cache |
| TtlCache.RoomIsListed | polymarket-data/src/ttl_cache.rs:76-82 | making room for a key keeps the others listed and leaves a free place |
| History.ReadState.RegisterHeader | polymarket-data/src/position_history.rs:590-612 | a header is registered exactly when it repeats what is known and links to both known neighbours; all neighbours stay linked whatever the order of arrival |
| HistoryPages.ParsePage | polymarket-data/src/position_history.rs:642-699 | a page passes exactly when its blocks rise strictly from the cursor inside the range; each of the three refusals is given exactly for the first line at fault, no line at all, or another first block |
| History.ReadState.ReadDirection | polymarket-data/src/position_history.rs:417-578 | the pages of a finished direction are the answers to its requests, tile the range, agree with all before and keep the budget; a direction that stops does so at the first request that fails, for the stated reason |
| History.ReadHistory | polymarket-data/src/position_history.rs:334-415 | an observation comes out exactly when the endpoint tells one, and each error exactly when it is the reason: bad input, budget, no reply, a page at fault, headers that clash, logs that clash, another anchor. The observation covers the range in both directions under one linked chain and lists the logs of all pages, each once, in order |
| HistoryVerdicts.OneVerdict | polymarket-data/src/position_history.rs:334-578 | whatever the endpoint answers, a history is not both told and refused, and a refusal has one reason |
| HistoryVerdicts.ChainIsTold | polymarket-data/src/position_history.rs:334-612 | an endpoint that serves one linked chain, in pages that cover the range in both directions within the budget and end in the expected hash, tells a history |
| History.PlacesDiffer | polymarket-data/src/position_history.rs:403-407 | two kept logs never stand at the same place, so the sorted list is strictly increasing |
| Overlap.CompareCandidates | polymarket-data/src/v2_reconciliation.rs:154-223 | pages are compared exactly when they are small enough, valid, newest first and have a baseline, and the counts are those of the two multisets; otherwise the error is the first that applies and names the first bad row |
| Overlap.FailsForOneReason | polymarket-data/src/v2_reconciliation.rs:154-182 | pages are comparable or fail for exactly one reason, which names one row |
| Overlap.CountOverlap | polymarket-data/src/v2_reconciliation.rs:196-222 | matched is the size of the multiset intersection, the other counts are what is left, and unmatched newer rows are all rows newer than the previous head |
| Overlap.OverlapIsSymmetric | polymarket-data/src/v2_reconciliation.rs:154-223 | matched is symmetric and independent of the order of rows on either page |

## Left out

- Remote calls, storage and account proofs, header binding, signature recovery and hashing: their results are inputs.
- The text of logs, topics and addresses, and the decoding of logs into movements: logs are typed values. The
  control events that stop a migration are one topic, `ControlChange`; the module replay's upgrade and role
  events are one flag of a block, `Point.controlsChanged`, and so is the comparison of source identity.
- Storage keys, condition ids and position ids, apart from the carry loop and the curve point: they only hash.
- Opening checks before the replays (`validate_boundary`, `identity_continues`): equality tests of evidence.
- Lists of log indexes and transfer references inside operation facts; a trade fact keeps the indexes of its fills.
- Entry counters of the inventory, and the asset named when a movement is not supported. A batch of unequal
  lengths is an error there, and a reason of the unavailable status here.
- Migration rows outside the decoder's promise of distinct outcomes: the program's totals per outcome could
  overflow on those, the model's cannot.
- `decode_call` limits on the size of a batch in a log: events are typed, so only calls are decoded from bytes.
- JSON, HTTP status and byte budgets of the history reader and of the page comparison: a line or row that does
  not normalise is `BadLine` or a missing candidate, and refuses whatever its reason.
- The Exchange's own splits and merges inside V1 transactions, code contexts, control proofs and the quote engine:
  constant checks and plumbing.
- Trades.ClassifyTransaction: takes a decoded input as bytes and the order hash as a parameter, so it does not say
  that an order's hash is the right one.
- CurvePoint.WalkFindsFirstPoint: takes the modulus of the base field to be prime, because no primality proof of a
  254-bit number is given here.
- NativeActivity.ClassifyActivity: takes evidence and boundaries as verified; the controls of the Exchange, which are
  proved remotely after the scan and can refuse too, are not modelled, nor is the continuity of source identity.
- NativeScan.ScanTransaction: gives the reason of the trade classification itself, which the program renames.
- Firehose.DualTradeMatcher.Unhealthy: asks for rows in the order of time, which a monotonic clock gives.
- History.ReadState.ReadDirection: asks that the pages already taken keep the budget of requests, as they always do.
