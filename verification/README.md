# Exchange core: order book, ledger, hash chain and encoders

A spot exchange in four connected parts, modelled in Dafny and proved to work together.

1. **Order book and matching engine.** Orders rest in two price-sorted maps of FIFO queues. A new
   order trades against the other side at the makers' prices, best price first and oldest first, and
   what is left of it rests at its limit. Around the book, the engine locks the funds an order needs,
   turns the trades into one settlement batch with predicted balance versions and snapshots, and
   applies the batch to the ledger. A second path does the same and captures every effect in a
   hash-chained bundle.
2. **Ledger.** Every user has an available and a frozen balance per asset, changed only by checked
   operations. Commands form trees; a batch is validated on a copy-on-write shadow before it is
   committed; every command is written to a segmented write-ahead log from which, with a snapshot,
   the ledger can be rebuilt.
3. **Hash chain.** The engine numbers its bundles and links each to the one before; a consumer that
   receives them at least once, in batches, accepts each exactly once.
4. **Encoders and id generators.** Trade ids, Snowflake ids and their Base32 strings, the log's
   records, and a second, versioned record stream.

## Design

There are two layers. Functions on values say what an operation does, and the lemmas are about them.
Classes and methods have the program's own form - fields changed in place, loops, early returns - and
each is proved to do what its function says, so the lemmas hold of them.

| files | what is in them |
|---|---|
| `Numbers`, `Options`, `Sums`, `Bytes`, `BitArithmetic` | 64-bit conventions and signed wrap-around, sums over sets, byte encodings, why shifts and masks are arithmetic |
| `Balances`, `UserAccounts` | one balance; one user's asset vector as a map |
| `LedgerSpec`, `LedgerLaws`, `FailedTrees`, `LedgerOverlay`, `Ledgers` | commands on accounts; supply and settlement laws; the same for trees that fail half way; shadow accounts; account table, shadow ledger and ledger as classes |
| `WalSpec`, `Wal`, `Recovery` | record format and reader; segments and rolling log as classes; rebuilding from snapshot and files |
| `FailedCommands`, `MirroredAccounts`, `RecordedCommands`, `ReplayedRuns` | logs with a refused command; accounts that agree in every balance; what a step leaves in the log; replaying the log of a run |
| `BookSpec`, `BookLaws`, `BookInvariant`, `BookIds`, `PriceLevels`, `OrderBooks` | the book as priority lists; what a match takes; well-formedness; which ids the book knows; maps of queues; the book as a class |
| `ExchangeSpec`, `Collateral`, `Exchanges`, `PlacementDetails`, `Predictions`, `LargeAmounts` | placing and cancelling; collateral and settlement; runs; counters, reports and errors; the predicted versions and balances; reachable orders for which the signed casts go wrong |
| `EngineOutputs`, `BundleSpec`, `BundleLaws`, `BundleContents`, `BundleTheorems`, `RunningTotals`, `ChainConsumer` | bundles; the bundle path; what events and reports say; bundles field by field; bundles against the ledger, and the chain; the totals of one order; the consumer |
| `MatchBatches`, `MatchingEngines` | the engine's loops over trades, and the engine as a class over the shadow ledger |
| `TradeIds`, `TradeIdRuns`, `SnowflakeIds`, `Base32`, `WalRecords` | id generators and encoders |

Conventions. Quantities, prices, balances and counters are natural numbers. Where the program checks
a 64-bit bound, wraps or casts, the model does too (`U64_MAX`, `WrapAdd`, `AsI64`). Arithmetic that
the program leaves unchecked is that of a release build, which wraps around: the sums of the pre-flight
checks, the versions in events, the balance an Unlock announces, and all i64 arithmetic. A build with
overflow checks panics there instead. The exceptions are `price * quantity` of an order, for which the
theorems that need it carry the bound `LockAmount(o) <= U64_MAX`, and the running totals of one order,
which are computed mathematically because they never overflow (`RunningTotals.RunningTotalsFit`). Hash,
checksum and command serialisation are arbitrary functions given as parameters; the serialisation is
assumed invertible where a round trip is stated, and no collision resistance is assumed anywhere. Clock
readings, random values and the clock-driven log rotation are parameters or nondeterministic choices.
A mutable borrow of an owned element (one account of the table, one book of the vector) is modelled
by operating on the object, or on a copy that is stored back.

The program's `Ledger` interface is instantiated with the shadow ledger over the real one. Its
caller drops the shadow on an error, and commits it otherwise (`MatchingEngine.PlaceAndCommit`).

Where code and comments disagree, the model follows the code:

- The decoding table of the Base32 decoder is commented as supporting lower case but enters the
  upper-case alphabet twice; lower case is refused (`Base32.LowerCaseIsRefused`).
- A failing lock, unlock or refund of a balance can leave one of the two fields changed
  (`Balances.OpEffect` says exactly when). Lock and unlock are all-or-nothing once the two fields
  together fit 64 bits (`Balances.FittingBalanceNeverLeaks`).
- The combined spend-and-refund of a balance is commented as atomic and has the same flaw.
- The ledger's `apply` logs a command before it validates it, so a refused command stays in the log
  under a number that the next command uses again. Recovery from a snapshot taken before the refusal
  refuses, from one after the next success it is exact, and from one in between it refuses unless the
  oldest refusal succeeds on the accounts of the snapshot, which it then runs in place of the next
  command (`FailedCommands.RecoveryAfterRefusals`, `FailedCommands.SafeIffNoneSucceedsLate`). After a
  single refusal only a tree of commands can do that; `Recovery.HalfFailedBatchCanBeReplayed` is one.
- A snapshot numbered 0 is written but never loaded (`Recovery.LatestIsNewest`).
- A refused lock of a user without an entry for the asset leaves a zero entry in the accounts that are
  then committed, and no record makes it again. So after a declined order the log may replay to other
  accounts (`MatchingEngines.CommandsTellTheState` says exactly when), but never to another balance
  (`ReplayedRuns.EveryRunIsReplayed`).
- The writer accepts records that the reader refuses for their size
  (`WalSpec.OversizedRecordIsUnreadable`).
- A filled taker stays in the book's id index, and an order with quantity zero is indexed and never
  rests. The index therefore covers the resting orders without being equal to them.
- Amounts are cast to signed integers before they are added to a predicted balance or written into an
  event. The predicted versions are always right; the predicted balances of a batch are right if and only
  if the cost, refund and quantity of each of its trades are below 2^63
  (`Predictions.PlacedBatchPredictsTheLedger`). A bundle's deltas are right for a balance if and only if as
  many of them wrap around in its lock as in its trades (`BundleTheorems.BundleTellsTheTruth`), and sum to
  zero if and only if as many debits as credits wrap around (`BundleTheorems.EveryBundleIsZeroSum`): a
  credit does from 2^63 on, a debit from 2^63 + 1 on. `LargeAmounts` reaches an order that fails for each.
- The pre-flight checks of a settlement look at buyer and seller one at a time, and the sums they check
  wrap around, so a trade can pass both and then panic: one user who trades one asset against itself, or
  anyone whose spending and refund add up to 2^64 or more (`LedgerLaws.MatchExecOutcome` says exactly
  when). No trade of the engine is of that kind (`Collateral.FillsSettle`).
- The balance and version that a cancellation writes into its Unlock command come from a stub ledger that
  answers 2^64 - 1 and 0; the announced balance is practically never the one after the unlock
  (`Exchanges.EmittedUnlockPredictsNothing`).
- Cancelling with symbol 0 stops at the first book that knows the id, also when the order that rests under
  it is in a later one (`MatchingEngines.CancelWithoutSymbol`).

## Model

| member | source | states |
|---|---|---|
| Numbers.WrapAddTwice | src/enforced_balance.rs:88-188 | the version counter wraps the same however an increment is split, which is what lets a prediction add 2 at once |
| Balances.OpEffect | src/enforced_balance.rs:88-188 | success moves exactly the net amount and counts one version; an error leaves the balance untouched exactly when it is not one of the overflows that come after the first field was stored |
| Balances.OpOutcome | src/enforced_balance.rs:88-188 | for every balance, exactly when each of the six operations succeeds and which error it gives otherwise - a withdrawal if and only if the amount is available, whatever is frozen - and where success puts the funds |
| Balances.LeakLeaves | src/enforced_balance.rs:122-188 | what an overflow after the first store leaves: that field moved, the other and the version not |
| Balances.FittingBalanceNeverLeaks | src/enforced_balance.rs:122-150 | with available plus frozen in 64 bits, lock and unlock never overflow or leak and succeed exactly for covered amounts |
| Balances.UnlockUndoesLock | src/enforced_balance.rs:122-150 | unlocking what was locked restores the balance, two versions later |
| Balances.Balance.Deposit | src/enforced_balance.rs:88-92 | in place: new fields and result are those of the specified deposit |
| Balances.Balance.Withdraw | src/enforced_balance.rs:103-110 | in place: new fields and result are those of the specified withdrawal |
| Balances.Balance.Lock | src/enforced_balance.rs:122-130 | in place, available stored before frozen is checked: the specified lock |
| Balances.Balance.Unlock | src/enforced_balance.rs:142-150 | in place, frozen stored before available is checked: the specified unlock |
| Balances.Balance.SpendFrozen | src/enforced_balance.rs:161-168 | in place: the specified spending |
| Balances.Balance.RefundFrozen | src/enforced_balance.rs:177-188 | in place, frozen stored before available is checked: the specified refund |
| UserAccounts.UserAccount.GetBalanceMut | src/user_account.rs:43-49 | finds or appends the asset's entry; the vector keeps no duplicate id and stands for the same map |
| UserAccounts.UserAccount.GetBalance | src/user_account.rs:54-56 | the asset's balance in the map the vector stands for, or nothing |
| UserAccounts.UserAccount.CheckBuyerBalance | src/user_account.rs:71-86 | missing, short or passing, by the map the vector stands for and a required sum that wraps around |
| UserAccounts.UserAccount.CheckSellerBalance | src/user_account.rs:88-101 | missing, short or passing, by the map the vector stands for and a required sum that wraps around |
| UserAccounts.CheckIsLedgerCheck | src/user_account.rs:71-101 | the check of one account is the ledger's check for its user, with the required sum less 2^64 when it wraps around, and tells a missing asset from too small a frozen balance |
| UserAccounts.UserAccount.SettleAsBuyer | src/user_account.rs:102-124 | spend, deposit and optional refund in program order, stopping at the first failure |
| UserAccounts.UserAccount.SettleAsSeller | src/user_account.rs:126-148 | spend, deposit and optional refund in program order, stopping at the first failure |
| UserAccounts.LedgerRunIsAccountRun | src/ledger.rs:1066-1092 | settling on one user's account is running the same operations on the ledger |
| LedgerLaws.HoldingWithinSupply | src/ledger.rs:935-1037 | every user's available plus frozen is part of the asset's supply |
| LedgerLaws.SupplyOfTouch | src/ledger.rs:935-1037 | a successful operation changes its asset's supply by its net amount and no other asset's |
| LedgerLaws.TransferOutcome | src/ledger.rs:935-979 | on any ledger, exactly when a deposit, withdrawal, lock or unlock succeeds by the user's balance, and the balance it leaves; no other balance changes |
| LedgerLaws.SettlementIsZeroSum | src/user_account.rs:102-148 | the buyer's and the seller's steps of one trade cancel out in every asset, whoever the two are |
| LedgerLaws.MatchExecKeepsSupply | src/ledger.rs:1039-1093 | a settled trade moves funds and never creates or destroys any |
| LedgerLaws.SupplyConserved | src/ledger.rs:935-1037 | over every command tree without TradeSettle, each asset's supply changes by deposits minus withdrawals |
| LedgerLaws.TradeSettleOutcome | src/ledger.rs:980-1020 | exactly when a TradeSettle succeeds; its gain is credited if and only if it fits 64 bits; what it does to every supply |
| LedgerLaws.TradeSettleEffect | src/ledger.rs:980-1020 | what a TradeSettle does to every balance: nothing when refused, otherwise the spending, the gain if it fits, and one version for each |
| LedgerLaws.TradeSettleCanDestroyFunds | src/ledger.rs:980-1020 | a TradeSettle that succeeds and loses its gain |
| LedgerLaws.PreCheckedTradeSettles | src/ledger.rs:1039-1093 | with supplies in 64 bits, a trade whose sums fit and are frozen, on each side and on both together, settles completely and moves exactly its amounts, also for one user on both sides or one asset |
| LedgerLaws.ChecksAsk | src/ledger.rs:1039-1076 | what the pre-flight checks ask for, as sums less 2^64 when they wrap around, and that they are the true sums when these fit |
| LedgerLaws.MatchExecOutcome | src/ledger.rs:1039-1093 | for any users and assets, exactly when a trade settles, is refused without effect, or panics: the "Critical" panics are those of trades that pass the checks because a required sum wrapped around, or because one user trades one asset against itself |
| LedgerLaws.SelfTradeInOneAssetPanics | src/ledger.rs:1077-1092 | a witness: one user and one asset pass both checks and reach a "Critical" panic |
| LedgerLaws.WrappedCheckPanics | src/user_account.rs:71-86 | a witness: two users and two assets, where the required sum wraps around to nothing |
| FailedTrees.FailedTreeIsAPrefix | src/ledger.rs:912-1037 | a command tree that fails half way has moved every supply as a prefix of its commands would; nothing is created or destroyed on the way to the failure |
| LedgerOverlay.CommandInOverlay | src/ledger.rs:566-615 | applying a command to copied accounts and reading through is applying it to the ledger |
| LedgerOverlay.EmptyAccountsDoNotMatter | src/ledger.rs:566-615 | copying accounts that do not exist changes neither how a command ends nor any balance it leaves, and on success nothing at all |
| LedgerOverlay.LeavesMeanTheBatch | src/ledger.rs:601-613 | the flattened commands a shadow records mean what the nested batch means |
| Ledgers.AccountTable.ApplyTransaction | src/ledger.rs:935-1037 | the command tree applied in place: accounts and verdict of the specification, and no duplicate asset ids |
| Ledgers.AccountTable.ApplyMatchExec | src/ledger.rs:1039-1093 | checks of both sides, then both settlements: accounts and verdict of the specification |
| Ledgers.AccountTable.TradeSettle | src/ledger.rs:980-1020 | the deprecated settlement, with its ignored deposit |
| Ledgers.ShadowLedger.GetBalance | src/ledger.rs:530-564 | reads see the buffered accounts over the ledger |
| Ledgers.ShadowLedger.Apply | src/ledger.rs:566-615 | ends as the command does on what reads see, moves that view as specified, leaves the specified balances when refused, and records the flattened commands up to the first that fails |
| Ledgers.GlobalLedger.AppendToWal | src/ledger.rs:867-877 | logs the commands with consecutive numbers up to the first that does not fit a segment |
| Ledgers.GlobalLedger.CommitDelta | src/ledger.rs:879-892 | logs, then installs the changed accounts; accounts stay as they are when a record does not fit; the log stays faithful exactly when the commands lead to the installed accounts |
| Ledgers.GlobalLedger.CommitBatch | src/ledger.rs:894-910 | refines the sequential fold: nothing at all changes when it fails, otherwise exactly the fold with the sequence number advanced by the list's length; the case of an oversized record is stated too |
| Ledgers.GlobalLedger.Apply | src/ledger.rs:912-925 | the record is in the log whether or not the command succeeds; exactly when it succeeds or panics; on success accounts and number move as specified; number, accounts and log stay those of a run with refused commands |
| Ledgers.GlobalLedger.FindLatestSnapshot | src/ledger.rs:713-735 | the loop over the snapshot files finds the newest one, and none numbered 0 |
| Ledgers.GlobalLedger.Recover | src/ledger.rs:638-687 | loading the newest snapshot and the replay loops compute the specified recovery |
| Ledgers.GlobalLedger.ReplayFile | src/ledger.rs:660-676 | one file's records: old ones skipped, a gap or a failing command or a damaged record refused |
| Ledgers.GlobalLedger.PastStatesRebuild | src/ledger.rs:638-687 | a snapshot of the ledger as it is, and for a faithful log of any past state, is one the ledger can be rebuilt from |
| Ledgers.GlobalLedger.CrashAndRecover | src/ledger.rs:638-687 | on bytes, end to end: from any snapshots of which the newest is one the ledger can be rebuilt from, and the files from the j-th on, recovery gives every balance of the present state, or refuses exactly when the files do not reach back |
| Ledgers.GlobalLedger.CrashAfterRefusals | src/ledger.rs:638-687 | the same for a ledger that refused any calls of `apply`: recovery is the replay of its log over the newest snapshot, and gives the present state or refuses unless the oldest refusal before the snapshot succeeds on it |
| WalSpec.SegmentRoundTrip | src/ledger.rs:206-241 | a segment of readable records is read back exactly and then ends cleanly in the zero padding |
| WalSpec.OversizedRecordIsUnreadable | src/ledger.rs:447-490 | a record above the reader's limit is written and never read |
| WalSpec.RecordLayout | src/ledger.rs:206-233 | where the writer puts what: length, checksum over length and payload, sequence number, command; every number byte by byte, low byte first |
| WalSpec.FrameOutcome | src/ledger.rs:447-490 | what the iterator makes of any length, checksum and payload: an error exactly for a wrong checksum or an undecodable command, a panic for a payload without a sequence number, otherwise the number and command that are stored |
| WalSpec.TornFrame | src/ledger.rs:447-472 | a record that breaks off is an error, except inside its length, which is taken for the end |
| WalSpec.LengthOutcome | src/ledger.rs:455-461 | a stored length of 0 ends the segment, one above the limit is an error, whatever follows |
| WalSpec.ReadBehind | src/ledger.rs:447-490 | behind any list of readable records the iterator goes on with whatever follows them |
| Wal.WalSegment.Append | src/ledger.rs:206-241 | fails without effect when the record does not fit; otherwise the buffer is the encoding of one more record |
| Wal.RollingWal.Append | src/ledger.rs:285-300 | rotates at any time the clock says and when full; the record goes to the end of the last segment, if that has room, or to a new one; fails exactly for a record larger than a segment; segments stay named after their first record, and ordered also when numbers repeat |
| Wal.RollingWal.Rotate | src/ledger.rs:313-350 | the closed file keeps its records, an empty segment follows, nothing logged is lost |
| Recovery.SegmentsRoundTrip | src/ledger.rs:392-490 | across any rotations, chained iterators give exactly the logged list and then end |
| Recovery.ReplayIsAllOrNothing | src/ledger.rs:660-676 | for any files, replay refuses unless every file ends cleanly, and then replays exactly what is read from them |
| Recovery.DamageIsRefused | src/ledger.rs:638-687 | a record whose checksum is not that of its bytes makes recovery refuse, in whichever file from the start index on, and whatever comes before and after it |
| Recovery.StartIndexIsTheLastCovered | src/ledger.rs:392-397 | of files in order, replay starts with the last whose name is not above the snapshot, or with the first |
| Recovery.StartIndexSkipsOldRecords | src/ledger.rs:392-422 | the files before the chosen start index hold no record the snapshot does not cover |
| Recovery.ReplayNumbered | src/ledger.rs:660-676 | replaying numbered records over a later state gives the fold of what is new, or refuses |
| Recovery.LatestIsNewest | src/ledger.rs:713-735 | the snapshot that is loaded is the newest; without one above 0 recovery starts from the empty ledger |
| Recovery.RecoveryAppliesTheRest | src/ledger.rs:638-687 | whatever the snapshots hold: recovery applies to the newest exactly the commands it does not cover, when the segments reach back, and refuses otherwise |
| Recovery.ResumingReplaysTheLog | src/ledger.rs:392-422 | over ordered segments, also when numbers repeat, the start index loses nothing: recovery replays every record |
| Recovery.RecoveryExactOrRefuses | src/ledger.rs:638-687 | any snapshots of a run and any suffix of the segments: the fold of the whole run exactly when the segments reach back to the newest snapshot, an error otherwise, never another state |
| Recovery.FailedCommandPoisonsTheLog | src/ledger.rs:912-925 | a logged command that failed makes recovery from any earlier snapshot refuse |
| Recovery.HalfFailedBatchCanBeReplayed | src/ledger.rs:912-925 | the witness, from the empty ledger: a half-failed tree over a snapshot taken after it is silently replayed into a state that never was |
| FailedCommands.FailedMatchBatchFailsAgain | src/ledger.rs:935-1037 | a match batch that failed half way cannot succeed on the accounts it left |
| FailedCommands.FailedCommandFailsAgain | src/ledger.rs:935-1037 | a refused command that is no tree is refused again on the accounts it left |
| FailedCommands.RecoveryReplaysTheRun | src/ledger.rs:638-687 | from files and snapshots, recovery of any run of `apply` is the replay of its whole log over the newest snapshot |
| FailedCommands.RecoveryAfterRefusals | src/ledger.rs:638-687 | for every run of `apply`, refused commands included, from files, and a newest snapshot taken anywhere in it, exactly what recovery gives: the run's end, an error, or the replay of the oldest refusal since the last success in place of the next command |
| FailedCommands.ReplayedInItsPlace | src/ledger.rs:660-676 | what that replay gives: the first later command is lost |
| FailedCommands.PlainRefusalIsNotReplayed | src/ledger.rs:660-676 | a single refused command that is no tree makes replay over the state after it refuse |
| FailedCommands.SafeIffNoneSucceedsLate | src/ledger.rs:660-676 | a state of any run is recovered exactly or refused, whatever comes later, if and only if the oldest of the refusals just before it does not succeed when run again |
| MirroredAccounts.MirrorTouches | src/ledger.rs:935-1037 | on accounts that agree in every balance, lists of operations have the same outcome and keep the agreement |
| MirroredAccounts.MirroredSupply | src/ledger.rs:935-1037 | they have the same supplies |
| RecordedCommands.PlacedCommandsRun | src/ledger.rs:566-615 | what the commands of an accepted order do to any accounts that take its lock |
| RecordedCommands.DeclinedCommandsRun | src/ledger.rs:566-615 | what the commands of a declined order do to any accounts: the lock if it was taken, otherwise nothing |
| ReplayedRuns.RunIsReplayed | src/ledger.rs:660-676 | for accounts that agree with the ledger in every balance, the log of any run over both order paths succeeds on them and gives accounts that agree with the run's end |
| ReplayedRuns.EveryRunIsReplayed | src/ledger.rs:660-676 | the log of every run over both order paths, with accepted, declined, refused and cancelled orders, replayed from nothing gives every balance |
| ReplayedRuns.RunsAreRecovered | src/ledger.rs:638-687 | crash and recovery of any such run: from any snapshots taken during it, every balance of its end exactly when the segments reach back to the newest, an error otherwise |
| BookLaws.MatchConserves | src/matching_engine_base.rs:63-178 | traded plus left over is the order; opposite depth drops by exactly what was traded |
| BookLaws.MatchIsMaximal | src/matching_engine_base.rs:63-178 | traded is the smaller of the order and the crossing depth; with a remainder, nothing left crosses |
| BookLaws.MatchFollowsPriority | src/matching_engine_base.rs:63-178 | price-time priority in closed form: which maker the i-th trade is with and how much it takes |
| BookLaws.RestIsSuffix | src/matching_engine_base.rs:63-178 | the makers that stay are a suffix, the first possibly reduced, and exactly the makers before it lose their ids |
| BookInvariant.AddKeepsWellFormed | src/matching_engine_base.rs:45-193 | adding any new id, crossing or not, keeps the book well formed: uncrossed, sorted, positive, distinct, indexed |
| BookInvariant.RemoveKeepsWellFormed | src/matching_engine_base.rs:213-232 | removing keeps the book well formed |
| BookInvariant.RemoveIffResting | src/matching_engine_base.rs:213-232 | removing succeeds exactly for resting orders, returns that order, and removes only it |
| BookInvariant.CancelUndoesAdd | src/matching_engine_base.rs:45-232 | cancelling an order that rested without trading restores the book exactly |
| BookInvariant.ReachableBooksAreWellFormed | src/matching_engine_base.rs:45-232 | every book reached by any additions and removals is well formed |
| BookIds.AddedOutcome | src/matching_engine_base.rs:45-193 | from any well-formed book, an added order's id is known under its side and price, and the known ids and their index are the old ones with it, less exactly the makers traded away; what is left queues behind every order of its price or better, and the counter moves by the trades |
| BookIds.RemovedOutcome | src/matching_engine_base.rs:213-232 | removing an id forgets exactly that id, and takes out exactly the order that rests under it, if one does |
| BookIds.StepIds | src/matching_engine_base.rs:45-232 | a step of a book forgets an id if and only if it removes that id or trades that maker away |
| BookIds.AddedIdIsRefused | src/matching_engine_base.rs:56-61 | over every run, a second order with an id that was added is a duplicate until a step removes that id or trades its order away as a maker - a completely filled taker keeps its id |
| BookIds.FreedIdIsAccepted | src/matching_engine_base.rs:56-61 | after such a step it is added again |
| PriceLevels.PushIsInsert | src/matching_engine_base.rs:180-190 | queueing at a price is inserting behind equal and before worse prices in the priority list |
| PriceLevels.DropIsRemove | src/matching_engine_base.rs:219-229 | taking an order out of its level, and an empty level out of the map, is removing it from the priority list |
| OrderBooks.OrderBook.DrainLevel | src/matching_engine_base.rs:79-165 | the inner loop trades with a level as the simple matcher does, with the same ids, counters and index changes |
| OrderBooks.OrderBook.MatchLevels | src/matching_engine_base.rs:63-178 | the nested loops refine the simple matcher over the flattened opposite side, for both sides, and terminate |
| OrderBooks.OrderBook.AddOrder | src/matching_engine_base.rs:45-193 | same trades, same book, same ids as the specification; a known id is refused without effect |
| OrderBooks.OrderBook.RemoveOrder | src/matching_engine_base.rs:213-232 | in place: the specified removal, stale index entries included |
| OrderBooks.OrderBook.HasOrder | src/matching_engine_base.rs:209-211 | whether the id is in the book's id set |
| Collateral.TakerPaysLimit | src/matching_engine_base.rs:713-722 | a buyer's cost plus refund is limit price times quantity, whatever the maker's price |
| Collateral.OneFillSettles | src/matching_engine_base.rs:712-812 | with collateral in place the next fill passes every check, settles, and leaves collateral in place |
| Collateral.FillsSettle | src/matching_engine_base.rs:688-812 | once the funds are locked every fill of the match settles, and what stays frozen is what the leftovers need |
| Collateral.BatchIsFills | src/matching_engine_base.rs:778-813 | the batch the engine builds settles as the fills do; predicted values do not reach the accounts |
| Exchanges.LockOutcome | src/matching_engine_base.rs:596-638 | locking succeeds exactly for available funds; a refused lock changes no balance |
| Exchanges.PlaceKeepsSound | src/matching_engine_base.rs:555-816 | an order is accepted exactly when its symbol is registered, the funds are there and the id is new; it never fails half way or panics; the collateral invariant is kept; a declined order changes no balance and nothing else |
| Exchanges.CancelKeepsSound | src/matching_engine_base.rs:1374-1443 | cancelling succeeds exactly for resting orders, gives the full remaining funds back to their owner and nothing to others; the invariant is kept |
| Exchanges.EmittedUnlockPredictsNothing | src/null_ledger.rs:25-36 | the balance an emitted Unlock announces is the one after it only for an order worth nothing over a full balance, and its version only when the version counter stood at zero |
| Exchanges.DepositKeepsSound | src/ledger.rs:940-946 | a deposit within the supply bound succeeds, credits exactly its amount to one available balance, changes no other and nothing else, and keeps the invariant |
| Exchanges.WithdrawKeepsSound | src/ledger.rs:947-957 | a withdrawal succeeds exactly when the amount is available, whatever is frozen; then it takes exactly that from the available side, and otherwise nothing changes; the invariant is kept |
| Exchanges.RegisterKeepsSound | src/matching_engine_base.rs:402-417 | registering a symbol keeps the invariant |
| Exchanges.EveryRunIsCollateralised | src/matching_engine_base.rs:555-1443 | in every state of every run, each user's frozen balance is exactly what the user's resting orders need over all books, every book is well formed, every supply fits 64 bits |
| PlacementDetails.PlacedOrder | src/matching_engine_base.rs:688-816 | an accepted order changes one book, by adding it, moves the generator by its trades, and takes one output number for each of them, in order |
| PlacementDetails.DeclinedOrder | src/matching_engine_base.rs:570-686 | in any state, what a declined order leaves: books and counters, and every balance but the one it would be paid with; that keeps the lock when only the book was missing, and loses available funds when its frozen side overflows |
| PlacementDetails.ErrorsOfPlacing | src/matching_engine_base.rs:688-813 | in any state, behind a lock: a known id is a duplicate, and the order fails or panics exactly when its batch does |
| PlacementDetails.OthersLeaveTheCounters | src/matching_engine_base.rs:555-816 | no other step moves the generator or the output counter |
| PlacementDetails.RegisteredSymbol | src/matching_engine_base.rs:402-417 | registering adds an empty book and its assets under a free symbol, and does nothing under a taken one |
| PlacementDetails.OutputNumbersAreConsecutive | src/matching_engine_base.rs:702-805 | over every run, across all books, the output numbers in the batches have no gap and no repetition |
| PlacementDetails.OrderIsReported | src/matching_engine_base.rs:555-816 | the commands an order leaves, field by field: lock, report as new, batch; the report as rejected, behind a lock when only the book was missing; nothing after an error |
| PlacementDetails.OutputIsReported | src/matching_engine_base.rs:820-1249 | the same on the bundle path, with a batch of one element per trade |
| PlacementDetails.ErrorsOfOutput | src/matching_engine_base.rs:1000-1249 | the bundle path behind a lock: a known id or a failed batch uses up a number and gives no bundle, and it panics exactly when the batch does |
| PlacementDetails.CancelledIsReported | src/matching_engine_base.rs:1374-1443 | why a cancellation fails, and the unlock of the owner's remaining funds and the report that it emits otherwise, field by field |
| PlacementDetails.CancelInAnyState | src/matching_engine_base.rs:1374-1443 | in any state, also without assets for the symbol: the order leaves its book all the same, and of all balances only the owner's changes, if the unlock succeeds |
| Predictions.VersionsOfMoments | src/user_account.rs:102-148 | the ledger's versions between the touches of one trade, for any overlap of users, with two steps when there is a refund |
| Predictions.AvailsOfMoments | src/user_account.rs:102-148 | the ledger's available balances between the touches of one trade |
| Predictions.SnapshotOfCredit | src/matching_engine_base.rs:738-776 | a predicted credit is the true balance exactly for amounts up to 2^63 - 1 |
| Predictions.CreditIsRecordedAs | src/matching_engine_base.rs:738-776 | what is recorded for any credit: from 2^63 on, 2^64 less than the true balance, and 0 at least |
| Predictions.BatchIsPredicted | src/matching_engine_base.rs:702-806 | over any overlay that shows the ledger's values: versions always right, balances right exactly when all amounts of the batch's trades survive the signed cast |
| Predictions.PlacedBatchPredictsTheLedger | src/matching_engine_base.rs:702-806 | for every accepted order's batch, at every element the four versions are the ledger's just before each touch; the four balances are those right after it, throughout the batch, if and only if every trade's cost, refund and quantity fit a signed integer |
| LargeAmounts.LargeTradeIsMispredicted | src/matching_engine_base.rs:738-776 | a reachable state and an accepted order whose batch has right versions and a wrong balance |
| Predictions.BatchRecordsTheTrades | src/matching_engine_base.rs:778-805 | element by element, the batch records its trades under consecutive output numbers |
| Predictions.LockIsPredicted | src/matching_engine_base.rs:602-619 | in any state, the balance written into the Lock command is the one after it, also when it fails, and its version when it succeeds |
| EngineOutputs.Seal | src/engine_output.rs:446-470 | a built bundle verifies and carries its number and the hash before it |
| EngineOutputs.Builder.Build | src/engine_output.rs:446-465 | nothing without an input; otherwise the sealed bundle of everything collected |
| BundleLaws.TradeEventsAreTheDeal | src/matching_engine_base.rs:1116-1178 | the four events of a trade are its settlement, for every user and asset and any amounts, off by 2^64 for each delta that wraps around in i64 |
| BundleLaws.WhenTradesCancel | src/matching_engine_base.rs:1116-1178 | exactly for which amounts a trade's deltas cancel out in an asset |
| BundleLaws.BatchEventsAreTheChange | src/matching_engine_base.rs:1059-1212 | over a whole batch, for any amounts, the events add up to the change of every balance, off by 2^64 for each delta that wraps around, and their sum per asset is off zero likewise |
| BundleLaws.AveragePriceIsBetween | src/matching_engine_base.rs:1214-1224 | the floored average price lies between any lower and upper bound of the trade prices |
| BundleLaws.ReportIsConsistent | src/matching_engine_base.rs:1214-1242 | filled plus remaining is the quantity, filled is all that crosses, the status says which case, the average never violates the limit |
| BundleContents.RejectedBundle | src/matching_engine_base.rs:886-1040 | from any state, the bundle of a rejected order: request, number and link; a report with status 5, nothing filled, the whole quantity remaining and no price; no trades, placements or completions, and no event but a lock taken before the missing book was found |
| BundleContents.AcceptedBundle | src/matching_engine_base.rs:1049-1249 | the bundle of an accepted order: request, number, link and symbol; one trade output per trade with assets and refund; status, filled, remaining and average from the listed trades; placement, and completion exactly when filled |
| BundleContents.OutputBatchRecordsTheTrades | src/matching_engine_base.rs:1181-1201 | element by element, the bundle path's batch records its trades under the bundle's number |
| BundleContents.EventsInOrder | src/matching_engine_base.rs:957-1178 | the events of an accepted bundle one by one: the lock with number and balances after it, then four per trade, whose balance, kind and reference, each numbered one above the version before it |
| BundleContents.HashCovers | src/engine_output.rs:244-309 | two bundles have the same hashed content exactly when they agree in everything but placements, completions, trade symbols and whether a balance is 0 or not given |
| BundleTheorems.OutputIsPlacement | src/matching_engine_base.rs:820-1249 | from a sound state the bundle path accepts the same orders and reaches the same state as the plain path; only a duplicate id gives no bundle, and uses up a number |
| BundleTheorems.EveryBundleIsZeroSum | src/matching_engine_base.rs:957-1178 | what the deltas of every bundle, accepted or rejected, sum to in every asset: zero if and only if as many debits as credits wrap around |
| BundleTheorems.WhenLockCancels | src/matching_engine_base.rs:957-968 | the two deltas of a lock cancel out unless its amount is exactly 2^63 |
| BundleTheorems.BundleTellsTheTruth | src/matching_engine_base.rs:957-1178 | for any amounts, what an accepted bundle's deltas say of every balance against its change, and that they tell the truth if and only if as many of them wrap around in the lock as in the trades |
| BundleTheorems.CastableBundleTellsTheTruth | src/matching_engine_base.rs:957-1178 | when the lock and every trade's amounts fit a signed integer, the deltas are exactly the change of every user's balances in every asset, and sum to zero |
| LargeAmounts.LargeLockMakesTheBundleLie | src/matching_engine_base.rs:957-968 | a reachable engine and an accepted order, with no trade at all, whose bundle reports a credit where funds were locked |
| LargeAmounts.HalfWordLockIsNotZeroSum | src/matching_engine_base.rs:957-968 | a reachable engine and an accepted order whose bundle's deltas sum to -2^64 |
| BundleTheorems.TakerKeepsFrozen | src/matching_engine_base.rs:957-1178 | the events of lock and fills together leave the taker frozen exactly limit price times remaining quantity (a buy) or the remaining quantity (a sell), if and only if the fills wrap around as often as the lock, in particular for every lock below 2^63 |
| BundleTheorems.BundleVersionsAreRight | src/matching_engine_base.rs:1074-1096 | the versions behind the events' numbers are the ledger's just before each touch |
| BundleTheorems.BundleReportIsConsistent | src/matching_engine_base.rs:1214-1242 | the report inside an accepted bundle, and that completion is announced exactly for filled orders |
| RunningTotals.RunningTotalsFit | src/matching_engine_base.rs:1049-1062 | for every accepted order the running totals fit: the filled quantity is within the order's, the total cost within the supply of the quote asset |
| BundleTheorems.PublishedIsProduced | src/matching_engine_base.rs:840-845 | whatever the engine does, failing calls included, its bundles verify, strictly increase and link to one another |
| BundleTheorems.EndToEnd | src/bin/settlement_service.rs:549-594 | any run, any in-order delivery with rewinds, any batch cuts: the consumer accepts precisely the bundles reached, once each and in order |
| BundleTheorems.MixedRunsAreSound | src/matching_engine_base.rs:555-1249 | the collateral invariant over runs that mix both order paths with everything else |
| ChainConsumer.VerifyBatch | src/bin/settlement_service.rs:549-594 | the loop computes the specified fold: accepted bundles and chain state |
| ChainConsumer.NextInStream | src/bin/settlement_service.rs:549-594 | on any stream and from any state, what becomes of the next bundle by its number: old ones are skipped; the expected one is accepted exactly when it links and verifies; one beyond a gap exactly when it verifies, whatever it links to, and a damaged one leaves the state just before it |
| ChainConsumer.LossyDelivery | src/bin/settlement_service.rs:549-594 | with bundles of a produced chain missing anywhere, every delivered bundle is accepted |
| ChainConsumer.BatchCutsDoNotMatter | src/bin/settlement_service.rs:549-594 | how a stream is cut into batches does not change what is accepted |
| ChainConsumer.AcceptedIsSequenced | src/bin/settlement_service.rs:549-594 | on any stream, accepted numbers strictly increase, accepted bundles verify, neighbours with consecutive numbers chain |
| ChainConsumer.ReprocessingDoesNothing | src/bin/settlement_service.rs:549-594 | the same batch again accepts nothing and leaves the state unchanged |
| ChainConsumer.ExactlyOnce | src/bin/settlement_service.rs:549-594 | for any produced chain and in-order delivery, exactly the reached prefix is accepted |
| MatchBatches.TempMaps.GetAndAddVersion | src/matching_engine_base.rs:728-736 | the version before, read through to the ledger, while the entry moves on |
| MatchBatches.TempMaps.GetAndUpdateBalance | src/matching_engine_base.rs:738-755 | the balance after the signed change, read through to the ledger |
| MatchBatches.BuildMatchBatch | src/matching_engine_base.rs:702-805 | the loop builds the specified batch and moves the output counter once per trade |
| MatchBatches.BuildOutputs | src/matching_engine_base.rs:1049-1206 | the bundle loop builds the specified batch, trades, events and totals |
| MatchingEngines.MatchingEngine.RegisterSymbol | src/matching_engine_base.rs:402-417 | a taken index is refused; otherwise an empty book and the assets, and no other book changes |
| MatchingEngines.MatchingEngine.AddOrder | src/matching_engine_base.rs:420-493 | an unknown symbol or a known id is refused before the ledger is touched; otherwise outcome, state and recorded commands are those of placing, after a failed batch too |
| MatchingEngines.MatchingEngine.ProcessOrderLogic | src/matching_engine_base.rs:555-816 | outcome, engine, shadow accounts and recorded commands are those of the specification; books, generator and counter after a duplicate id and after a failed batch |
| MatchingEngines.MatchingEngine.ProcessOrderWithOutput | src/matching_engine_base.rs:820-1249 | bundle, outcome, engine, chain head and recorded commands are those of the specification; the counter moves in every case; books and generator after each error, which comes after a lock that succeeded |
| MatchingEngines.MatchingEngine.PlaceAndCommit | src/ledger.rs:879-892 | shadow, place, commit or drop: it is committed exactly when the order ends with Ok and every recorded command fits a segment; the log grows by exactly the recorded commands, and by nothing after an error; after a commit engine and ledger are in the specified state and the log stays faithful if and only if the order was accepted or its refusal left no trace; every snapshot the ledger could be rebuilt from stays one |
| MatchingEngines.MatchingEngine.ProcessCancel | src/matching_engine_base.rs:1374-1443 | the errors in order, the removal, and the unlock and report that are emitted |
| MatchingEngines.MatchingEngine.CancelOrder | src/matching_engine_base.rs:1321-1360 | symbol 0 stands for the first book that knows the id |
| MatchingEngines.CancelWithoutSymbol | src/matching_engine_base.rs:1321-1443 | cancelling with symbol 0 succeeds exactly when the id rests in the first book that knows it; otherwise nothing moves and the stale id is gone |
| MatchingEngines.MatchingEngine.FindSymbol | src/matching_engine_base.rs:1363-1372 | the smallest symbol whose book knows the id, if any |
| MatchingEngines.EmittedUnlockIsTheCancellation | src/matching_engine_base.rs:1374-1443 | applying the emitted commands to any ledger is the specified cancellation |
| MatchingEngines.CommandsTellTheState | src/ledger.rs:566-615 | replaying what an order recorded gives the very accounts it led to if and only if it was accepted or its refusal left no trace |
| TradeIds.NextIdGrows | src/fast_ulid.rs:81-93 | the next id is larger exactly when the last one is not the largest 64-bit number |
| TradeIds.NextIdDecodes | src/fast_ulid.rs:81-93 | the time and the counter in the next id: those of the clock when its part is larger than the last id, otherwise those of the last id counted on |
| TradeIds.IdsIncreaseWithin | src/fast_ulid.rs:81-93 | for timestamps in any order, ids strictly increase while the largest timestamp part and the number of calls together fit 64 bits |
| TradeIds.IdsIncreaseUntilWrap | src/fast_ulid.rs:81-93 | without any bound, ids strictly increase exactly when none but the last is the largest number |
| TradeIdRuns.TradesNameTheirOrders | src/matching_engine_base.rs:82-92 | the i-th trade is numbered on, at the maker's price, with buyer and seller in their places on either side |
| TradeIdRuns.RunTradesBound | src/matching_engine_base.rs:63-178 | a run over both paths makes at most one trade per action and per order it found in the books |
| TradeIdRuns.RunTakesIssuedIds | src/matching_engine_base.rs:555-1249 | the trade ids of a run, over all books and both order paths, are the ids one generator issues at the trades' times |
| TradeIdRuns.TradeIdsIncreaseOverRuns | src/fast_ulid.rs:81-93 | over every run of both paths, across all books and for timestamps in any order, trade ids strictly increase while the clock, the resting orders and the number of actions together stay within 64 bits |
| TradeIdRuns.TradeIdsIncreaseUntilWrap | src/fast_ulid.rs:81-93 | without any bound, they strictly increase exactly until the largest number is issued |
| TradeIds.FastUlidHalfGen.GenerateFromTs | src/fast_ulid.rs:81-93 | in place: the specified id, which becomes the last one |
| BitArithmetic.ShiftsAreProducts | src/fast_ulid.rs:226-307 | on 64-bit words the shifts of the id generators and encoders are multiplications and divisions |
| BitArithmetic.MasksAreRemainders | src/fast_ulid.rs:156-163 | the masks are remainders |
| BitArithmetic.FieldsAddUp | src/fast_ulid.rs:226-244 | on 64-bit words the three fields of an id share no bit, so putting them together is adding them |
| BitArithmetic.DigitsAddUp | src/fast_ulid.rs:293-306 | shifting in a digit, and putting the two halves together, is multiplying and adding |
| BitArithmetic.HeaderAddsUp | src/common_utils.rs:75-86 | version and length share no bit |
| SnowflakeIds.IdOrder | src/fast_ulid.rs:226-244 | ids of one machine are ordered like time modulo 2^44 and then sequence |
| SnowflakeIds.IdDecodes | src/fast_ulid.rs:232-244 | an id decodes to machine and sequence always, and to its time exactly when that fits 44 bits |
| SnowflakeIds.PartsRoundTrip | src/fast_ulid.rs:232-244 | every 64-bit id is put together again from its decoded fields |
| SnowflakeIds.IdsStrictlyIncrease | src/fast_ulid.rs:202-229 | for any clock readings and either strategy, ids strictly increase and decode, while the largest reading plus the number of calls stays under 44 bits |
| SnowflakeIds.NextFollowsTheClock | src/fast_ulid.rs:202-229 | the time of the next id is the larger of clock and last time, one more exactly when that millisecond's sequences are used up; a new millisecond starts at 0 or at the drawn value, otherwise the sequence is one more |
| SnowflakeIds.IdsFollowTheClock | src/fast_ulid.rs:202-229 | the same over every run, read off the ids |
| SnowflakeIds.SnowflakeGen.Generate | src/fast_ulid.rs:202-229 | in place: the specified next state and its id |
| Base32.RoundTrip | src/fast_ulid.rs:246-307 | decoding undoes encoding for every 64-bit id |
| Base32.EncodeUndoesDecode | src/fast_ulid.rs:246-307 | encoding undoes decoding exactly when the first digit is below 16 |
| Base32.DecodableIffWellFormed | src/fast_ulid.rs:263-307 | a string decodes exactly when it is 13 letters of the alphabet |
| Base32.ErrorsOf | src/fast_ulid.rs:263-307 | the error of a string that does not decode: its length if not 13, otherwise the first position that holds no letter |
| Base32.Letters32 | src/fast_ulid.rs:7 | the alphabet is the digits and the capitals other than I, L, O and U |
| Base32.LowerCaseIsRefused | src/fast_ulid.rs:268-282 | lower case does not decode |
| Base32.OrderIsLexicographic | src/fast_ulid.rs:246-261 | ids are ordered like their strings |
| Base32.RunSortsLexicographically | src/fast_ulid.rs:202-261 | the strings of every run sort in the order of the calls |
| Base32.ToStrBase32 | src/fast_ulid.rs:246-261 | the encoding loops give the specified string |
| Base32.FromStrBase32 | src/fast_ulid.rs:263-307 | the decoding loops give the specified id or the first error |
| WalRecords.HeaderRoundTrip | src/common_utils.rs:75-86 | version and length survive packing exactly for lengths up to 24 bits, and every header is the packing of its fields |
| WalRecords.HeaderLayout | src/common_utils.rs:57-60 | the first header byte is the version, the next three the length |
| WalRecords.RecordLayout | src/common_utils.rs:96-112 | where the writer puts what: version, length, checksum over both and the data, data; every number byte by byte, high byte first |
| WalRecords.RecordRoundTrip | src/common_utils.rs:96-147 | behind a written record, whatever follows, the reader finds exactly that record |
| WalRecords.ReadIsCanonical | src/common_utils.rs:114-147 | the bytes of any record that is read are the ones the writer would write |
| WalRecords.TruncatedIsTooShort | src/common_utils.rs:114-136 | a record cut off anywhere is too short |
| WalRecords.ChecksumDecides | src/common_utils.rs:114-147 | for any header, checksum and data, the record is read if and only if the checksum is the right one; otherwise both are reported |
| WalRecords.EmptyIsRefused | src/common_utils.rs:123-125 | empty data is written and never read back |
| WalRecords.StreamRoundTrip | src/common_utils.rs:96-147 | reading a written stream gives the same list and leaves exactly what follows it |
| WalRecords.WholeStreamIsConsumed | src/common_utils.rs:96-147 | a written stream is read back to its last byte |
| WalRecords.TornStream | src/common_utils.rs:114-136 | a stream that breaks off inside a record gives every record before it |

## Left out

- Exchanges.PlaceKeepsSound: asks that price times quantity fits 64 bits; the engine multiplies without a check.
- Exchanges.EveryRunIsCollateralised: asks the same of every order, that deposits keep an asset's supply in 64 bits, and that a symbol trades two different assets.
- TradeIdRuns.TradeIdsIncreaseOverRuns: an order whose batch fails leaves the generator where it was, unlike the code; from sound states no batch fails.
- BundleTheorems.OutputIsPlacement: asks that price times quantity fits 64 bits, as do the other theorems on accepted bundles and on replayed runs.
- LedgerLaws.SupplyConserved: excludes TradeSettle, which need not be zero-sum (LedgerLaws.TradeSettleOutcome).
- FailedTrees.FailedTreeIsAPrefix: asks that the supplies together with all deposits of the tree fit 64 bits; beyond, a failing unlock can leave a changed balance behind (Balances.OpEffect).
- FailedCommands.RecoveryAfterRefusals: all segment files are there, in the order in which they were created; of files whose names carry the same number, which only refusals and empty segments make, the program leaves the order to the directory.
- MatchingEngines.MatchingEngine.PlaceAndCommit: when the log refuses a record the ledger is unchanged but the engine's book already holds the order.
- Wal.WalSegment.Append: the memory map is an array; file names, digests in file names, flushing and retention of old files are not modelled.
- WalSpec.SegmentRoundTrip: the iterator's position is the unread rest of the bytes, passed from call to call.
- Reopening an existing segment file; its scan strides differently from the writer.
- Counters (sequence numbers, match counter, output counter) do not overflow in the model.
- The order type: the code stores it and never looks at it.
- The engine's input log, state hash, snapshots and their loading; batches of orders, which repeat the single-order path.
- Ledger listeners and asynchronous snapshots.
- FastUlidHalfGen's random generator and 14-character strings; decimal strings.
- A bundle's trade symbols, placements, completions and its own hash field are outside the hash, as in the program; serialisation inside the hash is one uninterpreted function.
- Message brokers, databases, HTTP, transfers, order history, configuration and decimal conversion.
