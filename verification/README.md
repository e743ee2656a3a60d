# Aggora Coin: a verified model

A Dafny model of the Aggora Coin ledger: the single-writer state machine over an embedded store, the
economic iteration it runs, the Proof-of-History log and Merkle root it commits to, its two
sliding-window guards, and the simulator that drives the same economics. `dafny verify dfyconfig.toml`
checks everything.

## How the project is laid out

| files | what they hold |
|---|---|
| `Arith`, `Rounding`, `Sums`, `Sorting`, `Encoding`, `Types` | 64-bit saturating arithmetic, rounding, finite sums, sorting, fixed-width encodings, the records of the chain |
| `Gini`, `Economy`, `EconomyLaws`, `Engine`, `Audit`, `AuditUnique` | the Gini metric, the iteration stage by stage, its laws, the same iteration as loops over mutable lists, and an audit that determines its result |
| `Merkle`, `Poh`, `Canonical`, `Layouts` | Merkle root, hash chain, signed operator message, byte layouts |
| `WalletMaps`, `Storage` | the wallet tree as a map, the store as a class whose writes are recorded in order |
| `Ledger`, `Counters`, `Replay`, `History`, `Archive`, `Invariant` | what one accepted transaction does, and what every one of them keeps |
| `Requests`, `Effects`, `Node`, `Signatures`, `CoinState` | requests split at the write lock, what a served request amounts to, interleavings, signatures over runs, and the state machine as a class |
| `Crash`, `TransferCrash`, `Growth`, `LiveGini`, `Witnesses` | crash prefixes, long-run bounds, the cached metric, runs of requests in which a hypothesis fails |
| `Guards` | rate limit and operator replay guard |
| `SimTransfers`, `SimEvents`, `Simulator` | the simulator with an arbitrary random oracle |

The main results are about whole runs: `Node.Reachable` shows that one invariant holds at every node of
every interleaving, and the lemmas after it read off what that means (the log rebuilds the ledger, the
counters equal a scan, nonces are used once, the last hash fixes the history, the index is complete).
`CoinState.CoinState` is the imperative code; each of its methods is proved to do what the two phases
in `Requests` say, and those two phases are what interleaves in `Node`.

## Modelling choices

- `f64` is `real`; `as u64` after `floor` is a floor that saturates at both ends. `ln` and `powf` are
  parameters: `ln` is monotone with `ln(1) = 0`, `powf` is non-negative, and antitone in the base for
  negative exponents where a lemma says so. Results are about exact arithmetic.
- Digests are symbolic: a digest is its preimage, and the all-zero hash is separate. Hash preimages of
  leaves, nodes and log entries are written out symbol by symbol; serialised payloads are records.
- Public keys, captcha tokens and ids arrive decoded: `None` stands for text that does not decode.
  Ed25519 verification is an arbitrary predicate.
- `sum()` is a mathematical sum. The theorems carry the hypothesis that supply, wallet count and tick
  stay within 64 bits (`Ledger.Fits`); `Growth.GrowthIsClean` discharges it for runs in which only
  iterations mint, and `Counters.SeedExact` and `Counters.ChargeExact` say exactly what a mint does
  without it.
- The store lists wallets in an arbitrary order; everything proved holds for every order.
- `burn_min <= burn_max` is required by the iteration, because `clamp` panics otherwise.
- The iteration does not check its derived faucet ids against stored wallets.
  `Counters.IterateExact` shows that the counters survive an iteration that fits exactly when none is taken,
  `Witnesses.FaucetKeyTaken` gives a run in which one is, and run theorems assume that nobody
  registers the key of a future iteration (`Ledger.NoFutureFaucetKey`).
- A seed file that stops at an undecodable key is refused, but what it installed before stays, in memory
  ahead of the persisted state. `Requests.RefusedExact` and `Crash.PersistedInRun` say exactly when, and
  `Witnesses.RefusedSeedLeavesWallet` gives a run.
- The replay guard records the timestamp of the charge body; only the header timestamp is compared with
  the clock. `Guards.RepeatExactly` says what the guard then blocks, and `Guards.StaleTimestampRepeats`
  what it does not.
- Clock readings of the rate limiter are assumed to come in order; the replay guard's are not.
- Where code and documentation differ, the model follows the code: calibration rescales the pool
  (docs/concept.md:774 only warns), inflation compares both ends of the previous cycle (section D.4)
  rather than two starts (section I), the faucet share is taken before the burn, and an iteration that
  is interrupted is locked rather than rolled back (section I.1).

## Model

| member | source | states |
|---|---|---|
| `Gini.ComputeGiniFromBalances` | crates/aggora-economy/src/lib.rs:16-34 | the sort-and-weight computation returns the pairwise double sum of section D.12 on every list, in [0, 1) |
| `Gini.SortedFormIsPairwise` | crates/aggora-economy/src/lib.rs:26-33 | on sorted balances the closed form equals the sum of all absolute differences over twice count times total |
| `Gini.PairwisePermutation` | crates/aggora-economy/src/lib.rs:20-21 | the metric does not depend on the order of the wallets |
| `Gini.PairwiseRange` | crates/aggora-economy/src/lib.rs:32-33 | the coefficient lies in [0, (N-1)/N] before the clamp |
| `EconomyLaws.SharesWithinPool` | crates/aggora-economy/src/lib.rs:135-166 | floored proportional rewards never exceed the redistribution pool |
| `EconomyLaws.ResidualBound` | crates/aggora-economy/src/lib.rs:149-166 | with positive total weight the rounding residual is at most N - 1 |
| `EconomyLaws.PenaltiesCovered` | crates/aggora-economy/src/lib.rs:82-104 | no penalty exceeds the balance it is taken from, before or after calibration |
| `EconomyLaws.CalibratedPoolBound` | crates/aggora-economy/src/lib.rs:92-104 | with positive pool and target the calibrated pool is at most 1.2 times the target |
| `EconomyLaws.ScalingDownIsTight` | crates/aggora-economy/src/lib.rs:94-101 | scaling down never hits a balance cap and lands in (target - N, target] |
| `EconomyLaws.PenaltyMonotone` | crates/aggora-economy/src/lib.rs:72-102 | a richer wallet never pays less, before or after calibration |
| `EconomyLaws.PenaltyWithinRate` | crates/aggora-economy/src/lib.rs:82-90 | for every rate, nobody pays more than the rate of the balance or the balance itself, and the richest wallet pays exactly the smaller; a rate in [0, 1] is always the smaller |
| `EconomyLaws.BurnRateFollowsInflation` | crates/aggora-economy/src/lib.rs:61-69 | the burn rate stays in its bounds, is the clamped base on target and never falls when inflation rises |
| `EconomyLaws.ActivityMoves` | crates/aggora-economy/src/lib.rs:123-131 | the activity score stays in [0, 1] and moves up for active, down for idle wallets |
| `EconomyLaws.RewardMonotone` | crates/aggora-economy/src/lib.rs:135-164 | a wallet at least as active and no richer never gets a smaller share |
| `EconomyLaws.AllocationExact` | crates/aggora-economy/src/lib.rs:105-120 | faucet share, burn and redistribution pool are exactly the penalty pool; faucet parts are exactly the need (what each part is: `Audit.BurnFollowsRate`) |
| `EconomyLaws.RedistributionConserves` | crates/aggora-economy/src/lib.rs:104-182 | everything taken is burned, given to the faucet or paid out, under both residual policies |
| `EconomyLaws.NothingSaturates` | crates/aggora-economy/src/lib.rs:107-182 | no saturating difference or sum of the pipeline saturates, and the faucet need is exact exactly when the product fits |
| `EconomyLaws.WalletUpdate` | crates/aggora-economy/src/lib.rs:122-182 | an existing wallet ends at balance - penalty + reward and keeps id, nonce and activity mark |
| `EconomyLaws.IterationConserves` | crates/aggora-economy/src/lib.rs:46-226 | burned + faucet share + rewards = penalties for every wallet list; post supply = snapshot - burned + faucet mint exactly when the endowment of the new wallets fits in 64 bits, which a post supply that fits implies |
| `Audit.IterationAudited` | crates/aggora-economy/src/lib.rs:46-226 | every iteration passes an audit in inequalities: header and measured inflation, penalties by logarithm and their calibration, faucet share and burn of the whole pool, proportional shares, the residual by policy, every field of every old and new wallet |
| `AuditUnique.AuditDetermines` | crates/aggora-economy/src/lib.rs:46-226 | two results that pass the audit of the same iteration are the same but for the commit id, so the audit leaves nothing open |
| `Audit.BurnFollowsRate` | crates/aggora-economy/src/lib.rs:107-120 | the burn is the rate of the whole penalty pool to less than one unit unless it takes all the faucet left, with only the residual on top; the faucet takes its share to less than one unit unless it covers the need |
| `Audit.CommitIdFixesCommit` | crates/aggora-economy/src/lib.rs:224-258 | commits with the same id record the same |
| `Engine.Calibrate` | crates/aggora-economy/src/lib.rs:92-102 | the in-place rescaling loop computes the calibrated penalties |
| `Engine.RewardAll` | crates/aggora-economy/src/lib.rs:151-164 | the reward loop credits the shares, resets activity and totals what was distributed |
| `Engine.ExecuteIteration` | crates/aggora-economy/src/lib.rs:46-226 | the passes together compute the specified iteration |
| `Encoding.DigitsOrder` | crates/aggora-storage/src/lib.rs:101-131 | zero-padded and big-endian keys sort exactly in numeric order |
| `Canonical.MessageInjective` | crates/aggora-crypto/src/lib.rs:122-126 | requests with equal signed messages are the same up to the case of the method exactly when methods and paths are equally long, and always when both are on one line |
| `Canonical.MessageLayout` | crates/aggora-crypto/src/lib.rs:122-126 | the message is the method without small letters, the path, the timestamp as a numeral without leading zeros and the body, one line each |
| `Canonical.CaseIsIgnored` | crates/aggora-crypto/src/lib.rs:123 | methods count as equal exactly when they differ in the case of letters at most |
| `Canonical.ConfusedExactly` | crates/aggora-crypto/src/lib.rs:122-126 | for every request: another request has the same message exactly when the message can be cut at other newlines into a text without small letters, a path and a 64-bit numeral |
| `Canonical.MistakenExactly` | crates/aggora-crypto/src/lib.rs:122-126 | for every request: its message is also that of a different one-line request exactly when its method or path holds a newline and the third line reads as a 64-bit numeral |
| `Canonical.NewlineInPathCollides` | crates/aggora-crypto/src/lib.rs:122-126 | with a newline in the path two requests share a message |
| `Merkle.MerkleRootHex` | crates/aggora-crypto/src/lib.rs:128-156 | the layer loop terminates and computes the recursive duplicate-last tree; undecodable ids fail |
| `Layouts.SmallRoots` | crates/aggora-crypto/src/lib.rs:128-156 | the roots of none, one, two and three ids, down to the tagged and ordered bytes that are hashed |
| `Merkle.RootCommits` | crates/aggora-crypto/src/lib.rs:128-156 | equal-length lists with equal roots hold the same decoded ids in the same order |
| `Merkle.RootsEqualExactly` | crates/aggora-crypto/src/lib.rs:128-156 | two lists of ids, of any lengths, have the same root exactly when doubling the ends of odd layers fills them up to the same bottom layer |
| `Merkle.SixAndEight` | crates/aggora-crypto/src/lib.rs:143-153 | lists of six and eight ids that share a root because a layer further up is doubled |
| `Merkle.RepeatedLastId` | crates/aggora-crypto/src/lib.rs:144-146 | repeating the last id of an odd list of three or more keeps the root |
| `Merkle.SingleIdIsCommitted` | crates/aggora-crypto/src/lib.rs:132-155 | a single id is told apart from two copies of it |
| `Poh.PreimageInjective` | crates/aggora-poh/src/lib.rs:17-24 | all four fields can be read back from the separator-free hash buffer |
| `Layouts.EntryLayout` | crates/aggora-poh/src/lib.rs:17-50 | an entry hash is over the previous hash, the tick in eight bytes that read back as it, the root of the ids and the leader, in this order |
| `Poh.LastHashCommits` | crates/aggora-poh/src/lib.rs:17-61 | two chains end in the same hash exactly when they agree on length, on every leader and, up to the filling of the Merkle tree, on all ids; equally many ids are the same ids |
| `Poh.LastHashAmbiguity` | crates/aggora-poh/src/lib.rs:33-34 | with several ids in an entry the hash does not fix their number |
| `Storage.IndexKeyParts` | crates/aggora-storage/src/lib.rs:101-114 | a prefix scan selects the keys of one wallet, and each part has its place in the key |
| `Storage.IndexKeyInjective` | crates/aggora-storage/src/lib.rs:101-104 | keys of different wallets, 64-bit ticks or transactions differ |
| `Layouts.IndexKeyLayout` | crates/aggora-storage/src/lib.rs:101-104 | an index key is wallet, colon, twenty ASCII digits that read back as the tick, colon, id |
| `Layouts.TickKeyLayout` | crates/aggora-storage/src/lib.rs:130-145 | log and commit keys are eight bytes that read back as the tick, highest first |
| `Storage.CoinStorage.PutTransaction` | crates/aggora-storage/src/lib.rs:98-105 | one record and one index entry per named wallet, in that order |
| `Storage.CoinStorage.ListWallets` | crates/aggora-storage/src/lib.rs:74-76 | every stored wallet exactly once |
| `Storage.CoinStorage.ScanIndex` | crates/aggora-storage/src/lib.rs:111-117 | the prefix scan yields exactly the ids under the wallet's prefix, without repetition when each transaction has one entry |
| `Storage.CoinStorage.ListTransactionsForWallet` | crates/aggora-storage/src/lib.rs:111-128 | the archived transactions behind the last `limit` scanned ids in the order of their texts, last first, none skipped, without repetition when each transaction has one entry |
| `Storage.CoinStorage.LatestPohEntries` | crates/aggora-storage/src/lib.rs:130-141 | reading the big-endian keys backwards yields the entries with the largest ticks, in decreasing order |
| `Counters.SeedExact` | crates/aggora-state/src/lib.rs:403-407 | a wallet-creating mint keeps supply, wallet count and active count equal to a scan exactly when supply and wallet count still fit in 64 bits |
| `Counters.ChargeExact` | crates/aggora-state/src/lib.rs:438-463 | a charge keeps the counters exactly when the supply fits in 64 bits or no other wallet holds anything |
| `Counters.MoveKeeps` | crates/aggora-state/src/lib.rs:506-538 | a transfer keeps the counters |
| `Counters.BurnKeeps` | crates/aggora-state/src/lib.rs:570-589 | a burn keeps the counters |
| `Counters.IterateExact` | crates/aggora-state/src/lib.rs:602-621 | an iteration keeps the counters exactly when its post supply and wallet count fit in 64 bits and no derived faucet id is taken |
| `Counters.SoundStep` | crates/aggora-state/src/lib.rs:354-709 | every admissible operation keeps the counters equal to a scan |
| `Witnesses.FaucetKeyTaken` | crates/aggora-economy/src/lib.rs:184-203 | a run of two requests: a seed file installs a derived key and the next iteration breaks the counters |
| `Witnesses.ChargeOverflows` | crates/aggora-state/src/lib.rs:439-461 | a run of two requests: a seed file installs two wallets and a charge past 64 bits makes the supply counter differ from the scan |
| `Witnesses.RefusedSeedLeavesWallet` | crates/aggora-state/src/lib.rs:656-706 | a run of one request: a seed file with a good and an undecodable key is refused, and yet tick, wallet and mint stay, unpersisted |
| `Witnesses.SomeRun` | crates/aggora-state/src/lib.rs:354-416 | the hypotheses of the run theorems are met by a request that arrives and is served |
| `Replay.ExistingReplays` | crates/aggora-economy/src/lib.rs:122-182 | the penalty and reward recorded for a wallet are the ones applied to it |
| `Replay.EndowmentIsSeed` | crates/aggora-economy/src/lib.rs:107-120 | (faucet_from_penalty + faucet_from_mint) / number of new wallets is what each new wallet received |
| `Replay.ReplayStep` | crates/aggora-state/src/lib.rs:354-709 | folding one transaction follows every admissible operation |
| `History.NoncesStep` | crates/aggora-state/src/lib.rs:499-515 | outgoing nonces stay 0, 1, 2, ... in order |
| `History.NewIdIsNew` | crates/aggora-state/src/lib.rs:805-871 | a new transaction id differs from every earlier one |
| `History.CommitFollowsStep` | crates/aggora-state/src/lib.rs:602-619 | a commit is numbered in order, starts from the current supply, balances, and steers by the previous commit |
| `Archive.AppendArchives` | crates/aggora-state/src/lib.rs:789-802 | appending extends archive, index and hash chain by exactly the new transaction |
| `Archive.PohLogIsChain` | crates/aggora-poh/src/lib.rs:52-61 | the log of every history is a chain accepted link by link from the zero hash |
| `Archive.ReadBackIsLog` | crates/aggora-storage/src/lib.rs:98-132 | the store alone yields the accepted transactions in tick order |
| `Archive.ScanFindsNamed` | crates/aggora-storage/src/lib.rs:98-127 | a prefix scan finds exactly the transactions that name the wallet |
| `Archive.PaddedOrder` | crates/aggora-storage/src/lib.rs:101-131 | index and log keys sort in tick order for every 64-bit tick |
| `Invariant.InvStep` | crates/aggora-state/src/lib.rs:354-802 | every admissible operation keeps the whole invariant, with its transaction appended to the history |
| `Requests.ValidIsWellFormed` | crates/aggora-state/src/lib.rs:418-481 | what passes the phase before the lock has a positive amount, two parties and the sender's own key (its signature: `Signatures.ForgedNeverEnters`) |
| `Requests.RefusedIffDisabled` | crates/aggora-state/src/lib.rs:485-504 | under the lock a request is refused exactly when its operation is not enabled |
| `Requests.SeedLoopExact` | crates/aggora-state/src/lib.rs:656-705 | a seed file fails exactly when a key does not decode, and stores exactly the wallets named before that key |
| `Requests.RefusedExact` | crates/aggora-state/src/lib.rs:648-709 | a refused request leaves the ledger unchanged, except exactly a seed file that names an unknown wallet before an undecodable key |
| `Effects.CreationEffect` | crates/aggora-state/src/lib.rs:354-416 | a creation is answered by captcha, key, lock and stored wallet in this order; accepted, it adds one wallet with `initial_seed_agc` million micro-units, the same to the supply, one matching mint, and changes nothing else |
| `Effects.ChargeEffect` | crates/aggora-state/src/lib.rs:418-465 | an accepted charge adds the requested amount to the named wallet and the supply and records amount, euro figure, operator and time in one mint; refusals and their order are exact |
| `Effects.TransferEffect` | crates/aggora-state/src/lib.rs:467-540 | an accepted transfer moves the requested amount between the named wallets, field by field, and records itself; refusals, the signature among them, and their order are exact |
| `Effects.BurnEffect` | crates/aggora-state/src/lib.rs:542-591 | an accepted burn takes the requested amount from the signer's wallet and the supply; refusals and their order are exact |
| `Effects.SeedEffect` | crates/aggora-state/src/lib.rs:648-709 | a seed file installs each unknown wallet by its first entry, with that entry's balance or the default seed and one matching mint, and leaves the rest alone |
| `Effects.IterationEffect` | crates/aggora-state/src/lib.rs:593-639 | an accepted iteration writes its result's wallets, every field of the new state, and the commit as a transaction and under its number |
| `Effects.BlankIsTrimmedAway` | crates/aggora-state/src/lib.rs:361 | a token or signature counts as missing exactly when trimming leaves nothing |
| `Signatures.NothingSpentUnsigned` | crates/aggora-state/src/lib.rs:776-787 | in every run every archived transfer and burn carries its owner's signature over its own id; a blank one may stand in only where the development switch was on |
| `Signatures.ForgedChangesNothing` | crates/aggora-state/src/lib.rs:776-787 | a spend with a foreign key or a signature that neither verifies nor is excused is refused, forgotten on arrival, and changes nothing |
| `Signatures.ForgedNeverEnters` | crates/aggora-state/src/lib.rs:467-482 | no such request ever gets the lock |
| `Node.Serializable` | crates/aggora-state/src/lib.rs:467-591 | any interleaving ends in the ledger of a run in which every request arrives and enters at once, in lock order, and every request meets the same ledger there |
| `Node.AcceptedAlone` | crates/aggora-state/src/lib.rs:485-504 | such a serial run of the accepted requests alone ends in the same ledger, provided no seed file was refused after installing something |
| `Node.EntryIsServed` | crates/aggora-state/src/lib.rs:354-709 | every lock entry of every run serves its request with the parameters and the guard answer it captured on arrival, so the effects above are those of runs |
| `Node.TicksFollowLockOrder` | crates/aggora-state/src/lib.rs:789-802 | what a lock entry accepts is appended behind everything accepted before it |
| `Node.Reachable` | crates/aggora-state/src/lib.rs:354-709 | the invariant holds at every node of every run under any interleaving |
| `Node.LogRebuildsLedger` | crates/aggora-state/src/lib.rs:354-709 | reading the stored transactions in tick order and folding them rebuilds every balance and nonce |
| `Node.CountersEqualScan` | crates/aggora-state/src/lib.rs:403-621 | total supply, wallet count and active count equal a full scan in every reachable state |
| `Node.NoncesUsedOnce` | crates/aggora-state/src/lib.rs:467-591 | per wallet the accepted transfer and burn nonces are 0..nonce-1, each once, in tick order |
| `Node.OneTransactionPerTick` | crates/aggora-state/src/lib.rs:789-871 | the archive holds exactly one transaction per tick under pairwise distinct ids |
| `Node.IndexIsComplete` | crates/aggora-storage/src/lib.rs:98-128 | the scanned index returns exactly the archived transactions that a wallet takes part in, as payer, payee, or wallet of a commit |
| `Node.LogIsChain` | crates/aggora-state/src/lib.rs:789-802 | the stored log is a chain over ticks 1..current_tick ending in the last hash |
| `Node.LastHashFixesHistory` | crates/aggora-poh/src/lib.rs:17-61 | two nodes with the same last hash have the same transaction id and leader at every tick |
| `Node.CommitsBalance` | crates/aggora-state/src/lib.rs:602-619 | every archived commit starts from the supply before it, balances, and its inflation is (faucet mint - burned) / snapshot of the previous commit |
| `CoinState.CoinState.AppendTxLocked` | crates/aggora-state/src/lib.rs:789-802 | tick, hash, record, index and entry advance together, in the recorded write order |
| `CoinState.CoinState.CreateWallet` | crates/aggora-state/src/lib.rs:354-416 | the method serves a creation request as specified, errors included |
| `CoinState.CoinState.Charge` | crates/aggora-state/src/lib.rs:418-465 | the method consults the replay guard, then serves a charge as specified |
| `CoinState.CoinState.Transfer` | crates/aggora-state/src/lib.rs:467-540 | the method serves a transfer as specified, errors included |
| `CoinState.CoinState.Burn` | crates/aggora-state/src/lib.rs:542-591 | the method serves a burn as specified, errors included |
| `CoinState.CoinState.InstallSeed` | crates/aggora-state/src/lib.rs:648-709 | the loop installs unknown wallets, skips known ones, stops at an undecodable key keeping the earlier ones, and counts what it installed |
| `CoinState.CoinState.ExecuteIterationNow` | crates/aggora-state/src/lib.rs:593-639 | the method runs the iteration as specified and writes in the order the crash analysis assumes |
| `Crash.WritesAreTheIteration` | crates/aggora-state/src/lib.rs:599-624 | all ordered writes together take the store from before the iteration to after it |
| `Crash.CrashTrichotomy` | crates/aggora-state/src/lib.rs:157-161 | after any prefix of the writes, reopening yields what was persisted before (the ledger itself exactly when it was persisted), the full iteration, or a lock |
| `Crash.LockedForever` | crates/aggora-state/src/lib.rs:368-652 | no run from a locked ledger ever changes it |
| `Crash.EntryPersists` | crates/aggora-state/src/lib.rs:408-706 | an accepted job persists its final state, a refused one changes nothing, and a half-installed seed file leaves the persisted state behind |
| `Crash.SeedFailureExact` | crates/aggora-state/src/lib.rs:656-706 | a seed file with an undecodable key leaves the ledger persisted exactly when every entry before that key names a stored wallet |
| `Crash.PersistedInRun` | crates/aggora-state/src/lib.rs:408-706 | in every run a node is persisted exactly when no refused seed file has left wallets behind since the last accepted request |
| `Crash.ReopenExact` | crates/aggora-state/src/lib.rs:157-161 | reopening the store of any node of a clean run gives counters that agree with the wallets, and a log that rebuilds them, exactly under that condition |
| `TransferCrash.WritesAreTheTransfer` | crates/aggora-state/src/lib.rs:534-538 | all ordered writes together take the store from before the transfer to after it |
| `TransferCrash.TransferCrashExact` | crates/aggora-state/src/lib.rs:534-538 | a transfer has no lock: after a crash in it the ledger reopens unlocked, its supply agrees exactly when the crash did not fall between the two wallet writes, and all counters agree exactly when moreover nothing was written, everything was, or both parties were already active |
| `TransferCrash.TransferCrashReplay` | crates/aggora-state/src/lib.rs:534-538 | the log of the reopened ledger rebuilds it exactly when the transfer was complete or had not begun |
| `Growth.GrowthBound` | crates/aggora-economy/src/lib.rs:104-205 | in any run of transfers, burns, refused requests, seed files that name stored wallets only and k iterations, supply <= S0 + k * mint and wallets <= N0 + k * max_new at every node, and every lock entry meets the hypotheses of the run theorems while that fits |
| `Growth.GrowthIsClean` | crates/aggora-economy/src/lib.rs:104-205 | such a run is clean as a whole: nothing saturates |
| `LiveGini.CachedGiniIsLive` | crates/aggora-state/src/lib.rs:620-747 | right after an iteration the cached Gini equals a live recomputation over the stored wallets |
| `Guards.RateLimiter.Check` | crates/aggora-state/src/lib.rs:296-334 | every call is answered as by a limiter that keeps all calls: accepted without a key or a limit, otherwise exactly when fewer than `limit` acceptances lie in the closed trailing window |
| `Guards.NoBurst` | crates/aggora-state/src/lib.rs:292-334 | over any sequence of calls whose limits stay between one and `limit`, no window holds more than `limit` acceptances of a key |
| `Guards.ReplayGuard.Admit` | crates/aggora-state/src/lib.rs:342-352 | whatever the readings and drifts, a call is accepted exactly when no accepted call with its signature has stayed within drift at every reading since |
| `Guards.NoSignatureTwice` | crates/aggora-state/src/lib.rs:336-352 | with ordered readings and drifts never below `drift`, no signature passes twice within `drift` of its timestamp, and every rejection follows an acceptance |
| `Guards.RepeatExactly` | crates/aggora-state/src/lib.rs:342-352 | with ordered readings and a fixed drift the next call with an accepted signature is rejected exactly when the first reading since and its own lie within drift of the recorded timestamp |
| `Guards.StaleTimestampRepeats` | crates/aggora-state/src/lib.rs:427-428 | the same signed charge passes twice in a row when its body timestamp is out of drift, because nothing compares that timestamp with the clock |
| `Guards.LoweredDriftForgets` | crates/aggora-state/src/lib.rs:343-346 | a drift lowered in between lets a signature pass twice |
| `SimTransfers.RandomTransfer` | crates/aggora-economy/src/simulator.rs:201-230 | one attempt: a drawn fraction between 0.0001 and 0.95 of the balance, rounded down, goes to another wallet, both note it, nothing else changes; or it is zero and nothing changes |
| `SimTransfers.SyntheticActivity` | crates/aggora-economy/src/simulator.rs:192-233 | the wallets take their turns in order, each attempting as many transfers as it drew, or fewer exactly when its balance runs out; supply and wallets stay |
| `SimEvents.Shock` | crates/aggora-economy/src/simulator.rs:367-390 | every wallet but one drawn target gives up the clamped share of its balance, rounded down, and notes the target, which gets the sum |
| `SimEvents.Burst` | crates/aggora-economy/src/simulator.rs:316-352 | a burst makes exactly the scripted number of attempts, or none without two wallets, and counts those that moved something |
| `SimEvents.ChargeSome` | crates/aggora-economy/src/simulator.rs:354-365 | each drawn target gets the even part, as often as it was drawn |
| `SimEvents.ApplyEvent` | crates/aggora-economy/src/simulator.rs:299-395 | an event has its own effect in its iteration and none in any other |
| `SimEvents.ApplyScriptedEvents` | crates/aggora-economy/src/simulator.rs:292-395 | the events take effect one after the other, in declaration order, and add exactly their spawned balances and charge bursts |
| `Simulator.Reindex` | crates/aggora-economy/src/simulator.rs:240-247 | exactly the new wallets start over under new indices with their balances; the others stay as they are |
| `Simulator.RunSimulation` | crates/aggora-economy/src/simulator.rs:154-287 | for every draw sequence, each row starts from the wallets and state the row before left, applies its events, then its activity, and reports what the iteration engine commits on the result; it balances: supply before + event mints - burned + faucet mint; the run stops short only where event money or the post supply passes 64 bits |
| `Simulator.InflationFollowsRows` | crates/aggora-economy/src/simulator.rs:249-258 | each row steers its burn rate by the relative growth of the row before it |

## Left out

- REST, WebSocket and CLI layers, configuration loading, operator authentication headers, development keys: plumbing around the modelled methods.
- Ed25519, BLAKE3, hex, base64 and JSON: an arbitrary predicate, symbolic digests, decoded inputs and records.
- IEEE rounding, NaN and precision loss above 2^53: exact reals are used; with rounding the floored rewards could exceed the pool and the source's saturating subtraction would hide it.
- Overflow of `iteration_tx_count` (32 bits) and of nonces: unbounded here; a nonce is bounded by the tick.
- Panics: an iteration with `burn_min > burn_max` and 64-bit `sum()` overflow are excluded by hypotheses, not modelled as outcomes.
- Storage errors that return part-way through a method: writes are assumed to succeed, except for the ordered-prefix crashes of an iteration and of a transfer.
- Crashes in the middle of a burn, mint or seed file: like a transfer they hold no lock; only the prefixes of an iteration and of a transfer, and crashes between requests, are analysed.
- Response bodies of accepted requests (transaction id, tick, balance): they repeat what the ledger then holds.
- Leader signature and wall clock of log entries, validator signatures of commits, snapshot files, manual snapshots and statistics: recorded or reported, never read by the modelled code.
- Node.Serializable: takes the replay guard's answer from the time of arrival, because the guard runs under its own mutex before the lock.
- Whitespace beyond space, tab, newline and carriage return when a captcha token or signature is trimmed.
- Poisson and Box-Muller sampling, per-row Gini, top-ten share, median and CSV output of the simulator: arbitrary draws, and reports computed from the balances.
- Multi-validator consensus, leader rotation and operator changes: present in the repository only as types and configuration.
