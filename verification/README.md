# fbd in Dafny

fbd is a full node for a Handshake-style chain: besides moving coins, its blocks auction and
administer domain names. This project models the node's consensus state machines, the integer
arithmetic below them and the algorithms around the transaction pool, and proves what they are for.
`dafny verify dfyconfig.toml` checks everything.

Code that changes state step by step is a class or a method with loops here too: the name database,
the coin view and database, the header chain with its caches, the pool and its name tables, the
template's sort, the memory-hard hash, the limb arithmetic, the DNS reader and writer. Each method is
proved against a function of its inputs and the old state, and the laws are proved of that function.
Expressions and guards are functions, and their laws lemmas.

## What is proved

**Names** (`Covenants`, `NameState`, `CovenantContext`, `CovenantRules`, `CovenantFees`, `CovenantReplay`,
`CovenantProcessor`, `NameEffects`, `Transitions`, `FeeShares`, `FeeLaw`, `FeeExact`, `NameDB`, `NameChain`, `NameRuns`,
`NameLifecycle`, `Subdomains`, `Vickrey`, `NameLaws`, `NameRenewals`, `NameFormat`, `NameStorage`).
When an output is accepted and what it does to its name are given as two tables, by condition and by field, and proved
of validation and of replay. Replaying a block without validation gives the same pending map as validating it, for every block
validation accepts. Hence any run of accepted and refused blocks, reorganizations and restarts leaves
tree, pending map, committed height and snapshots exactly as replaying the surviving chain from genesis
would, although node ids of the tree are reused after a rollback. Over all runs of accepted blocks, and
so for the surviving chain of any run: who holds a name, when it lapses, at most one registration per auction round,
FINALIZE only after the lockup and to the named address, permission for subdomains never withdrawn, the
auction won by the earliest highest bid at the second price. What is stored as bytes is read back. Fees are neither lost nor invented, and paid
in full unless somebody is paid at the null address.

**Coins** (`Coins`, `CoinValue`, `CoinAges`, `CoinView`, `CoinUndo`, `CoinDatabase`, `UtxoChain`, `UtxoRuns`, `UtxoReorgs`, `CoinRuns`,
`MoneySupply`, `PhantomExample`, `BlockReward`). In every run of connects, reorganizations, lost undo records
and rebuilds, of blocks whose ids are new, the store is determined exactly, with exact count and value: each
block folded over what was stored below it, plus what undone blocks have left behind. An undone block leaves its
phantoms behind, outputs that only its coinbase names. Call a run fair if it undoes no block with phantoms: then
the stored coins are a simple fold over the blocks. The value is at most what the subsidy schedule has paid plus
the worth of what was left behind; in a fair run it never exceeds the schedule, nor the maximum supply. Values alone
decide what a coinbase may claim, fees included, and coinbase coins are spent only at their age.

**Headers** (`HeaderTree`, `HeaderChain`, `Deployments`, `Bip9Law`, `MedianTime`, `Difficulty`). The index stays a tree with the
best chain as a path and the tip a leaf; without resets the tip has the most work; forks and ancestors
are found as a parent walk would; the cached deployment states equal their recursive definition; the
bits offered for mining are those that will be accepted, and no header of the tree has a target above the
limit.

**Arithmetic** (`Bits`, `Target256`, `Compact`, `Retarget`). The limb operations are exact modulo 2^256,
compact encoding rounds down by less than one part in 2^15, monotonically and idempotently, and
retargeting asks for the measured hashrate, never passes the limit and is monotone in time and work.

**Hash and proof** (`Balloon`, `BalloonStrings`, `BalloonVerdict`), **names on the wire** (`DnsName`), **pool** (`ContractState`, `Mempool`),
**template** (`BlockTemplate`), **merkle tree** (`MerkleTree`, `Rfc6962`): completeness of the sampled proof, the
round trip of compressed names, agreement of all pool indices in every run and exact removals,
parents-first ordering that drops nothing, and a root that determines the whole list.

`Base`, `Arith`, `Endian` and `Sums` hold small shared facts. Every lemma is marked `{:induction false}`: its body is
its whole proof.

## Where the code does not do what one would expect

- Disconnecting a block passes over every input that names an id of the block, the coinbase's inputs
  included, but connecting ignores those of the coinbase. A coinbase may have more inputs than the null
  one. So `disconnectBlock` undoes `_connectBlock` if and only if no output of the block is named by its
  coinbase alone (`UtxoRuns.DisconnectTip`, `CoinUndo.UndoExact`), and a reorganization by undo records
  ends in the coins of the shorter chain if and only if no block it undoes has such outputs; otherwise they
  stay, worth exactly their sum (`UtxoReorgs.ReorganizeExact`). A coin's value can so be stored twice
  (`PhantomExample.Doubled`) and the bound on the supply be broken (`PhantomExample.BoundBroken`).
- Saving a view does not look at what is stored under the coins a block creates. A stored coin under one that
  the block also spends is not deleted, and one under a coin it leaves is counted twice. So connecting stores the
  fold, and counts it exactly, if and only if there is no such coin (`UtxoChain.ConnectBlock`,
  `UtxoChain.ConnectedExactly`, `CoinDatabase.OverlayIffNothingHidden`). After a reorganization has left a phantom
  behind there can be: the counters go wrong when its transaction is mined again (`PhantomExample.MinedAgain`), and
  a coin that the chain has spent stays spendable when the output is moved on in the same block
  (`PhantomExample.SpentAgain`).
- `getDeploymentState` takes the boundary of the first window for DEFINED whatever its median time.
  It agrees with the "State transitions" of BIP 9 if and only if that median time is before the start time
  (`Deployments.NodeMeetsBip9`). The one deployment that ships is over before the main network's genesis, so
  there the two differ on every chain (`Deployments.TestDummyDiffers`, `Deployments.FirstWindowExample`).
- `dividedBy` is exact for every dividend if and only if the divisor is at most 2^63
  (`Target256.DividedByExact`); its caller passes a clamped timespan.
- If fees are owed to the null address as burn and as payment, one output counts for both. Acceptance means
  payment in full, whatever plain outputs a transaction carries, if and only if its covenants do not both burn
  and pay the null address (`FeeExact.ExactlyApart`). They do not when nothing is ever burned, or neither dev fund
  nor any payable name's coin is at the null address (`FeeLaw.AcceptedFeesArePaid`). With the dev fund there they
  do exactly if some registration burns (`FeeExact.NullFundExact`); one accepted for half its price is
  `FeeLaw.RegistrationPaidOnce`.
- The table of covenant transitions calls a REVOKE unspendable, but it is consulted only for outputs that carry a
  covenant of a name already held. Exactly at positions with no output, a plain one, an OPEN or a BID a coin can
  be spent without an allowed successor (`Transitions.SpentUnfollowed`, `Transitions.PlainAccepted`).
- The comment on `removeBlock` says that conflicts are evicted; the code evicts the confirmed
  transactions' dependents only. A conflict stays if and only if the pool's spender of some outpoint of the
  block depends on no confirmed transaction (`Mempool.ConflictsStay`, `Mempool.ConflictExample`).
- The documentation of `MerkleTree` mentions RFC 6962. Odd levels are padded with a sentinel, so the root is that
  of its section 2.1 if and only if the number of elements is zero or a power of two (`Rfc6962.SameRootIff`,
  `Rfc6962.ThreeLeaves`).

## Assumptions

- A transaction id is opaque. In runs of the coin database a block's ids are new to the coins it is
  connected to (`NewIds`), and they are never all zeros; phantoms of an undone block are coins no older
  block knew, which follows if ids do not recur on the chain (`UtxoReorgs.DistinctIdsSuffice`).
  Connecting one block needs no such assumption.
- The coins that covenants are judged with are outputs of the block's own chain, each under the outpoint it was
  made with. Coins that undone blocks have left stored are not among them.
- Name runs start from the database just after genesis, its names committed at height 0 and each with an
  opening height or an owner; `treeInterval` is positive. The lifecycle laws assume that auction, renewal
  window and auction maturity last at least one block.
- The work of a block is a natural number, positive for any target that passes the proof-of-work check;
  for the difficulty rule cumulative work fits 256 bits and times fit a signed 64-bit integer.
- The laws of retargeting assume what every network sets: a positive minimum timespan no longer than the
  maximum, and compact limit bits that decode to the limit. They are stated for the window's work times
  spacing as 256-bit words compute it, wrapping included.
- The inner hash of `Balloon` and `MerkleTree` is any function to 32 bytes. For the merkle root it is
  assumed that no two of the strings actually hashed collide.

## Model

| member | source | states |
|---|---|---|
| NameChain.RunsAreFaithful | Sources/Chain/Chain.swift:697-724 | Every run of accepted and refused blocks, reorganizations and restarts after genesis leaves tree, pending map, committed height and snapshots exactly as replaying the surviving chain straight from genesis would. |
| NameChain.SameChainSameNames | Sources/Chain/Chain.swift:697-724 | Two runs that end with the same chain end with the same database, whatever reorganizations and restarts lay between. |
| NameChain.NextFaithful | Sources/Chain/ChainValidation.swift:229-275 | No single event can fail or leave the database unfaithful to its chain: rollback always finds its snapshot and replay never throws on accepted blocks. |
| NameChain.ReorganizeIsStraight | Sources/Chain/Chain.swift:710-724 | Rolling back to the last commit at or below h and replaying the shared blocks above it equals connecting straight to h, for every h. |
| NameChain.RebuildIsStraight | Sources/Chain/ChainValidation.swift:575-626 | Replaying from any height on, committing at each multiple of the interval, continues a straight-line database to the straight-line database of the longer chain. |
| NameChain.RestartIsStraight | Sources/Chain/ChainValidation.swift:575-626 | A restart, which keeps only what was committed, followed by the rebuild gives back exactly the state before it, pending map included. |
| NameChain.ReplayFromBoundary | Sources/Chain/Chain.swift:710-724 | Between two commits only the pending map moves: replaying from the commit boundary to h gives the names at h over an unchanged tree. |
| NameChain.StraightPrefix | Sources/Chain/NameDB.swift:200-298 | A longer chain keeps every snapshot of each of its prefixes, unchanged. |
| NameChain.GenesisFaithful | Sources/Chain/ChainValidation.swift:229-275 | The database just after genesis is a faithful starting state. |
| NameChain.ConnectInto | Sources/Chain/ChainValidation.swift:229-275 | The imperative connect: passes exactly when every transaction is accepted; then the database is the processed one, committed if the height is a multiple of the interval; a refused block changes nothing. |
| NameChain.DisconnectTo | Sources/Chain/Chain.swift:697-724 | The imperative rollback and replay loop succeeds exactly when the fork is below the stored blocks and the reorganization is defined, and ends in its result; for a fork at or above them it throws, for want of a snapshot or at the first missing block, and the contract says what is left. |
| NameChain.ThrowKeeps | Sources/Chain/Chain.swift:710-724 | On the database of a chain such a throw leaves everything as it was, the pending map included. |
| NameChain.RebuildNameState | Sources/Chain/ChainValidation.swift:575-626 | The imperative rebuild after opening ends in the rebuilt database, or throws exactly where the replay of a stored block does. |
| NameRuns.RunDatabase | Sources/Chain/Chain.swift:697-724 | One database object taken from genesis through any blocks, reorganizations and restarts never gets stuck: it ends in the state the events determine, which is the straight-line replay of the surviving chain. |
| NameRuns.Handle | Sources/Chain/ChainValidation.swift:229-275 | Each event done by the object is the event of the run, and cannot fail. |
| NameRuns.HoldsRegular | Sources/Chain/NameDB.swift:314-380 | After any run there is a snapshot at every multiple of the interval and none besides, which is what rollback needs. |
| NameDB.NameDB.GetNameState | Sources/Chain/NameDB.swift:163-172 | A lookup sees the pending state if there is one and the committed one otherwise. |
| NameDB.NameDB.PutNameState | Sources/Chain/NameDB.swift:175-178 | Changes the view at one key and touches neither tree nor store. |
| NameDB.NameDB.InsertPending | Sources/Chain/NameDB.swift:200-298 | The insertion loop yields the committed tree with every pending state written over it, in stored form. |
| NameDB.NameDB.Commit | Sources/Chain/NameDB.swift:200-298 | After a commit every lookup finds what it found before, in name, height, renewal, owner, value, highest, data, transfer, revoked, renewals, registered, expired, flags and parent; nothing is pending, the height is recorded and a snapshot of that very tree is filed under it. |
| NameDB.NameDB.RollbackToHeight | Sources/Chain/NameDB.swift:314-380 | Goes back to the latest commit at or below the height and drops the snapshots above it; fails, changing nothing, exactly when there is no snapshot to go back to. |
| NameDB.NameDB.RestoreSnapshot | Sources/Chain/NameDB.swift:314-380 | Restoring root and next node id of a snapshot brings back the tree it stood for. |
| NameDB.NameDB.DeleteStale | Sources/Chain/NameDB.swift:314-380 | The deletion loop removes the unbroken run of snapshots above the target. |
| NameDB.NameDB.Reopen | Sources/Chain/NameDB.swift:67-116 | Closing and opening loses exactly what was pending, so right after a commit nothing. |
| NameDB.CommitKeeps | Sources/Chain/NameDB.swift:200-298 | A commit, and closing and opening after it, keep every field of what any lookup finds. |
| NameFormat.RoundTripExactly | Sources/Covenants/NameState.swift:249-378 | Writing a state as bytes and reading them gives the state back, but for the name hash, if and only if its fields fit their places; what does not fit traps or comes back as something else. |
| NameFormat.Serialize | Sources/Covenants/NameState.swift:249-302 | The appending writer gives the encoding of every state that can be written, and traps on the others. |
| NameFormat.Deserialize | Sources/Covenants/NameState.swift:305-378 | The reader with its moving position decodes as the format says, whatever the bytes, and throws exactly on those that end too early. |
| NameFormat.ReadVarint | Sources/Covenants/NameState.swift:424-460 | Reads a number of one, three, five or nine bytes and stands behind it, or throws when it is cut short. |
| NameFormat.DecodedFits | Sources/Covenants/NameState.swift:305-378 | Whatever can be read fits the format. |
| NameFormat.EncodedExample | Sources/Covenants/NameState.swift:249-302 | One state byte by byte: lengths, little-endian numbers, the bit field, variable-length integers, flags and parent. |
| NameStorage.CommittedBytes | Sources/Chain/NameDB.swift:205-214 | What a commit puts in the tree for a pending state that fits is what reading its bytes gives. |
| NameStorage.RunFits | Sources/Covenants/NameState.swift:249-302 | Through any run of accepted blocks with ids of 32 bytes, items of at most 65535, names of at most 255 and amounts below 2^63, every stored state fits the format. |
| NameStorage.RunReadsBack | Sources/Chain/NameDB.swift:205-214 | So whatever such a run stores is read back from its bytes as it was, but for the name hash. |
| Endian.RoundTrip | Sources/Covenants/NameState.swift:382-421 | A number written lowest byte first is read back, when it fits. |
| Endian.ByteAt | Sources/Covenants/NameState.swift:382-421 | Byte k is the k-th lowest digit to base 256. |
| NameDB.Disk.CommitSound | Sources/Chain/NameDB.swift:200-298 | Writing a tree under new node ids and marking a snapshot leaves the tree of every other snapshot as it was. |
| NameDB.Disk.RollbackMeaning | Sources/Chain/NameDB.swift:314-380 | Although node ids are reused after a rollback, the trees of the retained snapshots are unchanged and the current tree is the one committed at the target. |
| NameDB.Disk.RollbackKeeps | Sources/Chain/NameDB.swift:314-380 | With commits at 0..n intervals, deleting upward from target + interval leaves precisely the snapshots up to the target. |
| CovenantProcessor.ReplayRepeatsValidation | Sources/Chain/CovenantProcessor.swift:658-764 | For every post-genesis block that validation accepts, replaying it from the same database gives the identical pending map, and every stored name keeps an opening height or an owner. |
| CovenantProcessor.StepAgrees | Sources/Chain/CovenantProcessor.swift:658-764 | The same for a single output, including creation, expiry and reopening of its name. |
| CovenantReplay.PrepareAgrees | Sources/Chain/CovenantProcessor.swift:39-58 | Under the stored-state invariant the branch for a null state makes validation and replay start from the same name state. |
| CovenantReplay.ProcessKindAgrees | Sources/Chain/CovenantProcessor.swift:60-618 | For each of the covenant kinds the accepted change is the replayed one: register price, flags, transfers, renewals and revocations included. |
| CovenantProcessor.ProcessCovenants | Sources/Chain/CovenantProcessor.swift:13-649 | The imperative loop over the outputs accepts exactly when every step is valid and the fees are covered, and then leaves the computed names. |
| CovenantProcessor.ProcessOutput | Sources/Chain/CovenantProcessor.swift:33-619 | One turn of the output loop: the new dues and the new pending map are those of the step, and it throws exactly when the step is invalid. |
| CovenantProcessor.ConnectNames | Sources/Chain/ChainValidation.swift:229-275 | A block is accepted exactly when all its transactions are; a refused block leaves the pending map as it was before the block. |
| CovenantProcessor.ReplayCovenants | Sources/Chain/CovenantProcessor.swift:658-764 | The imperative replay of a block computes the fold of its outputs and throws exactly when the fold does. |
| CovenantProcessor.ReplayTransaction | Sources/Chain/CovenantProcessor.swift:665-762 | The same for one transaction: a throw at any output is a throw of the fold. |
| NameEffects.StepLaw | Sources/Chain/CovenantProcessor.swift:37-618 | An output with a name covenant is accepted if and only if its items, its timing, its round, the coin it follows, its address, the subdomain permission and the outside rules each meet a condition listed in heights, items and coins; then its own stored name has changed in the listed fields to the listed values (a RENEW: renewal at this height, one renewal more, this output as owner, no transfer), every other field is as found, and every other name as it was. |
| NameEffects.ReplayLaw | Sources/Chain/CovenantProcessor.swift:665-762 | Replaying an output does the same to the state replay finds, field by field, and fails for missing items alone. |
| NameEffects.PrepareFinds | Sources/Chain/CovenantProcessor.swift:39-58 | An output finds a name created at this height, the stored state, or that state started over with name, data, flags and parent kept; nothing is found exactly when nothing is stored and the output is no OPEN with a name. |
| NameEffects.ReplayFinds | Sources/Chain/CovenantProcessor.swift:671-686 | Replay finds the same, except that it does not create a null state anew. |
| NameEffects.StateByHeight | Sources/Covenants/NameState.swift:106-135 | Each state of an auction holds in exactly one interval of heights, counted from the opening; registration closes the auction, revocation overrides both. |
| NameEffects.LapsesWhen | Sources/Covenants/NameState.swift:147-172 | The heights at which a name is expired: by auction maturity once revoked, and otherwise after the auction by renewal window, for want of an owner, or after the register deadline; never without a price at height 0. |
| NameEffects.RenewalHolds | Sources/Chain/CovenantProcessor.swift:484-489 | After an accepted REGISTER or RENEW the renewal height is that of the block, and a registered name with a price or opened after genesis is expired from a full renewal window later on and not before. |
| NameRenewals.LastRenewal | Sources/Chain/CovenantProcessor.swift:238-489 | In every run of accepted blocks the renewal height of a registered name is that of the block with the last REGISTER or RENEW for it, which was made for its present round. |
| NameRenewals.LapsesAfterLastRenewal | Sources/Covenants/NameState.swift:147-172 | Such a name, with a price and not revoked, is expired at height g if and only if a renewal window has passed since that block. |
| NameRenewals.RenewalsSurvive | Sources/Chain/Chain.swift:697-724 | The same of the surviving chain, through refused blocks, reorganizations and restarts; undone renewals do not count. |
| CovenantProcessor.DuesArePrices | Sources/Chain/CovenantProcessor.swift:278-321 | After any number of outputs burn plus payments equal the sum of registration prices and renewal fees, each taken at the state its name is in at that output. |
| FeeLaw.AcceptedFeesArePaid | Sources/Chain/CovenantProcessor.swift:621-648 | If nothing is ever burned, or the dev fund is not at the null address and neither is the coin of any payable name or of any output of the transaction, an accepted transaction spends at least all its prices and fees on outputs without covenant. |
| FeeLaw.BlockFeesArePaid | Sources/Chain/ChainValidation.swift:255-268 | The same for every transaction of an accepted block, all judged by the names before the block: no operation in it makes the null address earn. |
| FeeLaw.RegistrationPaidOnce | Sources/Chain/CovenantProcessor.swift:621-648 | For every v, a registration at price 2v accepted with plain outputs of v in all: with the null address as dev fund, one output is the burn and the payment. |
| FeeLaw.StepsAvoid | Sources/Chain/CovenantProcessor.swift:288-320 | An address that is not the dev fund and holds no payable name and no output of the transaction is never paid, at any output, and no operation changes that. |
| FeeLaw.KindOwner | Sources/Chain/CovenantProcessor.swift:60-618 | Every operation writes its own name only and leaves it to its owner, to this output or to nobody. |
| FeeExact.ExactlyApart | Sources/Chain/CovenantProcessor.swift:621-648 | For valid covenants: every accepted transaction with them, whatever it pays besides, spends at least all its prices and fees, if and only if they do not both burn and pay the null address. |
| FeeExact.NullFundExact | Sources/Chain/CovenantProcessor.swift:621-648 | With the dev fund at the null address and less than everything burned, that holds if and only if no output registers a name at a price of which a part is burned. |
| FeeExact.FirstBurnShort | Sources/Chain/CovenantProcessor.swift:621-648 | In particular it fails for every valid transaction whose first name output is such a registration, judged by the names before it. |
| FeeExact.StepsSame | Sources/Chain/CovenantProcessor.swift:33-619 | What a transaction owes and does to names does not depend on its outputs without covenant. |
| CovenantProcessor.DuesCovered | Sources/Chain/CovenantProcessor.swift:621-648 | With dues that do not both burn and pay the null address, acceptance means payment in full. |
| CovenantFees.SplitFeeConserves | Sources/Chain/CovenantProcessor.swift:288-320 | Dev share, ancestor shares and what nobody could claim add up to the fee for every list of ancestors and every set of payable ones. |
| CovenantFees.SplitFeeShare | Sources/Chain/CovenantProcessor.swift:288-320 | Nobody loses by the split and the dev fund gets at least its half: the unclaimed part is never negative. |
| FeeShares.SplitLaw | Sources/Chain/CovenantProcessor.swift:283-320 | A fee on a top-level name goes to the dev fund; on a subdomain half of it is divided equally among the names behind its dots, each part to the address the owner's coin is at, and the other half with the parts nobody can claim to the dev fund. |
| FeeShares.ChargeLaw | Sources/Chain/CovenantProcessor.swift:280-321 | A REGISTER burns its percentage of the price, rounded down, and shares out the rest; a RENEW shares out its whole fee. |
| FeeShares.PriceLaw | Sources/Chain/CovenantProcessor.swift:445-449 | A REGISTER costs the larger of recorded value and minimum bid, a RENEW the larger of its percentage of the value and the minimum bid, and nothing else costs anything. |
| FeeShares.MinimumBidLaw | Sources/Covenants/NameParams.swift:108-121 | The minimum bid is the block reward times the fraction of the tier, rounded down: one for names with a dot, one for names of up to six bytes, one for the others; none where the denominator is zero. |
| FeeShares.PayeesAreOwners | Sources/Covenants/NameRules.swift:118-139 | The payees are the addresses of the coins of the owners of the unexpired names behind the dots, each as often as it holds one. |
| CovenantFees.PayEachShare | Sources/Chain/CovenantProcessor.swift:298-312 | An address earns one share for each payable ancestor whose coin it holds, and other addresses earn nothing. |
| CovenantFees.PayAncestors | Sources/Chain/CovenantProcessor.swift:295-313 | The ancestor loop pays exactly the payable ancestors and reports exactly what they claimed. |
| CovenantFees.AddFee | Sources/Chain/CovenantProcessor.swift:444-483 | The imperative split adds up to the specified one, with or without parent and ancestors. |
| CovenantFees.ChargeConserves | Sources/Chain/CovenantProcessor.swift:278-321 | Burn and payments together grow by exactly the price of the output. |
| CovenantFees.ChargeNonNegative | Sources/Chain/CovenantProcessor.swift:278-321 | Neither burn nor any payment is ever negative. |
| CovenantFees.CheckPayments | Sources/Chain/CovenantProcessor.swift:621-648 | Passes exactly when the NONE outputs to the null address cover the burn and those to every payee cover its payment. |
| CovenantFees.SumAvailable | Sources/Chain/CovenantProcessor.swift:624-628 | The accumulation loop sums the NONE outputs per address. |
| CovenantFees.CoveredInFull | Sources/Chain/CovenantProcessor.swift:621-648 | If nobody is paid at the null address, passing means the NONE outputs cover burn and payments together. |
| CovenantFees.DoubleUseOtherwise | Sources/Chain/CovenantProcessor.swift:630-647 | That condition is exact: whenever the null address is owed both, some accepted balances fall short of the total. |
| NameLifecycle.LifecycleInvariant | Sources/Chain/CovenantProcessor.swift:238-614 | In every run of accepted blocks the owner outpoint of each stored unrevoked name carries a covenant of that name: a REVEAL exactly until registration, a TRANSFER exactly while one is pending, created at the recorded height; and every registration made is settled. |
| NameLifecycle.OneRegistrationPerRound | Sources/Chain/CovenantProcessor.swift:238-351 | No name is registered twice in one auction round, however far apart the two blocks are. |
| NameLifecycle.RegisterLaw | Sources/Chain/CovenantProcessor.swift:238-351 | A REGISTER spends the winning REVEAL of this name, between reveal end and register deadline, while the name is neither registered nor revoked. |
| NameLifecycle.FinalizeLaw | Sources/Chain/CovenantProcessor.swift:522-578 | A FINALIZE spends the recorded TRANSFER of this name no earlier than a full lockup after its height, and pays the address that TRANSFER names. |
| NameLifecycle.KindAlive | Sources/Chain/CovenantProcessor.swift:60-618 | Every operation keeps the ownership invariant, stays in its round and never unregisters or revives a name. |
| NameLifecycle.PrepareSettled | Sources/Covenants/NameState.swift:208-238 | Expiry never reopens a round in which the name was registered. |
| NameLifecycle.NothingIsGood | Sources/Covenants/NameState.swift:87-103 | The empty database satisfies the run invariant, so it is not vacuous. |
| Subdomains.PermissionIsPermanent | Sources/Chain/CovenantProcessor.swift:384-400 | In every run of accepted blocks a name that once permitted subdomains still does, through updates, transfers and expiry, and the parent of every stored subdomain exists and permits it. |
| Subdomains.KindLinked | Sources/Chain/CovenantProcessor.swift:60-618 | No operation withdraws the permission, and a name gets no parent but one that permits it. |
| NameState.ExpiryStays | Sources/Covenants/NameState.swift:147-176 | What has expired at some height is expired at every later one. |
| NameState.RegisteredClock | Sources/Covenants/NameState.swift:147-176 | A registered, priced name lapses at the end of its renewal window and not before, whatever the state of its auction clock. |
| NameState.WinnerClock | Sources/Covenants/NameState.swift:139-176 | An unregistered winner loses the name right after the register deadline and not before, when the renewal window is the longer one. |
| Transitions.SpentUnfollowed | Sources/Chain/CovenantProcessor.swift:181-600 | In an accepted transaction a coin is spent without a successor the transition table allows if and only if no output stands at its position, or one without covenant, an OPEN or a BID where the coin is not NONE, OPEN or REDEEM: so a BID, a REVEAL, an owner coin or a REVOKE can go into a plain output. |
| Transitions.PlainAccepted | Sources/Chain/CovenantProcessor.swift:33-36 | A transaction without covenants is accepted and changes no name, whatever coins it spends. |
| Vickrey.VickreyLaw | Sources/Chain/CovenantProcessor.swift:203-214 | After any sequence of reveals `highest` is the largest bid, `value` the second largest counted with multiplicity (0 for fewer than two), `owner` the earliest largest reveal. |
| Vickrey.OrderIrrelevant | Sources/Chain/CovenantProcessor.swift:203-214 | Permuting the reveals changes neither price. |
| Vickrey.AuctionDecided | Sources/Chain/CovenantProcessor.swift:175-214 | However an auction's reveals are spread over outputs, transactions and blocks with any other operations between, the stored name ends with that winner and those prices. |
| NameLaws.LawsSurvive | Sources/Chain/CovenantProcessor.swift:238-614 | Through refused blocks, reorganizations and restarts every stored name stays alive, every registration of the surviving chain is settled, and every permission for subdomains stays in force. |
| NameLaws.AuctionSurvives | Sources/Chain/CovenantProcessor.swift:175-214 | An auction undecided after some surviving block ends with winner and price of the reveals in the surviving blocks above it; reveals of undone blocks do not count. |
| NameLaws.SurvivorsAreAccepted | Sources/Chain/ChainValidation.swift:229-275 | Whatever happened, the names stored are those of a run that accepts just the surviving blocks, one after the other. |
| NameLaws.NextFollows | Sources/Chain/Chain.swift:697-724 | One event keeps that: an accepted block extends the run, a reorganization goes back to a prefix, a restart and a refused block leave it. |
| NameLaws.ReachedNames | Sources/Chain/CovenantProcessor.swift:658-764 | A run of accepted blocks and the straight-line replay of the same blocks end with the same names. |
| Vickrey.RunAdvances | Sources/Chain/CovenantProcessor.swift:175-214 | During an auction a run changes the auction fields by exactly the reveals of that name, in order, and keeps the round. |
| Vickrey.OpenStartsAuction | Sources/Chain/CovenantProcessor.swift:39-58 | An OPEN of a new or expired name starts an undecided auction at the present height. |
| Vickrey.RankUnique | Sources/Chain/CovenantProcessor.swift:203-214 | The value of a given rank is unique, so the law determines both prices. |
| CoinRuns.Run | Sources/Chain/Chain.swift:697-850 | In every run from genesis of connects, reorganizations, lost undo records and rebuilds, in which no id recurs among what is stored, the store holds, level by level, each block folded over what was stored below it plus exactly what undone blocks left behind, with exact counters and no wrong undo record; if no block undone has phantoms, that is the fold of the blocks. |
| CoinRuns.Handle | Sources/Chain/Chain.swift:697-850 | Each such event takes a store of some levels to a store of the next; a refused block leaves it alone. |
| UtxoRuns.DisconnectTip | Sources/Chain/CoinDatabase.swift:244-332 | Undoing the topmost block brings back the chain below it if and only if the block has no phantoms; the counters are exact either way; it throws, changing nothing, exactly when the undo record is missing. |
| UtxoReorgs.DisconnectTo | Sources/Chain/Chain.swift:703-789 | With all undo records there, what the undone blocks leave behind, phantoms included, stays on top of the shorter chain and the counters are exact; with one missing the blocks are replayed and the store is that of the longest prefix that replays on its own; for phantoms that no older block of the chain knew. |
| UtxoReorgs.ReorganizeExact | Sources/Chain/CoinDatabase.swift:244-332 | A chain taken back to h by undo records alone: coins of the shorter chain plus the phantoms of all blocks undone, worth the sum of both; it is the shorter chain if and only if no block undone has phantoms. |
| UtxoReorgs.UndoTop | Sources/Chain/CoinDatabase.swift:244-332 | Undoing one block leaves its strays and such phantoms on top of the level below; it fails, changing nothing, exactly when the undo record is missing. |
| UtxoReorgs.LeftValue | Sources/Chain/CoinDatabase.swift:244-332 | What several undone blocks leave behind is worth the sum of what each leaves: nothing is counted twice. |
| UtxoReorgs.ApplyFrame | Sources/Chain/CoinView.swift:79-162 | Coins a block does not know pass through it: folding over more coins gives the same result and those coins besides. |
| UtxoReorgs.ApplySubmap | Sources/Chain/Chain.swift:797-850 | A block that applies to fewer coins gives fewer coins, which ties a replay of the blocks alone to what was stored. |
| UtxoReorgs.DistinctIdsSuffice | Sources/Chain/CoinDatabase.swift:244-332 | If transaction ids do not recur on a chain, what the run theorem assumes of phantoms holds. |
| UtxoReorgs.RepresentsStands | Sources/Chain/CoinDatabase.swift:139-211 | A store of a valid chain is a store of its levels without strays, and the other way round. |
| CoinRuns.PlainRepresents | Sources/Chain/CoinDatabase.swift:139-211 | Without strays the store is the fold of the blocks reached. |
| CoinRuns.RunSound | Sources/Chain/Chain.swift:697-850 | Every state of a run is sound, and a fair run leaves no strays. |
| UtxoRuns.RebuildUtxo | Sources/Chain/Chain.swift:797-850 | Resetting and replaying the stored blocks goes exactly as far as they replay on their own, and ends in the coins, counters and undo records of the blocks replayed; it passes if and only if all of them do. |
| UtxoRuns.RebuildBlock | Sources/Chain/Chain.swift:816-846 | One replayed block: succeeds exactly when values and claim allow it, which with new ids is when it adds at most its subsidy to the value of the coins, and then stores and counts what a connect would, whatever ids are stored. |
| UtxoRuns.ConnectGenesis | Sources/Chain/ChainValidation.swift:85-96 | Genesis is stored unchecked and leaves exactly its outputs. |
| UtxoRuns.RepresentsMore | Sources/Chain/CoinDatabase.swift:139-211 | One more accepted block with its undo record extends a represented chain. |
| UtxoChain.ConnectBlock | Sources/Chain/ChainValidation.swift:159-290 | Passes exactly for blocks whose body is sane, whose every input can be paid, has matured and is signed, whose coinbase claims no more than allowed, and which the remaining checks admit; otherwise nothing changes. In values: with new ids and all other conditions met it passes if and only if the coins after all transactions are worth at most the coins before and the subsidy, so all fees may be claimed. For any store: the undo record is that of the fold; the stored coins are those of the fold and the stored ones with an outpoint the block makes and spends again; the counters count the stored coins and those the block replaced. |
| UtxoChain.ConnectedExactly | Sources/Chain/CoinDatabase.swift:139-175 | Connecting stores exactly the fold if and only if no stored coin has an outpoint that the block makes and spends, and counts exactly if and only if none has one that it makes and leaves. |
| UtxoChain.NewIdsExact | Sources/Chain/CoinDatabase.swift:139-175 | Both hold for blocks whose ids are new to the store. |
| UtxoChain.ConnectTransaction | Sources/Chain/ChainValidation.swift:164-221 | View and undo stack read as the ledger before the transaction and as its successor after it, and it is refused exactly when the ledger refuses it. |
| UtxoChain.RebuildTransaction | Sources/Chain/Chain.swift:820-841 | The same without maturity and witness checks. |
| UtxoChain.LoadInputs | Sources/Chain/ChainValidation.swift:166-174 | Loading succeeds exactly when every input is in the view or stored, and adds nothing but those stored coins. |
| UtxoChain.ScreenInputs | Sources/Chain/ChainValidation.swift:176-201 | Passes exactly when every coinbase input is mature and every witness verifies. |
| CoinAges.CoinbaseMaturity | Sources/Chain/ChainValidation.swift:176-201 | In a block acceptable on a chain every input after the coinbase spends an output made on the chain or earlier in the block, its witness is accepted for that very output, and if a coinbase made it at height g, the block stands at g plus the maturity or higher. |
| CoinAges.OldEnoughPasses | Sources/Chain/ChainValidation.swift:176-201 | No input is refused for age or witness when that holds. |
| CoinAges.CoinsHaveOrigin | Sources/Chain/CoinView.swift:47-62 | Every coin of a chain is an output of one of its transactions, recorded with its version, the height of its block and whether a coinbase made it. |
| UtxoChain.CheckBody | Sources/Consensus/BlockValidator.swift:65-109 | The loops accept exactly the non-empty blocks with a coinbase in front and nowhere else, distinct ids, and sane transactions. |
| UtxoChain.CheckTransactionSanity | Sources/Consensus/BlockValidator.swift:114-152 | Accepts exactly the transactions with inputs and outputs, no input twice unless it is a coinbase, and every output value and their total within the maximum supply. |
| CoinValue.SaneInNumbers | Sources/Consensus/BlockValidator.swift:114-152 | Sane transactions in numbers: inputs and outputs, as many different inputs as inputs unless it is a coinbase, and values of at most 1,051,200,000 coins, alone and together. |
| UtxoChain.CheckCoinbaseValue | Sources/Consensus/BlockValidator.swift:167-191 | Accepts exactly a claim of at most subsidy plus fees, without overflow. |
| CoinView.CoinView.AddTransaction | Sources/Chain/CoinView.swift:47-63 | Puts exactly the transaction's outputs, unspent and marked created, over what was there. |
| CoinView.CoinView.SpendEntry | Sources/Chain/CoinView.swift:79-92 | Spends a present unspent coin and pushes it on the undo stack; otherwise nothing changes. |
| CoinView.CoinView.SpendInputs | Sources/Chain/CoinView.swift:97-105 | Succeeds exactly when all inputs are unspent and distinct; then these coins are marked and pushed in input order. |
| CoinView.CoinView.GetInputValue | Sources/Chain/CoinView.swift:134-146 | The sum of the inputs, exactly when all can be read and the sum fits 64 bits. |
| CoinView.CoinView.GetFee | Sources/Chain/CoinView.swift:151-162 | Inputs minus outputs, exactly when the inputs can be read and both totals fit a signed 64-bit integer. |
| CoinView.MarkedMeaning | Sources/Chain/CoinView.swift:97-105 | Marking inputs changes no entry but those named, and of those only the spent flag. |
| CoinDatabase.CoinDatabase.SaveView | Sources/Chain/CoinDatabase.swift:139-211 | The stored set is what writing all entries makes of the old one and the undo record is the stack; the counters count the stored coins and, a second time, whatever stored coins were overwritten. |
| CoinDatabase.ExactIffNothingOverwritten | Sources/Chain/CoinDatabase.swift:155-175 | The counters are exact after a view is saved if and only if it stores no coin over a stored one. |
| CoinDatabase.CoinDatabase.WriteEntries | Sources/Chain/CoinDatabase.swift:139-211 | The result does not depend on the order in which entries are visited. |
| CoinDatabase.CoinDatabase.DisconnectBlock | Sources/Chain/CoinDatabase.swift:244-332 | On a block connected to `before` the result is `before` plus whatever was passed over, with exact counters; without an undo record it throws and changes nothing. |
| CoinDatabase.CoinDatabase.RemoveOutputs | Sources/Chain/CoinDatabase.swift:277-285 | Removes exactly the outputs that no later transaction of the block spent, and no subtraction of a counter saturates. |
| CoinDatabase.CoinDatabase.RestoreInputs | Sources/Chain/CoinDatabase.swift:287-306 | Puts the spent coins back from the top of the undo record, last input first, except those passed over. |
| CoinDatabase.CoinDatabase.UndoTransaction | Sources/Chain/CoinDatabase.swift:272-307 | Undoing transaction i after all later ones gives the coins before it, up to those passed over. |
| CoinDatabase.CoinDatabase.FindInBlockSpends | Sources/Chain/CoinDatabase.swift:255-267 | Collects the non-null inputs that name an id of the block. |
| CoinDatabase.CoinDatabase.Reset | Sources/Chain/CoinDatabase.swift:88-102 | Empty set, no undo records, counters at zero. |
| CoinDatabase.MergedIsOverlay | Sources/Chain/CoinDatabase.swift:139-211 | Writing a view stores what the view reads as, and besides every stored coin under an entry that was both created and spent. |
| CoinDatabase.OverlayIffNothingHidden | Sources/Chain/CoinDatabase.swift:155-175 | The shortcut for coins both created and spent loses nothing if and only if no stored coin lies under one. |
| CoinUndo.UndoExact | Sources/Chain/CoinDatabase.swift:244-311 | Undo gives back the coins before the block if and only if the block has no phantoms: outputs of the block that only its coinbase names as inputs. |
| CoinUndo.PassedOverIsPhantom | Sources/Chain/CoinDatabase.swift:255-267 | Of the coins the block leaves, the ones passed over are exactly the phantoms. |
| PhantomExample.Doubled | Sources/Chain/CoinDatabase.swift:244-311 | Whatever else is stored: a block of two transactions whose coinbase also names the output of the other one, connected and undone, adds the value of the coin it moved to what is stored. |
| PhantomExample.BoundBroken | Sources/Chain/CoinDatabase.swift:244-311 | A run of three events with the shipped coinbase maturity of 2, connecting a block and such a block and going back by one, after which the stored coins exceed the subsidies paid by a whole block reward. |
| PhantomExample.MinedAgain | Sources/Chain/CoinDatabase.swift:155-175 | On the store that run leaves the same block is acceptable again: it stores the fold, and the counters count the moved coin twice. |
| PhantomExample.SpentAgain | Sources/Chain/CoinDatabase.swift:155-175 | On that store a block that mines the moving transaction again and moves its output on is acceptable too: the coin the chain has spent stays stored. |
| CoinUndo.SpentIsGone | Sources/Chain/CoinView.swift:79-92 | A coin spent inside a block is not in its result and is made by no later transaction. |
| CoinUndo.UnspentStays | Sources/Chain/CoinView.swift:47-63 | An output no later transaction spends is in the result. |
| MoneySupply.SupplyNeverExceedsMaximum | Sources/Consensus/BlockReward.swift:12-33 | On the main network schedule the coins of a valid chain are never worth more than the declared maximum. |
| MoneySupply.SupplyBound | Sources/Consensus/BlockValidator.swift:167-191 | The coins of any valid chain are worth at most the subsidies of its blocks. |
| MoneySupply.BlockAddsSubsidy | Sources/Consensus/BlockValidator.swift:167-191 | An accepted block adds at most its subsidy to the value of all coins. |
| CoinValue.BlockValue | Sources/Chain/CoinView.swift:134-162 | After any number of a block's transactions with new ids, coins plus fees are worth exactly the coins before plus what the coinbase claims. |
| CoinValue.AppliesInValue | Sources/Consensus/BlockValidator.swift:167-191 | A sane block of new ids is accepted by the ledger if and only if it can be applied, its coins are worth at most the coins before and the subsidy, and subsidy and fees fit 64 bits. |
| CoinValue.ClaimInValue | Sources/Consensus/BlockValidator.swift:167-191 | The coinbase may claim what it does if and only if the block adds no more than the subsidy. |
| CoinValue.PaysInValue | Sources/Chain/CoinView.swift:134-162 | A transaction with a new id that spends different coins, all there, is payable if and only if it leaves no more value than there was and what it spends fits 64 bits. |
| MoneySupply.CounterBound | Sources/Chain/CoinDatabase.swift:139-211 | After every run the stored value counter is at most the subsidies of the chain plus the worth of what undone blocks left behind; after a run that undoes no block with phantoms, at most the subsidies. |
| MoneySupply.LevelSupply | Sources/Consensus/BlockValidator.swift:167-191 | At every level the stored coins are worth at most the subsidies up to there plus what undone blocks left behind. |
| BlockReward.TotalMined | Sources/Consensus/BlockReward.swift:19-33 | The era-by-era loop equals the block-by-block sum of rewards. |
| BlockReward.RewardLaw | Sources/Consensus/BlockReward.swift:12-16 | In era e, of one interval each, the subsidy is the base reward divided by 2^e, rounded down, and from the 52nd era on nothing. |
| BlockReward.SupplyCap | Sources/Consensus/BlockReward.swift:12-16 | No height mines more than the maximum supply. |
| HeaderChain.HeaderChain.Add | Sources/Chain/Chain.swift:381-442 | Succeeds exactly for headers without any of the seven faults, each told by blocks, times and the given rules, and otherwise names a fault the header has and changes nothing; after a success the index gains exactly that entry and the tip moves to it exactly when it has more work, however deep the fork; tree, best-chain path, leaf tip, timely headers and cache soundness are kept, and a most-work tip stays one. |
| HeaderChain.HeaderChain.CheckHeader | Sources/Chain/Chain.swift:381-418 | The guards in order pass exactly for admissible headers and yield the entry with its parent's height and work plus one block. |
| HeaderChain.HeaderChain.AdmissibleIff | Sources/Chain/Chain.swift:381-418 | A header passes all guards if and only if it has none of the faults that the refusals name. |
| HeaderChain.HeaderChain.Reorganize | Sources/Chain/Chain.swift:639-687 | The height index becomes the path to the new tip; the fork is below the old tip, so the range removed is never empty, and it is the last common ancestor. |
| HeaderChain.HeaderChain.FindFork | Sources/Chain/Chain.swift:515-528 | Terminates with the deepest common ancestor of any two entries. |
| HeaderChain.HeaderChain.GetAncestor | Sources/Chain/Chain.swift:602-625 | The shortcut through the height index gives the same entry as walking parents, for entries on or off the best chain. |
| HeaderChain.HeaderChain.ResetToStoredHeight | Sources/Chain/Chain.swift:188-234 | The entry at the target becomes a childless tip and everything above is gone, forks included; otherwise nothing changes. |
| HeaderChain.HeaderChain.GetPreviousTimestamps | Sources/Chain/Chain.swift:466-476 | The newest timestamps of the entry's path, at most as many as asked. |
| HeaderChain.HeaderChain.MedianTimePast | Sources/Chain/Chain.swift:863-866 | The median over the path, also while fewer blocks than the span exist. |
| HeaderChain.Run | Sources/Chain/Chain.swift:381-442 | Every run of adds, resets and state queries keeps the index sound, and every header in it proved, on target, accepted by the difficulty rule on the path to its parent, and with the work of its parent and its own; without resets the tip has the most work of all entries. |
| HeaderChain.WorkIsSum | Sources/Chain/Chain.swift:420-431 | So the work of an entry is that of genesis and of all headers on its path together. |
| HeaderChain.InsertDue | Sources/Chain/ChainValidation.swift:378-415 | Adding a header the difficulty rule accepts on the path to its parent keeps every header one the rule accepted on its own path. |
| HeaderChain.ForkBelowTip | Sources/Chain/Chain.swift:639-660 | A tip without children is no ancestor of another entry, so every fork from it is strictly below. |
| HeaderChain.Inserted | Sources/Chain/Chain.swift:420-426 | Adding an admissible entry keeps the tree, its timestamps law and the cache, and the entry is a leaf. |
| HeaderChain.Truncated | Sources/Chain/Chain.swift:195-233 | Cutting at a height keeps a tree in which the entry there is a leaf. |
| HeaderChain.HeaderChain.GetDeploymentState | Sources/Chain/ChainValidation.swift:636-742 | The cached, iterative computation equals the recursive window-by-window definition for every best-chain entry and every cache history. |
| HeaderChain.HeaderChain.FindKnown | Sources/Chain/ChainValidation.swift:655-694 | The walk back stops at a boundary whose state is cached and right, and stacks exactly the boundaries still to be computed. |
| HeaderChain.HeaderChain.NextState | Sources/Chain/ChainValidation.swift:699-739 | One transition made from the median time and, while started, from the signals of the window. |
| HeaderChain.HeaderChain.CountSignals | Sources/Chain/ChainValidation.swift:716-728 | Counts exactly the signalling blocks among the last ones of the path. |
| Difficulty.VerifyDifficulty | Sources/Chain/ChainValidation.swift:378-415 | On any entry of the tree, best chain or not, a header is accepted exactly when it carries the bits that the path to its parent calls for. |
| Difficulty.GetNextBits | Sources/Chain/Chain.swift:533-559 | The bits given for mining on the tip are exactly those that will be accepted there. |
| Difficulty.GetSuitable | Sources/Chain/Chain.swift:585-599 | The end of a window is one of the last three blocks of the path, or the block itself on the first two heights. |
| Difficulty.SuitableTime | Sources/Chain/Chain.swift:585-599 | From three blocks on its time is the median of the last three, whatever ties there are. |
| Difficulty.ExpectedWithinLimit | Sources/Chain/ChainValidation.swift:378-415 | No accepted header has a target above the limit, before and after the window fills. |
| Difficulty.RunWithinLimit | Sources/Chain/ChainValidation.swift:378-415 | Whatever headers arrive and whatever is reset, no header of the tree has a target above the limit. |
| HeaderChain.BestChainFollowsBip9 | Sources/Chain/ChainValidation.swift:636-742 | For every reachable best chain the states are those of BIP 9 at all boundaries if and only if the median time of the first window is before the start time. |
| Deployments.NodeMeetsBip9 | Sources/Chain/ChainValidation.swift:636-742 | The same for every path of timely headers: the node differs from BIP 9 exactly when a deployment could already start in the first window. |
| Bip9Law.Bip9ByConditions | Sources/Chain/ChainValidation.swift:636-742 | The states of BIP 9 by median times and signals alone: ACTIVE once an earlier window has locked in, LOCKED_IN when this one does, which takes a start time reached at the boundary before, a median time before the timeout and enough signals in between; otherwise FAILED from the timeout on, STARTED from the start time on, DEFINED before. |
| Bip9Law.NodeByConditions | Sources/Chain/ChainValidation.swift:636-742 | The same of the node, for which the first boundary does not count. |
| Bip9Law.SignalsCount | Sources/Chain/ChainValidation.swift:714-726 | The signals counted are the blocks among the last n of the path whose version has the bit set. |
| Deployments.NotStarted | Sources/Chain/ChainValidation.swift:671-678 | The early exit is right: before the start time BIP 9 has made no transition, because the median time never falls. |
| Deployments.FirstWindowExample | Sources/Chain/ChainValidation.swift:680-685 | A concrete chain on which the node says DEFINED and BIP 9 says STARTED. |
| Deployments.TestDummyDiffers | Sources/Chain/ChainValidation.swift:680-685 | The one deployment the main network ships, on every chain of accepted headers from its genesis: at the first boundary the node has it DEFINED, BIP 9 FAILED. |
| Deployments.OverBeforeGenesis | Sources/Chain/ChainValidation.swift:680-685 | The same for any deployment whose timeout is no later than the first block, any windows and any chain. |
| HeaderTree.MedianMonotone | Sources/Chain/MedianTime.swift:20-29 | Along accepted headers the median time past never falls, the first blocks included. |
| HeaderTree.PathPrefix | Sources/Chain/Chain.swift:602-625 | A prefix of a path is the path of its last entry. |
| HeaderTree.WorkGrows | Sources/Chain/Chain.swift:420-426 | Work strictly grows along a path. |
| MedianTime.MedianNeverFalls | Sources/Chain/MedianTime.swift:20-29 | A newer timestamp above the median never lowers it, neither while the window fills nor when its oldest drops out. |
| MedianTime.RankByCount | Sources/Chain/MedianTime.swift:20-29 | An element of the sorted list is at least m exactly when at most that many elements are below m. |
| Target256.Add | Sources/Consensus/Target256.swift:155-175 | Addition modulo 2^256. |
| Target256.Subtract | Sources/Consensus/Target256.swift:179-199 | Subtraction modulo 2^256. |
| Target256.Multiplied | Sources/Consensus/Target256.swift:203-223 | Multiplication by a word modulo 2^256. |
| Target256.DivMod | Sources/Consensus/Target256.swift:283-305 | Exact quotient and remainder for every nonzero divisor: the shifted remainder never overflows, being bounded by the dividend's prefix. |
| Target256.DividedByExact | Sources/Consensus/Target256.swift:226-242 | Division by a word is exact for all dividends if and only if the divisor is at most 2^63. |
| Target256.ExactUpToTopBit | Sources/Consensus/Target256.swift:226-242 | For divisors up to 2^63 quotient and remainder are those of the number. |
| Target256.WrongAboveTopBit | Sources/Consensus/Target256.swift:246-280 | For every larger divisor there is a dividend whose quotient comes out wrong. |
| Target256.Div128Exact | Sources/Consensus/Target256.swift:246-280 | Two words by one: exact when the high word is below a divisor of at most 2^63. |
| Target256.Div128 | Sources/Consensus/Target256.swift:246-280 | For every divisor, large ones included, the bit loops come to the fixed quotient and remainder that `Div128Exact` and `WrongAboveTopBit` are about. |
| Target256.DividedBy | Sources/Consensus/Target256.swift:226-242 | The word loop comes to the quotient and remainder that `DividedByExact` is about. |
| Target256.ShiftedLeft | Sources/Consensus/Target256.swift:347-374 | Multiplication by 2^n modulo 2^256, for every n. |
| Target256.SetBit | Sources/Consensus/Target256.swift:334-344 | Adds 2^i exactly when bit i is clear. |
| Target256.BitMeaning | Sources/Consensus/Target256.swift:321-331 | A bit of the words is that bit of the number. |
| Target256.LengthMeaning | Sources/Consensus/Target256.swift:23-33 | The bit length of the words is that of the number. |
| Target256.LessMeaning | Sources/Consensus/Target256.swift:133-138 | Comparing words from the top compares numbers. |
| Target256.ValueInjective | Sources/Consensus/Target256.swift:10-12 | Different words stand for different numbers. |
| Target256.TwosComplement | Sources/Consensus/Target256.swift:377-380 | 2^256 minus the number, modulo 2^256. |
| Target256.InversePow2 | Sources/Consensus/Target256.swift:311-316 | floor(2^256 / x), wrapping to zero for x = 1 and for no other x. |
| Compact.FromCompact | Sources/Consensus/Target256.swift:66-98 | The decoded target is mantissa times a power of 256, truncated to 256 bits, sign bit ignored. |
| Compact.DecodedLaw | Sources/Consensus/Target256.swift:66-98 | Exponent e and a mantissa of 23 bits stand for the mantissa times 256^(e - 3), modulo 2^256, or divided by 256^(3 - e), rounded down; with the sign bit for zero. |
| Compact.ToCompact | Sources/Consensus/Target256.swift:101-129 | Exponent and mantissa read off the big-endian bytes, with the correction that keeps the sign bit clear. |
| Compact.BigEndianBytes | Sources/Consensus/Target256.swift:50-57 | Byte k is the k-th highest byte of the number. |
| Compact.RoundTrip | Sources/Consensus/Target256.swift:66-129 | Decoding what was encoded gives the number rounded down to its leading bytes. |
| Compact.RoundedClose | Sources/Consensus/Target256.swift:101-129 | Rounding only goes down, by less than one part in 2^15, and not at all below 2^23. |
| Compact.RoundedMonotone | Sources/Consensus/Target256.swift:101-129 | Rounding is monotone. |
| Compact.RoundedTwice | Sources/Consensus/Target256.swift:101-129 | A decoded target encodes to the same compact value: encoding is idempotent through decoding. |
| Retarget.Retarget | Sources/Consensus/DifficultyRetarget.swift:37-64 | For work times spacing within 256 bits the computed bits are those asked for by that work over the time between the two blocks, if it is within the bounds, and over the bound it passed otherwise: 2^256 / hashrate - 1 encoded, so less than one part in 2^15 below it, or the limit if that is above the limit. Wrapping work is covered by the same formula modulo 2^256. |
| Retarget.NewBitsAsk | Sources/Consensus/DifficultyRetarget.swift:37-64 | The same of the formula, for any work below 2^256 and any elapsed time, negative ones included. |
| Retarget.WithinLimit | Sources/Consensus/DifficultyRetarget.swift:37-64 | The decoded target never exceeds the limit. |
| Retarget.MonotoneInTime | Sources/Consensus/DifficultyRetarget.swift:37-64 | A longer elapsed time never gives a harder target. |
| Retarget.MonotoneInWork | Sources/Consensus/DifficultyRetarget.swift:37-64 | More work in the same time never gives an easier target. |
| Retarget.CloseToHashrate | Sources/Consensus/DifficultyRetarget.swift:37-64 | Inside the limit the target is below, and within one part in 2^15 of, the one the measured hashrate calls for. |
| Retarget.GetSuitableBlock | Sources/Consensus/DifficultyRetarget.swift:70-83 | The three swaps return one of the three blocks, and its time is their median. |
| Retarget.TargetToWork | Sources/Consensus/DifficultyRetarget.swift:88-93 | The expected number of hashes, floor(2^256 / (target + 1)), for every compact value. |
| Retarget.WorkPositive | Sources/Consensus/DifficultyRetarget.swift:88-93 | A nonzero target stands for at least one hash. |
| Retarget.DecodedBound | Sources/Consensus/Target256.swift:66-98 | No compact value decodes to the largest 256-bit number, so adding one never wraps. |
| Balloon.ProofAccepted | Sources/ExtCrypto/BalloonProof.swift:115-183 | For every password, salt and slot count, once the challenges are drawn the honest proof is accepted and its hash is the plain hash at one round and one neighbour. |
| Balloon.HonestAccepted | Sources/ExtCrypto/BalloonProof.swift:115-183 | The samples of an honest run are accepted whatever slots are challenged, repeated ones included. |
| Balloon.AcceptedBindsHash | Sources/ExtCrypto/BalloonProof.swift:115-183 | Whatever is accepted starts with the last slot, recomputed to the claimed hash. |
| Balloon.MixInvariant | Sources/ExtCrypto/BalloonHash.swift:72-102 | When slot n is due, the slots before it are mixed, the others fresh, and the counter stands at slots + 2n. |
| Balloon.HashIsLastSlot | Sources/ExtCrypto/BalloonHash.swift:32-110 | At one round and one neighbour the hash is the last mixed slot. |
| Balloon.Hash | Sources/ExtCrypto/BalloonHash.swift:32-110 | The in-place computation over one buffer equals expand, mix and extract on values, for any rounds and neighbours. |
| BalloonStrings.NeighbourIsAnswer | Sources/ExtCrypto/BalloonHash.swift:85-94 | The neighbour is the number in the first eight bytes of the inner hash, lowest byte first, modulo the slots. |
| BalloonStrings.EverySlotReached | Sources/ExtCrypto/BalloonHash.swift:85-94 | So every slot is the neighbour of every other under some inner hash. |
| BalloonStrings.NeighbourString | Sources/ExtCrypto/BalloonHash.swift:85-94 | The string hashed for it is counter, round, slot and number of the neighbour, eight bytes each. |
| BalloonStrings.TwoSlots | Sources/ExtCrypto/BalloonHash.swift:55-102 | The whole hash of two slots without neighbours, in terms of the inner hash: which strings, in which order. |
| BalloonStrings.HashDepends | Sources/ExtCrypto/BalloonHash.swift:55-102 | The hash depends on the inner hash only at the strings listed for the run. |
| BalloonStrings.StringsDistinct | Sources/ExtCrypto/BalloonHash.swift:55-102 | While the counter fits 64 bits no string is hashed twice in one run: each has a counter of its own, but for a neighbour and its mix, which differ in length. |
| Balloon.Expand | Sources/ExtCrypto/BalloonHash.swift:55-70 | The expand loop fills the buffer with the chain of hashes and counts every call. |
| Balloon.MixBuffer | Sources/ExtCrypto/BalloonHash.swift:72-102 | The three nested loops overwrite each slot by its predecessor and its neighbours in turn, for any rounds and neighbours. |
| Balloon.HashWithProof | Sources/ExtCrypto/BalloonHash.swift:119-270 | Returns the hash and one sample per challenge, taken from the mixed buffer and the copy made before mixing. |
| Balloon.Verify | Sources/ExtCrypto/BalloonProof.swift:115-183 | The checks over the samples accept exactly the lists of 32 samples that hold one by one and agree with each other. |
| Balloon.CheckSample | Sources/ExtCrypto/BalloonProof.swift:128-167 | One sample is accepted exactly when its slot, predecessor, neighbour and mix recompute. |
| BalloonVerdict.AcceptedExactly | Sources/ExtCrypto/BalloonProof.swift:115-183 | With more slots than samples a proof is accepted if and only if it has one sample for each challenge, each recomputes expand value, neighbour and mixed value of its slot from the strings hashed, the output in the last slot, and any two samples of adjacent slots agree on the expand chain. |
| BalloonVerdict.ConsistentIsLinked | Sources/ExtCrypto/BalloonProof.swift:171-180 | Comparing neighbours in sorted order compares all samples of adjacent slots, when no slot is sampled twice. |
| Balloon.DrawChallenges | Sources/ExtCrypto/BalloonProof.swift:76-101 | The loop with its growing array and used set draws the challenges that `ChallengesGood` describes. |
| BalloonStrings.WordDrawn | Sources/ExtCrypto/BalloonProof.swift:76-101 | The k-th challenge of a seed is its k-th 32-bit word, lowest byte first, modulo the slots, and is skipped only if used before with more slots than challenges. |
| Balloon.ChallengesGood | Sources/ExtCrypto/BalloonProof.swift:76-101 | The challenges are 32 slots, the last slot first, and distinct when there are more slots than challenges. |
| Balloon.FewSlotsSuffice | Sources/ExtCrypto/BalloonProof.swift:76-101 | Up to 32 slots the drawing always ends within four seeds. |
| Balloon.FuelIrrelevant | Sources/ExtCrypto/BalloonProof.swift:76-101 | The bound on the number of seeds never changes the challenges drawn. |
| DnsName.WriteMessage | Sources/DNS/DNSName.swift:117-156 | Legal names written through one compression map with any bytes between them each decode, in the finished message, from their start to their own labels and end where the next bytes begin. |
| DnsName.ReadName | Sources/DNS/DNSName.swift:48-109 | Reading such a name back gives it with its final dot and leaves the reader just behind it. |
| DnsName.Write | Sources/DNS/DNSName.swift:117-156 | Bytes written before are untouched; only a label over 63 bytes is refused. The labels are written out up to the first whose suffix the map leads to below 16384, and then a pointer to it, or the terminator if there is none; each suffix written out is recorded at its place. A legal name ends up spelled at its start, and every map entry below 16384 still reaches its own suffix. |
| DnsName.SecondTime | Sources/DNS/DNSName.swift:130-142 | A name, or a suffix of it, that was written out below 16384 takes two bytes when it is written again. |
| DnsName.Decode | Sources/DNS/DNSName.swift:48-109 | The loop over labels and pointers returns the labels and the position after the name, or the error, that the recursive parser does. |
| DnsName.StartIsParsed | Sources/DNS/DNSName.swift:48-109 | Whatever is spelled, through any number of pointers, decodes to its labels; there is a label for every jump, so 128 jumps are never reached. |
| DnsName.SuffixesSpelled | Sources/DNS/DNSName.swift:131-152 | Each suffix of a written name is spelled where the map says. |
| DnsName.RecordedSound | Sources/DNS/DNSName.swift:131-152 | The new map entries point at bytes that decode to their suffixes, and the old ones still do. |
| DnsName.FinishWithPointer | Sources/DNS/DNSName.swift:134-140 | A name ended by a pointer to a recorded suffix decodes whole. |
| DnsName.FinishWithTerminator | Sources/DNS/DNSName.swift:131-155 | A name ended by the zero byte decodes whole. |
| DnsName.ParseLonger | Sources/DNS/DNSName.swift:48-109 | A successful decoding is not changed by bytes appended later. |
| DnsName.JoinInjective | Sources/DNS/DNSName.swift:129-132 | Different lists of labels have different map keys. |
| DnsName.JoinSplit | Sources/DNS/DNSName.swift:129-132 | Splitting at dots and joining again loses nothing. |
| Mempool.Mempool.AcceptTransaction | Sources/Mempool/Mempool.swift:99-265 | Accepts exactly what has none of the faults, told of the pool's transactions themselves, and fits after what an eviction leaves; a refusal before the size check names a fault the transaction has; after a success the pool is what the eviction left plus the entry; the size limit and all indices hold after success and refusal alike. |
| Mempool.Mempool.ScreensIff | Sources/Mempool/Mempool.swift:99-180 | The lookups in the indices pass if and only if no transaction of the pool spends the same outpoint or makes an exclusive output for the same name. |
| Mempool.Mempool.AddEntry | Sources/Mempool/Mempool.swift:319-338 | Adds exactly the entry; spents stays the inverse of all inputs, size the sum of estimates, every claimed name with one holder. |
| Mempool.Mempool.RemoveEntry | Sources/Mempool/Mempool.swift:344-372 | Terminates; removes and returns the entry and its dependents, once each, and leaves no spender of a removed output; all indices hold. |
| Mempool.RemovalExact | Sources/Mempool/Mempool.swift:344-372 | What goes is exactly the entry and everything reachable from it by spends of unconfirmed outputs. |
| Mempool.Mempool.EvictByFeeRate | Sources/Mempool/Mempool.swift:473-506 | Over the threshold, the cheapest entries go in order with their dependents, no more of them than needed: the pool ends at or below the threshold or empty. |
| Mempool.Mempool.EvictExpired | Sources/Mempool/Mempool.swift:451-463 | What stays is exactly what depends on no expired entry. |
| Mempool.Mempool.RemoveBlock | Sources/Mempool/Mempool.swift:274-291 | What stays is exactly what depends on no confirmed transaction. |
| Mempool.ConflictsStay | Sources/Mempool/Mempool.swift:269-291 | After a block is removed the pool still spends an outpoint of the block if and only if before it the spender of some outpoint of the block depended on no confirmed transaction. |
| Mempool.KnownBlockLeavesNone | Sources/Mempool/Mempool.swift:269-291 | No such conflict is left when the pool held every transaction of the block that really spends something. |
| Mempool.ConflictExample | Sources/Mempool/Mempool.swift:269-291 | An entry that spends the same coin as a confirmed transaction the pool did not hold: it stays. |
| Mempool.WithoutMore | Sources/Mempool/Mempool.swift:473-506 | Removals add up: the order in which entries go does not matter. |
| Mempool.Mempool.IsDoubleSpend | Sources/Mempool/Mempool.swift:80-88 | True exactly when some non-null input is spent in the pool. |
| Mempool.StillFree | Sources/Mempool/Mempool.swift:240-259 | Inputs and names that were free before an eviction are free after it. |
| Mempool.Run | Sources/Mempool/Mempool.swift:99-372 | After any sequence of accepts, removals, evictions and blocks all indices agree and the pool is within its limit. |
| ContractState.ContractState.HasNames | Sources/Mempool/ContractState.swift:34-51 | True exactly when some OPEN, REGISTER, UPDATE, RENEW, TRANSFER, FINALIZE or REVOKE is on a name already claimed. |
| ContractState.ContractState.Track | Sources/Mempool/ContractState.swift:54-78 | The tables after the loop are those whose members `TrackedMembers` determines, for malformed and repeated names too. |
| ContractState.ContractState.Untrack | Sources/Mempool/ContractState.swift:81-114 | The tables after the loop are those whose members `UntrackedMembers` determines. |
| ContractState.TrackedMembers | Sources/Mempool/ContractState.swift:54-78 | Tracking adds the transaction under exactly the names and roles it touches, and exactly the claimed names to the exclusive set. |
| ContractState.UntrackedMembers | Sources/Mempool/ContractState.swift:81-114 | Untracking a sole claimant takes out exactly that. |
| ContractState.TrackDescribes | Sources/Mempool/ContractState.swift:54-78 | The tables describe the pool: each name's holders per role, the exclusive names exactly those opened or updated, one holder each. |
| ContractState.UntrackDescribes | Sources/Mempool/ContractState.swift:81-114 | Taking a transaction out leaves tables that describe the smaller pool, repeated names in one transaction included. |
| BlockTemplate.Assemble | Sources/Mining/BlockTemplate.swift:76-139 | The block is a permutation of the greedy selection with parents first; weight, sigops and fees are what recounting the block would give, so the recount branch is never taken; the limits hold. |
| BlockTemplate.Select | Sources/Mining/BlockTemplate.swift:80-118 | The selection loop with its running totals and selected set computes the greedy choice. |
| BlockTemplate.GreedyClosed | Sources/Mining/BlockTemplate.swift:80-118 | The selection is duplicate-free, drawn from the pool, within the limits, and every in-pool parent of a transaction was selected before it. |
| BlockTemplate.GreedyTotals | Sources/Mining/BlockTemplate.swift:112-139 | The running totals are the sums over the selection; fees saturate. |
| BlockTemplate.GreedyMaximal | Sources/Mining/BlockTemplate.swift:87-118 | A candidate passed over although its parents were in by its turn does not fit into the finished block. |
| BlockTemplate.TopologicalOrder | Sources/Mining/BlockTemplate.swift:191-246 | Kahn's queue with repeated edges: no repetition, drawn from the input, parents first, and whoever is left out waits for somebody left out. |
| BlockTemplate.CompleteIffOrderable | Sources/Mining/BlockTemplate.swift:191-246 | Nothing is dropped if and only if some order respects all dependencies. |
| BlockTemplate.SelectionOrderable | Sources/Mining/BlockTemplate.swift:120-139 | A parent-closed selection with distinct ids can be ordered, so the sort drops nothing of it. |
| BlockTemplate.ParentsPrecede | Sources/Mining/BlockTemplate.swift:191-246 | In the output every in-block transaction an input names stands before the one that names it. |
| BlockTemplate.TopologicalSort | Sources/Mining/BlockTemplate.swift:191-246 | The sorted transactions are those of the queue, in its order; one or none come back as they are; a permutation whenever the dependencies can be ordered. |
| BlockTemplate.CountParents | Sources/Mining/BlockTemplate.swift:194-211 | The first loop lists each transaction's in-block parents, once per input. |
| BlockTemplate.ReverseEdges | Sources/Mining/BlockTemplate.swift:222-228 | The reverse lists hold a child once per input that names the parent. |
| MerkleTree.RootDeterminesList | Sources/Consensus/MerkleTree.swift:57-85 | Unless two strings hashed on the way collide, equal roots mean equal lists, lengths included. |
| Rfc6962.SameRootIff | Sources/Consensus/MerkleTree.swift:57-85 | Unless two strings hashed on the way collide, the root is the merkle tree hash of section 2.1 of RFC 6962 if and only if the number of elements is zero or a power of two. |
| Rfc6962.PowersAgree | Sources/Consensus/MerkleTree.swift:57-85 | For these numbers it is, with no assumption on the hash. |
| Rfc6962.ThreeLeaves | Sources/Consensus/MerkleTree.swift:66-82 | Both roots of three elements: the last leaf is paired with the sentinel in one and stands by itself in the other. |
| MerkleTree.ComputeRoot | Sources/Consensus/MerkleTree.swift:57-85 | The loop over one growing array with moving indices computes the level-by-level root. |
| MerkleTree.AppendLevel | Sources/Consensus/MerkleTree.swift:66-82 | One pass appends exactly the next level, an odd last node paired with the sentinel. |
| MerkleTree.UpInjective | Sources/Consensus/MerkleTree.swift:66-82 | A level is determined by the one above it: no padded pair is another pair. |
| MerkleTree.HeightUnique | Sources/Consensus/MerkleTree.swift:30-46 | A hash stands at one height only, because leaves, nodes and the sentinel hash different strings. |
| MerkleTree.TopInjective | Sources/Consensus/MerkleTree.swift:57-85 | Two levels of equal height under the same top are equal. |

## Left out

- Balloon.DrawChallenges: takes a bound on the number of seeds; for more than 32 slots the source's loop ends only if the hash chain yields enough different indices, and the laws say what holds once it has.
- CoinRuns.Run: a run does not mine again a transaction of which an undone block has left a coin; what one such connect stores and counts is stated by `UtxoChain.ConnectBlock`, what later events make of it is not.
- CoinRuns.Handle: likewise, event by event.
- UtxoReorgs.DisconnectTo: phantoms that an older block of the same chain knew, which takes ids that recur, are not covered.
- UtxoReorgs.UndoTop: likewise.
- CovenantFees.DoubleUseOtherwise: speaks of balances only; `FeeExact.ExactlyApart` is the form with transactions.
- CovenantProcessor.ProcessOutput: the kind of error is not stated, only when one is thrown; the payment check has one error for burn and payments.
- Mempool.Mempool.AcceptTransaction: policy, covenant, coin and witness checks are three outcomes passed in; which of several faults is named is not stated.
- HeaderChain.HeaderChain.CheckHeader: likewise, which of several faults is named.
- UtxoChain.CheckBody: block weight and size are among the remaining checks, whose outcome is passed in.
- UtxoChain.CheckTransactionSanity: so are a transaction's weight and its count of witnesses.
- DnsName.WriteMessage: names are byte strings; Swift compares `String` keys by canonical equivalence and splits by Character, which differs for labels that are not ASCII.
- DnsName.Decode: the form without a surrounding message, in which pointers are refused, is not modelled.
- HeaderChain.HeaderChain.Add: the proof check and the work of a target are arbitrary functions, and so is the difficulty rule, as a function of the path to the parent; `Difficulty` states the rule and puts it in its place.
- NameDB.NameDB.Commit: how many tree nodes a commit rewrites is a parameter; the Urkel tree itself is a map stored whole under the id of its root, so nodes that snapshots share are abstracted; root hash and proofs are not part of this model. The tree holds states, not their bytes: for a state that does not fit the format, which the source cannot write, it holds the state all the same; `NameStorage.RunFits` says when none arises.
- NameDB.Disk.CommitSound: the same abstraction of shared nodes.
- NameDB.Disk.RollbackMeaning: likewise.
- Rules that only accept or refuse a name (characters, the ICANN list, rollout, DNSSEC proofs, delegation records, the bid blind) are arbitrary functions; so are witness verification and signatures.
- The resolution of the dev-fund address is a parameter of a block.
- Genesis registers its names directly; replaying genesis does not, so name runs start after it.
- The in-memory name database has no snapshots to roll back to and is not modelled.
- `ChainState.tx` counts view entries on connect and transactions on disconnect and is not restored; `persistedHeight` after an unflushed reorganization is not tied to the file contents.
- A failing write batch, crash recovery, block files, the store of headers, transaction and address indexes, callbacks and locks: every public operation is one atomic step.
- Traps of Swift's checked 64-bit arithmetic on name values, fees and heights, and the packing of a coin's height into 31 bits; saturation and overflow checks the code makes itself are modelled.
- `expirationHeight` is one block off `isExpired` for unregistered winners and is not tied to it.
- The orphan pool, the ancestor limit's count, and the fields of a pool entry beyond size, rate and time.
- The order in which the pool lists entries of equal fee rate; candidates reach the template as a given list.
- Coinbase construction, witness roots, block weight and the version bits a miner sets.
- Reading a target from 32 big-endian bytes; BLAKE2b, SHA-3 and the scratch buffer the hash assembles its inputs in.
- `getLocator`, `reindexBlocks` and `repairTreeFromStoredBlocks`.
- Sockets, servers, peers, the command line, wallets, scripts and fixed-layout codecs.
