# Breakout Coin: a verified model

Breakout is a proof-of-work and proof-of-stake chain with 57 currencies ("colors") on one ledger. This
project models the parts of the node in which a mistake would be a consensus fault or a lost coin, and
proves what they are meant to guarantee, for every input and every run:

- `Ledger`, `LedgerValues`, `LedgerLaws`, `LedgerDb` - the transaction index, the supply and mint vectors, and
  `ConnectBlock` / `DisconnectBlock` as they run. `Ledger` gives what connecting and disconnecting mean
  as functions of an index, `LedgerValues` what a block does to the money of each color, `LedgerLaws` where that
  money comes from and goes to in terms of outputs and rewards, and `LedgerDb` the code in its own imperative form, proved against both.
- `TxIds` - the height at the start of every coinbase, and what follows from it: no chain has a txid
  twice, so that nothing in the index is ever overwritten and every block can be disconnected again.
- `BlockTree`, `ChainSwitch` - the tree of block index entries, `Reorganize`, and the two-phase switch of
  `SetBestChain`.
- `BestChain` - a whole node that is sent blocks in any order: it is always on the chain with the most
  trust among those that connect.
- `CheckQueue`, `QueueProgress` - the script check queue as a state machine. Each critical section is one
  step, the evaluation of one check outside the mutex is one step, and a run is any interleaving of them.
  `CheckQueue` says that its answers are right, `QueueProgress` that they come.
- `AddrTables`, `AddrMan`, `AddrCheck`, `AddrFile` - the address manager's linked tables, its methods for
  every outcome of their random draws, its own consistency check, and its file format.
- `Mempool`, `PoolChain`, `PoolSwitch` - the memory pool with its index of spends, and what it is over
  the chain: all that its transactions spend is unspent in the index or made by another of them. `PoolChain`
  says when single steps keep that, `PoolSwitch` when a whole `Reorganize` does.
- `StakeModifier`, `Compact`, `Retarget` - the selection of stake modifier bits, big numbers in the MPI
  and compact formats, and the difficulty retarget.
- `Frames`, `Base58`, `Pbkdf2`, `ExploreDb` - message framing, Base58 addresses, HMAC and PBKDF2, and the
  write batch laid over the explorer database.
- `Counterexamples` - inputs at which the code does not do what it is meant to do, each beside the
  theorem that says exactly when it does.
- `Options`, `Ordered`, `Arithmetic`, `ByteStrings` - small shared parts.

`dafny verify dfyconfig.toml` checks everything.

Conventions. Money, targets, times and counters are unbounded integers. Hashes, signatures, script
solving and evaluation, the fork table, the reward tables and the random source are function values or
arbitrary choices, so that each theorem holds whatever they are. Hashes of transactions are identities.
Block heights in scripts are 32-bit numbers.
Where an operation of the source is a loop or changes fields, the model is a method with a loop or a
class with those fields; its contract ties it to a function, and the lemmas are about that function.

What the proofs found out about the code:

- Disconnecting a block depends on a rule that is far from it. `DisconnectBlock` gives back the index before
  `ConnectBlock` exactly when the block repeats no txid that is in it, fully spent ones included
  (`Ledger.DisconnectUndoesConnect`, `Counterexamples.DisconnectLosesEntry`). `AcceptBlock` wants every
  coinbase to start with the height of its block (src/main.cpp:4591-4598), and from that alone no txid
  comes twice in a chain (`TxIds.NoTxidRepeats`): a coinbase would have to be at two heights, and anything
  else would spend again what is spent. So in every run the index is exactly the replay of the chain, and
  the tip can be disconnected (`TxIds.RunIsExact`, `TxIds.RunCanBeUndone`). Without the rule the overwritten
  entry is lost, and the block that spent it can then never be disconnected (`Counterexamples.SpenderIsStuck`).
- The reset of the SIS mint at the FORK004-to-FORK005 boundary does not survive a proof-of-stake block
  whose reward is in SIS: it adds the reward to the unreset total (src/main.cpp:2911-2912).
  `LedgerValues.ResetByStake` gives the exact condition under which the supply is then within the mint,
  and `Counterexamples.ResetIsUndone` a block that fails it. The block before it has to be one whose
  supply of SIS is above its mint; by `LedgerValues.MoneyIsConserved` no run from genesis reaches such a
  block while sums do not overflow, which is what the reset is there to repair.
- `SetBestChain` makes the new block the best one even when a postponed connect has failed
  (src/main.cpp:3954-3957, 4037-4041). It answers true exactly when the switch to the first block of the
  branch with more trust than the old best one succeeds, and the node then keeps track of its best block
  exactly when one direct switch to the new block would succeed (`ChainSwitch.ChainState.SetBestChain`,
  `Counterexamples.PostponedBlockFails`). As long as blocks only arrive this cannot happen
  (`BestChain.RunNode`): a known block with more trust than the best one never connects. It needs a tree in
  which such a block is known and has not been tried, as after a stop between the storing of an entry and
  the switch to it (src/main.cpp:4286-4297): the best block is then read back from disk as it was
  (src/txdb-leveldb.cpp:448-462), and the next block on top starts a switch in two parts.
- The miner relies on it that every pool transaction connects to the chain or to another one of the pool
  (src/miner.cpp:407-414), and from such a pool every choice makes a block that connects
  (`PoolChain.PoolIsMinable`). The pool can lose that property. `SetBestChainInner` takes the transactions of a new
  block out of the pool but not those in conflict with them (src/main.cpp:3551-3555), so that the pool connects
  afterwards exactly when there was no conflict (`PoolChain.ConnectTip`, `Counterexamples.ConflictIsLeft`);
  `Reorganize`, which removes conflicts, keeps the pool connected (`PoolChain.ConnectBranch`). When blocks
  are disconnected, coinbase, coinstake and nonstandard transactions do not come back, nor do any from before
  the last checkpoint. After one block the pool connects exactly when nothing that was in it, or came back,
  spends an output of one of those (`PoolChain.DisconnectTip`, `Counterexamples.ParentIsLost`), and after a
  whole switch exactly when nothing that survives does, those in the new branch apart (`PoolSwitch.Reorganize`).
- `SelectTried` swaps an inspected entry away and then remembers the place it was drawn from
  (src/addrman.cpp:161-168), so that the least recently successful of the inspected entries is evicted
  exactly when its draw was its own place (`AddrMan.AddrMan.SelectTried`,
  `Counterexamples.EvictionMissesTheOldest`).
- Reading a file of another bucket count puts every new entry into its home bucket without a look at the size.
  The result is valid exactly when no bucket is home to more than 64 (`AddrFile.RebuiltIsValid`,
  `Counterexamples.RebuiltBucketIsTooFull`). With a count above 256 the reader refers to elements past the
  end of `vvNew` (src/addrman.h:405), which is undefined; in `AddrFile.Read` that is a failure.
- `CBitcoinAddress::IsValid` accepts the color `N_COLORS`, for which `ToString` gives `<not valid>`, which
  reads as no address. A valid address is restored exactly when its color is one of the colors
  (`Base58.ValidAddressRoundTrip`, `Base58.ValidAddressIsLost`).
- `CBitcoinAddress::SetString` skips white space around the text and bytes behind the hash, so that one address
  has several texts. A text is that of the address it reads as exactly when it has neither
  (`Base58.AddressTextIsRestored`).
- The comment in `PBKDF2_SHA256` says that later iterations start from the precomputed state; in the code
  only the first of each block does, and the others set the key up again (src/pbkdf2.cpp:170-173,
  213-217). The result is the same.
- The running average of the retarget counts its first target twice (src/main.cpp:1735-1745). It still
  lies between the smallest and the largest.

## Model

| member | source | states |
|---|---|---|
| Ledger.UndoOneTx | src/main.cpp:2024-2057 | undoing the transaction that was applied last restores the entries it spent from and removes its own |
| Ledger.UndoTxsInverts | src/main.cpp:2469-2478 | undoing the transactions of a block backwards leads back through every intermediate index, also when later ones spend earlier ones |
| Ledger.PositionIs | src/main.cpp:2603-2606 | a transaction is placed in its file behind the sizes of all those before it in its block |
| Ledger.DisconnectUndoesConnect | src/main.cpp:2469-2508 | disconnecting a connected block gives the index before it, less entries with the block's txids, which were fully spent; it gives exactly the index before if and only if the block repeats no txid of it |
| Ledger.ApplyBlockCovers | src/main.cpp:2590-2595 | dropping fully spent entries changes neither whether a block connects nor which unspent outputs it leaves |
| Ledger.StepKeepsReplay | src/main.cpp:2972-2979 | every connect or disconnect keeps the index equal to the replay of the chain up to fully spent entries |
| Ledger.RunIsReplay | src/main.cpp:2469-3010 | so does every run of connects and disconnects |
| Ledger.RunHasReplayedOutputs | src/main.cpp:2469-3010 | after every run an output is spendable, with its value, exactly when it is after replaying genesis to the tip |
| TxIds.HeightIsUnique | src/main.cpp:4591-4598 | no script starts with two different heights |
| TxIds.HeightBytes | src/script.h:357-369 | the bytes of every height: an opcode up to 16, and otherwise a count and the number, lowest byte first, with room for the sign |
| TxIds.NoTxidRepeats | src/main.cpp:4591-4598 | in a chain that connects and whose coinbases start with their heights no txid comes twice |
| TxIds.RunIsExact | src/main.cpp:2469-3010 | after every run of connects and disconnects of such blocks the index is exactly the replay of the chain |
| TxIds.RunCanBeUndone | src/main.cpp:2469-2508 | after every such run the last block can be disconnected, which leaves exactly the replay of the chain without it |
| TxIds.LawfulRunsExist | src/main.cpp:4591-4598 | for every length there is a run that keeps the height rule and connects that many blocks |
| Ledger.OverwrittenEntryIsLost | src/main.cpp:2590-2595 | an entry that a block overwrites was fully spent and is missing after the block is disconnected |
| Counterexamples.DisconnectLosesEntry | src/main.cpp:2590-2595 | why heights matter: connecting and disconnecting a coinbase that repeats a fully spent txid loses the entry |
| Counterexamples.SpenderIsStuck | src/main.cpp:4591-4598 | why heights matter: a run in which the same coinbase comes twice, after which the block that spent the first one cannot be disconnected |
| LedgerValues.TxTotal | src/main.cpp:2620-2676 | one transaction changes the sum of unspent values of a color by its outputs less its inputs, through in-block spends and overwrites |
| LedgerValues.NetFeesNotNegative | src/main.cpp:2713-2733 | over any prefix of an accepted block, inputs less outputs of the non-coinbase transactions are not negative in any color |
| LedgerValues.CoinbaseOut | src/main.cpp:2797-2855 | the coinbase of an accepted block pays out, per color, at most the reward of that color and, with proof of work, the fees |
| LedgerValues.SupplyWithinMint | src/main.cpp:2862-2957 | an accepted block keeps the supply of a color within its mint, and what it may scavenge is not negative |
| LedgerValues.ResetRestoresSis | src/main.cpp:2558-2569 | a proof-of-work block that takes the reset establishes the bound for SIS whatever the mint was before |
| LedgerValues.ResetByStake | src/main.cpp:2879-2914 | a proof-of-stake block that takes the reset leaves the bound for SIS if and only if the reward is in another color or the old excess is covered by unclaimed reward and fees |
| Counterexamples.ResetIsUndone | src/main.cpp:2894-2914 | a proof-of-stake block with a staked coin and a paid reward that is accepted, takes the reset and leaves the supply of SIS above its mint |
| LedgerValues.ConnectBalances | src/main.cpp:2918-2957 | connecting a block keeps, for every color, unspent outputs = supply + burned so far and supply <= mint |
| LedgerValues.AdvanceKeepsSound | src/main.cpp:2511-3010 | every connect and disconnect keeps all of this at every block of the chain |
| LedgerValues.RunIsSound | src/main.cpp:2511-3010 | and so does every run from genesis |
| LedgerValues.MoneyIsConserved | src/main.cpp:2918-2957 | after every run, for every color, the unspent outputs sum to the tip's supply plus all that was burned, and the supply is within the mint |
| LedgerLaws.BlockWithoutData | src/main.cpp:2918-2957 | a block without data-carrying outputs changes the supply of every color by its outputs less its inputs |
| LedgerLaws.OneMoreOutput | src/main.cpp:2928-2957 | one more data-carrying output after the burn start takes exactly its value from supply and mint of its color; any other output raises the supply by its value and lowers nothing |
| LedgerLaws.MoneyWithoutData | src/main.cpp:2918-2957 | after every run to a chain without data-carrying outputs the unspent outputs of every color are worth its supply |
| LedgerLaws.MintIsRewards | src/main.cpp:2862-2957 | after every run without the SIS reset the mint of a color is the sum of all rewards in it less all that was burned, and its unspent outputs are worth no more than the rewards |
| LedgerLaws.CoinbaseLimit | src/main.cpp:2752-2855 | a coinbase with one output is accepted if and only if it leaves the supply within mint plus reward for a scavengable color, or takes at most the reward for another one |
| LedgerLaws.UnsolvableScripts | src/main.cpp:2928-2957 | scripts keep a block out exactly when burns are counted and a transaction from before the first fork has an output that cannot be solved |
| LedgerLaws.ConnectedShape | src/main.cpp:4341-4374 | a block that connects has exactly one coinbase, in front, with proof of stake exactly one coinstake behind it, and no transaction without inputs or outputs |
| LedgerLaws.RunHasNoDebt | src/main.cpp:739-744 | after every run no output in the index is worth less than nothing |
| LedgerDb.FillValuesOut | src/main.h:751-764 | the outputs of a transaction summed by color |
| LedgerDb.FillValuesIn | src/main.cpp:2169-2181 | the outputs a transaction spends summed by color |
| LedgerDb.AddFees | src/main.cpp:2713-2733 | the fee loop adds inputs less outputs for exactly the scavengable colors |
| LedgerDb.CoversOutputs | src/main.cpp:2320-2334 | accepts exactly when no color puts out more than it takes in |
| LedgerDb.AddScavenged | src/main.cpp:2752-2777 | the scavenging loop adds, for each scavengable color, mint (or its reset value) less supply of the block before |
| LedgerDb.CheckPowCoinbase | src/main.cpp:2797-2855 | the coinbase checks accept exactly the coinbases within reward and fees, with the reward color in the first output only |
| LedgerDb.TallyBurns | src/main.cpp:2928-2957 | the burn loop sums data-carrying outputs by color and fails exactly on an unsolvable script before the first fork |
| LedgerDb.NextVectors | src/main.cpp:2862-2957 | the new supply and mint of every color |
| LedgerDb.Settle | src/main.cpp:2751-2957 | everything after the transactions: accepts exactly when coinbase or stake and scripts are in order, and writes the vectors of the next block index entry |
| LedgerDb.TxDb.DisconnectInputs | src/main.cpp:2024-2057 | does what undoing one transaction means, or fails exactly when that is impossible; outputs in the index keep valid colors |
| LedgerDb.TxDb.DisconnectBlock | src/main.cpp:2469-2508 | does what undoing a block means, or fails exactly when that is impossible; outputs in the index keep valid colors, so that blocks can be connected again |
| LedgerDb.TxDb.FetchInputs | src/main.cpp:2060-2134 | reads for every input the pending entry, or else the stored one, and fails exactly when an output is not there |
| LedgerDb.TxDb.ConnectInputs | src/main.cpp:2199-2334 | marks exactly the spent outputs in the pending changes, and fails exactly when one is spent already or some color puts out more than it takes in |
| LedgerDb.TxDb.ConnectBlock | src/main.cpp:2511-3010 | accepts exactly the blocks `ConnectOk` describes, leaves the index that applying the block means and the next vectors, and leaves the index alone on failure |
| BlockTree.FindFork | src/main.cpp:3016-3028 | the loop ends at the lowest common ancestor |
| BlockTree.ForkIsUnique | src/main.cpp:3016-3028 | there is only one lowest common ancestor |
| BlockTree.CollectBranch | src/main.cpp:3031-3044 | the blocks from a tip down to the fork, in order |
| ChainSwitch.ConnectKeepsGood | src/main.cpp:3520-3558 | attaching a block to the tracked one keeps index and vectors those of the chain |
| ChainSwitch.DisconnectKeepsGood | src/main.cpp:3188-3195 | so does taking the tip away |
| ChainSwitch.SwitchGood | src/main.cpp:3065-3350 | so does a whole switch between branches |
| ChainSwitch.ForkAbove | src/main.cpp:3785-3809 | stopping half way up a branch, at a block with more trust than the best one, does not move the fork |
| ChainSwitch.TwoPhase | src/main.cpp:3785-3957 | switching to an intermediate block and then connecting the rest block by block has the same outcome, state or failure, as one direct switch |
| ChainSwitch.ChainState.Reorganize | src/main.cpp:3012-3383 | it forks at the lowest common ancestor; on success pnext, mapBlockLookup, index and vectors describe exactly the path to the new tip, on failure still the old one, and the outcome is that of the switch |
| ChainSwitch.ChainState.SetBestChainInner | src/main.cpp:3520-3558 | attaches one block, with its links, or changes nothing |
| ChainSwitch.ChainState.SetBestChain | src/main.cpp:3560-4041 | succeeds exactly when the switch to the first block of the branch that beats the old best one does; the state is that of one direct switch to the new block exactly when that switch succeeds, and otherwise that of the last block reached, above which a block fails; the node tracks its best block afterwards if and only if the direct switch succeeds |
| ChainSwitch.Postpone | src/main.cpp:3785-3799 | the loop ends at the lowest block of the branch with more trust than the best one, and keeps the blocks above it in order |
| Counterexamples.PostponedBlockFails | src/main.cpp:3954-3957 | a tree, its last block well formed but paid too much, in which the first part of the switch succeeds and the whole does not |
| BlockTree.GrowsWellFormed | src/main.cpp:4192-4300 | a new entry on a known one keeps the tree well formed |
| ChainSwitch.ChainState.constructor | src/main.cpp:4192-4300 | a node that knows only genesis keeps track of it |
| ChainSwitch.ChainState.AddToBlockIndex | src/main.cpp:4192-4300 | a known block is refused; a new one enters the tree above its parent, with its height and its trust plus its own work, and is switched to as SetBestChain says exactly when its chain has more trust |
| ChainSwitch.LinkedAt | src/main.cpp:3352-3382 | after linking, the lookup of every height is the block of the path there, and its forward pointer the next one |
| BestChain.PathUndone | src/main.cpp:2469-2508 | a block of a tree with the height rule can be disconnected, which leaves the state of its parent |
| BestChain.SwitchIsReplay | src/main.cpp:3012-3383 | a switch succeeds if and only if all blocks from genesis to the new tip connect one by one, whatever the old tip was, and it leaves what connecting those gives |
| BestChain.AcceptBlock | src/main.cpp:4463-4623 | a block enters the tree, one above its parent and with the trust of that and its own work, if and only if it is new and well formed, its parent is known and its coinbase starts with its height; it becomes best if and only if its chain connects and has more trust; the node keeps index, vectors and links of its best block |
| BestChain.RunNode | src/main.cpp:4192-4300 | whatever blocks arrive, in any order, the best block is one with the most trust among all known blocks whose chain connects, index, vectors and links are those of its chain, and the trust of every known block is the sum of the work its chain came with |
| BestChain.TrustIsWork | src/main.cpp:4231-4234 | the trust of a known block is that of genesis plus what every block of its chain came with |
| CheckQueue.StepKeeps | src/checkqueue.h:61-118 | every critical section and every evaluation keeps the invariant of the queue |
| CheckQueue.RunKeeps | src/checkqueue.h:61-147 | so does every interleaving of one master and any number of workers |
| CheckQueue.WaitIsExact | src/checkqueue.h:131-147 | every answer of Wait is true exactly when all checks added since the last Wait are good; none of them ran twice, and a true answer means each ran once |
| CheckQueue.CountersAreExact | src/checkqueue.h:69-108 | whenever the mutex is free, nTodo is queued checks plus checks in unfinished batches and nTotal - nIdle is the number of threads with a batch |
| CheckQueue.ControlAsserts | src/checkqueue.h:164-170 | when nothing has been added since the last Wait the three asserts of the control hold |
| CheckQueue.MasterIsNotForgotten | src/checkqueue.h:70-95 | a master that sleeps and has not been notified always has a worker with an unfinished batch |
| QueueProgress.BatchIsShare | src/checkqueue.h:96-108 | a batch is the share of the queue per thread, rounded down, but at most the limit and at least one check |
| QueueProgress.WaitReturns | src/checkqueue.h:61-118 | from every state of every interleaving in which the master is in Wait, threads with batches going on and a notified master coming back are enough for Wait to return: no notification is lost |
| QueueProgress.RoundCanEnd | src/checkqueue.h:131-147 | whenever the master is outside, checks can be added and their Wait brought to an end, with the right answer about all checks added since the last one |
| AddrTables.SamePosKeeps | src/addrman.cpp:131-149 | a shuffle of vRandom with matching back pointers keeps all other tables consistent |
| AddrTables.DropKeeps | src/addrman.cpp:186-196 | taking an entry out of a new bucket, and away with its last reference, keeps the tables consistent |
| AddrTables.ClearKeeps | src/addrman.cpp:233-241 | taking an entry out of all new buckets keeps the tables consistent, the entry being nowhere |
| AddrTables.PushTriedKeeps | src/addrman.cpp:247-254 | putting such an entry into its tried bucket keeps the tables consistent |
| AddrTables.EvictKeeps | src/addrman.cpp:256-285 | so does putting it in the place of a tried entry that goes back to a new bucket with room |
| AddrTables.BucketIsRemainder | src/addrman.cpp:12-38 | a bucket is the remainder of the hash by the number of buckets |
| AddrMan.AddrMan.SwapRandom | src/addrman.cpp:131-149 | swaps two places of vRandom and their back pointers and nothing else |
| AddrMan.AddrMan.SelectTried | src/addrman.cpp:151-173 | the bucket is shuffled by the draws and nothing else; the position is the one the least recently successful of the inspected entries was drawn from, which holds that entry exactly when its draw was zero |
| Counterexamples.EvictionMissesTheOldest | src/addrman.cpp:151-173 | two entries and two draws by which the more recently successful one is evicted |
| AddrMan.AddrMan.ShrinkNew | src/addrman.cpp:175-227 | exactly one entry leaves the bucket: the lowest terrible id, or else the oldest of four drawn ones; tables stay consistent |
| AddrMan.AddrMan.MakeTried | src/addrman.cpp:229-285 | the entry becomes tried; when its bucket was full, one of that bucket becomes new, in the bucket of its source, or in the origin bucket exactly when that one is full |
| AddrMan.AddrMan.FindBucket | src/addrman.cpp:313-330 | the search always finds a bucket of a new entry, so that the exit for "something bad happened" is never taken |
| AddrMan.AddrMan.Good | src/addrman.cpp:287-336 | keeps the invariant; the known entry is tried afterwards with its new times, no entry is lost, and at most one other changes, from tried to new, exactly when the bucket was full; times stay within what the check demands exactly for a positive time |
| AddrMan.AddrMan.Add | src/addrman.cpp:338-394 | keeps the invariant; true exactly for a routable unknown address, which then has the announced entry in its bucket; a known one is refreshed, and gains a reference in one more bucket exactly when the news, its count and the draw allow it; another entry gives way exactly when that bucket was full: one of the bucket, which loses one reference or, with its last one, goes; tried entries are untouched |
| AddrMan.TimeMoves | src/addrman.cpp:345-355 | the time of a known address moves exactly when it has none or the announced one is later by more than the penalty and an hour, or a day for an old announcement, and then to the announced one less the penalty |
| AddrMan.MayHaveMore | src/addrman.cpp:357-368 | a known address may have one more reference exactly when the announced time is later and it is a new entry with fewer than four |
| AddrMan.WorthKeeping | src/addrman.cpp:40-60 | which entries are not terrible, from their times and attempts |
| AddrMan.AddrMan.StochasticTest | src/addrman.cpp:370-375 | passes exactly when a draw among 2 to the power of the reference count is zero |
| AddrMan.AddrMan.GetAddr | src/addrman.cpp:545-559 | 23 percent of the entries, at most 2500, no address twice, each as the table has it; only the random order changes |
| AddrMan.AddrMan.Attempt | src/addrman.cpp:396-418 | keeps the invariant; the known entry has the new time and one attempt more, from 0 at least and to 27 at most; nothing else changes; times stay within what the check demands exactly for a time that is not negative |
| AddrMan.AddrMan.Connected | src/addrman.cpp:561-579 | keeps the invariant; the time of the known entry moves only after 20 minutes; nothing else changes |
| AddrCheck.Check | src/addrman.cpp:486-542 | returns zero exactly when the tables agree |
| AddrCheck.InvPassesCheck | src/addrman.cpp:486-542 | tables with the invariant that all methods keep agree in that sense if and only if their times are in order |
| AddrCheck.MissingAddress | src/addrman.cpp:505-512 | an entry whose address is in no table passes the check only if it is entry 0 |
| AddrFile.Write | src/addrman.h:299-354 | the stream of a valid manager: new entries and then tried ones in id order, and each bucket as positions in that order |
| AddrFile.RoomInBucket | src/addrman.h:382-402 | while entries of a written stream are to come, their tried bucket has room, so that none is lost |
| AddrFile.Read | src/addrman.h:355-421 | reading a written stream succeeds and gives a valid manager that is the written one with its ids renumbered; with fewer stored buckets every new entry is in its home bucket instead, with one reference; with more, reading fails |
| AddrFile.RebuiltIsValid | src/addrman.h:367-379 | what is read from a stream of another bucket count is valid if and only if no bucket is home to more new entries than it may hold |
| Counterexamples.RebuiltBucketIsTooFull | src/addrman.h:367-379 | 65 entries in two stored buckets that all have their home in one: what is read is not valid |
| AddrFile.SaveAndLoad | src/addrman.h:290-421 | writing and reading back gives the same entries, tried flags, bucket memberships and reference counts up to the numbering of ids, with times in order if they were; attempts are capped at 22, the time of the last try is forgotten |
| Mempool.OneSpender | src/main.cpp:1106-1117 | in a consistent pool an output has at most one spender, the one mapNextTx names |
| Mempool.TxPool.AddUnchecked | src/main.cpp:1106-1117 | keeps mapNextTx exactly the spends of mapTx |
| Mempool.TxPool.Accept | src/main.cpp:925-1097 | adds a transaction exactly when it is well formed, neither coinbase nor coinstake, not in the pool, in conflict with none of it, passes the policy and, with inputs checked, is not in the index, finds every input unspent in index or pool, puts out no more of any color than it takes in and leaves the least fee |
| Mempool.TxPool.Remove | src/main.cpp:1120-1142 | terminates; recursively it removes exactly the transaction and its descendants, so that nothing left spends an output of what has gone |
| Mempool.TxPool.RemoveConflicts | src/main.cpp:1144-1157 | afterwards nothing but the transaction itself spends its inputs, and exactly the conflicting ones and their descendants have gone |
| Mempool.TxPool.DeleteIncluded | src/main.cpp:3390-3396 | the transactions of a block leave; with their conflicts, so do exactly the conflicting ones with their descendants, and nothing left shares an input with the block |
| Mempool.TxPool.Resurrect | src/main.cpp:3386-3389 | the pool after offering it the transactions of a disconnected block in order |
| PoolChain.BlockOutputs | src/main.cpp:2590-2748 | the unspent outputs after a block are those before it and those it makes, less those it spends |
| PoolChain.EntryPlace | src/main.cpp:2748 | the entry of every transaction of a block names its place on disk |
| PoolChain.SpenderPlace | src/main.cpp:2300-2312 | every output that a block spends names the place of its spender |
| PoolChain.AcceptConnects | src/main.cpp:1002-1082 | a transaction accepted with its inputs checked leaves a pool that connects: every transaction of it is not in the index, finds its inputs unspent there or made in the pool, and pays for its outputs |
| PoolChain.ConnectsOnBlocks | src/main.cpp:3390-3396 | after any number of blocks and the removal of their transactions with all conflicts, the pool connects to the new tip |
| PoolChain.ConnectsOnBlock | src/main.cpp:3551-3555 | after one block and the removal of its own transactions only, the pool connects if and only if nothing left in it is in conflict with the block |
| PoolChain.ConnectsAfterDisconnect | src/main.cpp:3196-3204 | after a block is disconnected and some of its transactions are back, the pool connects if and only if none of it spends an output of one that is not back |
| PoolChain.AllReturn | src/main.cpp:3386-3389 | of transactions of which none is known or in conflict with the pool or each other, exactly the standard ones that are neither coinbase nor coinstake come back |
| PoolChain.BlockNotRefused | src/main.cpp:3386-3389 | the transactions of a block that is connected are so |
| PoolChain.OrphansBefore | src/main.cpp:3196-3204 | the condition on the pool with what has come back is one on the pool before: nothing in it, and nothing that comes back, spends an output of what does not |
| PoolChain.ConnectTip | src/main.cpp:3551-3555 | exactly the transactions of the block leave the pool; it connects to the new tip if and only if no other one was in conflict with the block |
| PoolChain.ConnectBranch | src/main.cpp:3390-3396 | the pool connects to the new tip, and only included transactions, conflicting ones and their descendants have left |
| PoolChain.DisconnectTip | src/main.cpp:3196-3204 | the pool connects to the block before if and only if nothing that was in it, and no transaction that comes back, spends an output of one that does not |
| PoolSwitch.SwitchConnects | src/main.cpp:3384-3397 | after all of the old branch has come back and all of the new one has left with its conflicts, the pool connects to the new tip if and only if nothing in it spends an output of an old transaction that neither came back nor is in the new branch |
| PoolSwitch.ConflictIsGone | src/main.cpp:1144-1157 | every pool transaction in conflict with the new branch, and every descendant of one, has left |
| PoolSwitch.Reorganize | src/main.cpp:3384-3397 | exactly those stay that are not in the new branch and descend from no conflict with it; whether they connect to the new tip is said of the pool before the switch |
| Counterexamples.ConflictIsLeft | src/main.cpp:3551-3555 | a pool with one transaction, which pays its fee, in conflict with a block; it stays in the pool |
| Counterexamples.ParentIsLost | src/main.cpp:3196-3204 | a pool with a child, which pays its fee, of a nonstandard transaction; it is left without its parent |
| PoolChain.PoolIsMinable | src/miner.cpp:400-440 | any block of a coinbase and transactions of a pool that connects, parents before children, connects: every input is there and every color is covered |
| PoolChain.WholePoolIsMinable | src/miner.cpp:400-440 | all transactions of a pool that connects, in some order behind a coinbase, make a block that connects |
| StakeModifier.GetLast | src/kernel.cpp:49-60 | finds the last generated modifier, and fails exactly when there is none |
| StakeModifier.SectionRatio | src/kernel.cpp:63-68 | sections grow from a third of the modifier interval to the whole of it |
| StakeModifier.SectionShare | src/kernel.cpp:63-68 | section s is 63 parts in 63 + 2 (63 - s) of the interval, rounded down |
| StakeModifier.SelectionInterval | src/kernel.cpp:71-77 | the selection interval is the sum of the 64 sections |
| StakeModifier.SelectBlock | src/kernel.cpp:82-122 | finds a block exactly when one is open, and it is the pick: the first of lowest hash among the open ones not after the stop time, or else the first open one |
| StakeModifier.PickByMix | src/kernel.cpp:95-115 | among blocks in time the pick is the first of those that are behind none, where the mixed hash of a stake block counts 2 to the power 32 times less than that of a work block |
| StakeModifier.WorkBehindStake | src/kernel.cpp:101-106 | a work block is picked only if its mixed hash times 2 to the power 32 is at most that of every open stake block in time |
| StakeModifier.PickIsUnique | src/kernel.cpp:82-122 | there is only one such pick |
| StakeModifier.Collect | src/kernel.cpp:168-182 | the candidates are exactly the blocks at the end of the chain not before the start, by time and among equal times by hash |
| StakeModifier.PicksAreDistinct | src/kernel.cpp:186-201 | the rounds pick distinct blocks |
| StakeModifier.SelectRounds | src/kernel.cpp:186-201 | min(64, candidates) rounds, each a pick given the ones before; bit i of the modifier is the entropy bit of pick i and all others are zero; no round fails |
| StakeModifier.BitsSpell | src/kernel.cpp:195-201 | the bits that are set one by one are the binary digits of the modifier |
| StakeModifier.ComputeNext | src/kernel.cpp:137-233 | never fails on a well-formed chain; generates exactly when the tip is in a later interval than the last modifier, else keeps it; after 64 rounds the stop time is the interval boundary |
| Compact.VchRoundTrip | src/bignum.h:309-334 | every number comes back from its little-endian bytes |
| Compact.FromVchRoundTrip | src/bignum.h:309-334 | little-endian bytes come back from the number they spell exactly when they are minimal |
| Compact.SetInt64 | src/bignum.h:178-221 | the shifting loop gives the MPI bytes of every 64-bit number |
| Compact.LossIsSmall | src/bignum.h:336-359 | decode(encode(x)) is positive, at most x, and less than one part in 32768 below it |
| Compact.CodeValue | src/bignum.h:336-345 | a code of length n spells its lower 23 bits times 256 to the power n - 3, negative if bit 23 is set |
| Compact.NegativeStaysBelowZero | src/bignum.h:336-359 | the code of a negative number never decodes to a positive one |
| Compact.CompactIsMonotone | src/bignum.h:336-359 | encoding keeps the order of numbers |
| Compact.CanonicalRoundTrip | src/bignum.h:336-359 | a code comes back from the number it encodes if and only if it is canonical |
| Retarget.GetLast | src/main.cpp:1615-1622 | back to the last block of the proof type, or to genesis |
| Retarget.Window | src/main.cpp:1701-1725 | the window is full exactly when there are 24 blocks of the type after genesis, and then it holds the 24 most recent |
| Retarget.AverageBetween | src/main.cpp:1731-1747 | the running average lies between the smallest and the largest target |
| Retarget.AverageIsMean | src/main.cpp:1731-1747 | 24 targets give, but for the truncation of each step, one 25th of their sum with the newest counted twice |
| Retarget.SpanTelescopes | src/main.cpp:1749-1754 | the time span is the newest less the oldest time |
| Retarget.Accumulate | src/main.cpp:1727-1756 | the loop computes that average and that span |
| Retarget.TargetMovesByThree | src/main.cpp:1758-1793 | a clamped span moves a target by no more than a factor of three |
| Retarget.TargetBySpan | src/main.cpp:1758-1793 | a span of at most a third of the wanted one gives a third of the average, one of at least three times gives three times the average, and any other the average times the span over the wanted span |
| Retarget.TargetFollowsSpan | src/main.cpp:1758-1793 | blocks that came too fast never raise the target, and blocks that came too slowly never lower it |
| Retarget.TargetGrowsWithSpan | src/main.cpp:1758-1793 | a longer span never gives a lower target |
| Retarget.RequiredBySpan | src/main.cpp:1660-1801 | the required code of a full window without decay is that of the target by span, or of the limit when that is lower |
| Retarget.DecayByDays | src/main.cpp:1779-1786 | n whole days without a block of the type add n squared times the time without one to the clamped span |
| Retarget.DecayRaises | src/main.cpp:1774-1792 | the decay never lowers the target, and does not touch proof of stake |
| Retarget.UnlimitedMovesByThree | src/main.cpp:1727-1793 | without decay the unlimited target lies between a third of the smallest and three times the largest target of the window |
| Retarget.GravityWave | src/main.cpp:1660-1801 | the required code is that of the limit, or of the limited target of a full window |
| Retarget.RequiredIsWithinLimit | src/main.cpp:1795-1800 | no required code decodes to more than the limit, for every chain, with or without decay |
| Frames.IsValidCommand | src/protocol.cpp:53-65 | accepts exactly printable bytes followed by zeros only |
| Frames.GetCommand | src/protocol.cpp:39-45 | the bytes before the first zero |
| Frames.ReadMore | src/main.cpp:6373-6433 | reading what has come and then the rest with what was kept gives the same messages and buffer as reading all at once |
| Frames.ChunksDoNotMatter | src/main.cpp:6373-6433 | for every stream and every split of it, the same messages are delivered and the same bytes are left |
| Frames.WrittenIsRead | src/net.h:340-395 | a concatenation of written frames reads as exactly their messages, with nothing left |
| Frames.WrittenIsDelivered | src/net.h:340-395 | and it is delivered so in whatever pieces it arrives |
| Frames.Connection.ProcessMessages | src/main.cpp:6356-6433 | the loop delivers and keeps exactly that; every delivered message stands in the stream as a frame whose last four header bytes spell the sum of its data, one behind the other; every pass but the last shrinks the buffer |
| Frames.FrontFrame | src/main.cpp:6390-6433 | a whole frame at the front is delivered if and only if its command is valid and its checksum is that of its data; otherwise the reader goes on behind its header |
| Frames.Connection.AbortMessage | src/net.h:352-363 | the buffer is as it was before the message was begun |
| Frames.Connection.BeginMessage | src/net.h:340-350 | a header without size and checksum follows what was complete |
| Frames.Connection.EndMessage | src/net.h:365-395 | the buffer ends with the frame of the message: start, command, size of the data and the low 32 bits of its sum, lowest byte first, and the data |
| Frames.Connection.PushMessage | src/net.h:412-442 | one whole frame follows what was complete, or nothing when it is dropped |
| Frames.Exchange | src/net.h:412-442 | messages pushed on one connection and received on another in arbitrary pieces are delivered exactly |
| Base58.EncodeBase58 | src/base58.h:98-136 | the division loop gives the Base58 text of every byte string |
| Base58.DecodeBase58 | src/base58.h:146-190 | accepts exactly digits with white space around them, and gives their bytes, the sign byte trimmed and leading zeros restored |
| Base58.Base58RoundTrip | src/base58.h:98-190 | decoding undoes encoding on all byte strings |
| Base58.TextIsRestored | src/base58.h:98-190 | encoding undoes decoding on all strings over the alphabet |
| Base58.KnownTexts | src/test/data/base58_encode_decode.json:2-13 | texts from the repository's own examples |
| Base58.CheckRoundTrip | src/base58.h:203-231 | the same with checksum, for every checksum function |
| Base58.CheckTextIsRestored | src/base58.h:203-231 | a text over the alphabet that passes the check is the text of what it gives |
| Base58.Address.ToString | src/base58.h:533-556 | the text of version, color byte and data |
| Base58.Address.SetString | src/base58.h:416-514 | succeeds exactly when the text holds an address and then sets version, color and data to it; otherwise clears them |
| Base58.AddressRoundTrip | src/base58.h:416-556 | reading the text of an address gives back version, color and hash if and only if its color is one of the colors |
| Base58.AddressReads | src/base58.h:416-514 | a text is an address if and only if its bytes are one of four versions, the byte of a color and at least a hash; those are what is read |
| Base58.OthersHaveNoText | src/base58.h:533-556 | an address of another version or without a real color is written as invalid, which reads as nothing |
| Base58.ValidIs | src/base58.h:366-404 | an address is valid if and only if it has a version of the network, 20 bytes and a color from 1 up to and including the number of colors |
| Base58.AddressTextIsRestored | src/base58.h:416-556 | a text that reads as an address is the text of that address if and only if it has digits only, nothing behind the hash and a real color |
| Base58.ValidAddressRoundTrip | src/base58.h:366-404 | of the addresses IsValid accepts exactly those with one of the colors are restored from their text; the others read as no address |
| Base58.ValidAddressIsLost | src/base58.h:366-404 | an address that IsValid accepts and that is lost |
| Pbkdf2.HmacContext.Init | src/pbkdf2.cpp:69-117 | both contexts have absorbed the block key xor their pad |
| Pbkdf2.HmacOf | src/pbkdf2.cpp:69-156 | init, updates and final compute HMAC of section 2 of RFC 2104, however the text is split |
| Pbkdf2.XorBit | src/pbkdf2.cpp:83-96 | a bit of the exclusive or is set exactly when it is set in one number only |
| Pbkdf2.BlockNumber | src/pbkdf2.cpp:192-200 | the block number enters highest byte first |
| Pbkdf2.Block | src/pbkdf2.cpp:192-221 | one block from the copied state is F of section 5.2 of RFC 2898 |
| Pbkdf2.Derive | src/pbkdf2.cpp:176-235 | the buffer holds the derived key of section 5.2 of RFC 2898, for every password, salt, count and permitted length, partial last blocks included |
| ExploreDb.LastOperationWins | src/exploredb-leveldb.cpp:162-198 | after a batch a key has what the last operation on it says |
| ExploreDb.ScanBatch | src/exploredb-leveldb.cpp:175-215 | the scan finds exactly that |
| ExploreDb.Db.Read | src/exploredb-leveldb.h:106-150 | answers as after a commit |
| ExploreDb.Db.IsViable | src/exploredb-leveldb.h:242-267 | true exactly when the key would be there after a commit |
| ExploreDb.Db.RemoveRecord | src/exploredb-leveldb.h:278-285 | erases exactly a viable key and says whether it was one |
| ExploreDb.Db.TxnCommit | src/exploredb-leveldb.cpp:162-173 | the store becomes what readers already saw |
| ExploreDb.Db.TxnAbort | src/exploredb-leveldb.h:290-295 | the store is as before the transaction |
| ExploreDb.Transaction | src/exploredb-leveldb.cpp:155-173 | for every sequence of writes and erases, a read in the transaction says what it would after the commit; a commit applies them in order, an abort leaves the store as it was |

## Left out

- LedgerDb.TxDb.ConnectBlock: signatures, coinbase maturity, sigop limits, minimum fees and the other checks of ConnectInputs and ConnectBlock that touch neither index nor vectors are predicates of `Rules`; a failing block's half-written own vectors are not modelled.
- ChainSwitch.ChainState.Reorganize: wallets and orphan handling that follow a switch are not modelled; the memory pool is, beside it, in `PoolChain`.
- ChainSwitch.ChainState.SetBestChain: wallet balance changes of the postponed loop, checkpoints and notifications are not modelled.
- CheckQueue.WaitIsExact: the master is thread 0 and there is one; a waiting thread may wake at any time, which allows more runs than condition variables do.
- AddrMan.AddrMan.Add: the truncation of times to 32 bits is not modelled, and service bits are a set.
- AddrFile.Read: the stream is a sequence of numbers and records rather than bytes, and a bucket index that names no entry ends the reading, where the code would create an empty entry.
- Mempool.TxPool.Accept: standardness, the rate limit, maturity, times, sigops and signatures are one flag, and the least fee is a number; replacement is disabled in the code.
- BestChain.AcceptBlock: of the checks before AddToBlockIndex only structure, known parent and height are modelled, and orphans are not kept; proof of work and stake, times, targets and checkpoints only refuse more blocks.
- PoolSwitch.Reorganize: the test for the last checkpoint is part of what makes a transaction standard.
- Mempool.TxPool.Remove: assumes a rank under which transactions spend only lower ones, which hashing provides.
- Retarget.GravityWave: target limit, spacing and KawPow activation are inputs; the decay product does not overflow.
- Frames.Connection.ProcessMessages: with room in the send buffer and no shutdown; what a message does is not modelled.
- Pbkdf2.Derive: a context is the bytes it has absorbed, and OpenSSL calls do not fail.
- ExploreDb.Db.Read: LevelDB errors and values that do not deserialize are not modelled; Exists, which looks past deletions, and EraseStartsWith are left out.
- 64-bit overflow of money and 32-bit overflow of the modifier interval product.
- ComputeMaxBits, GetOpRetFee, GetDifficulty, Select_ and GetChance: wrap-around, narrowing or floating point is their point.
- Disk files, Berkeley DB, LevelDB itself, sockets, RPC, HTTP, IRC, Tor, the wallet and the user interface.
- Script evaluation, ECDSA, AES and KawPow, which are parameters where they matter.
- Block and header checks beyond the structure that the ledger needs, orphan blocks, alerts, and small containers such as limitedmap and mruset.
