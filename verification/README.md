# Verified model of the NoLimitCoin node

The node keeps a chain of proof-of-stake and proof-of-work blocks, a database of
spent and unspent outputs, a memory pool, a table of peer addresses and a message
stream per peer.  The files here model the code behind them in Dafny and prove what
it is relied on for.  `dafny verify dfyconfig.toml` checks everything.

Where the source changes things step by step, the model does: classes with the
source's fields for the transaction database, the block index, the chain state, the
checkpoints, the memory pool, the address manager, peers, Merkle trees, locators,
big numbers and the block template, and in-place code on arrays for scrypt.  Each
method is proved against a specification on values, and what the source promises is
proved about those.

| files | what they model | main result |
|---|---|---|
| `Transactions` `TxDb` `Ledger` `Blocks` `Inputs` `Spend` `Connect` `Maturity` | transactions, the index with its write batch, connecting and disconnecting a block | a block is accepted exactly under stated conditions, spends no young reward, and disconnecting undoes connecting |
| `Money` `BlockMoney` `Postmine` `FreeMint` | the money in circulation | the supply is the value of all unspent outputs; how much a block may mint |
| `Chain` `Branches` `ChainState` `Stopped` | block tree, reorganization, best chain | exactly when the best chain moves; in every state reached, index, links and supply describe the chain to the tip |
| `Checkpoints` | synchronized checkpoints | the checkpointed block stays on the best chain and is never disconnected |
| `MemPool` `Miner` `Template` | memory pool, block template | no double spend in the pool; templates are connectable in order and within limits; when ConnectBlock accepts the block made of one |
| `AddrTables` `AddrMan` `AddrCheck` `AddrStore` `Walk` `Shuffle` | address manager, its check, saving and loading | the invariant holds in every state reached and across a reload that loses nothing |
| `Framing` `Node` `Conversation` | message framing, send queue, receive parser | messages arrive intact and in order however bytes are cut, and both ways at once |
| `Salsa` `Scrypt` `ScryptSse2` | scalar and vector scrypt | both compute ROMix of RFC 7914, sections 3 to 5, so they agree on every input |
| `Merkle` `Locator` `Kernel` `MedianTime` | Merkle branches, block locators, stake modifiers, median time | see the table |
| `BigNum` `Compact` `Targets` `Base58` | big-number bytes, compact targets, retargeting, base 58 | rounding bounds, range of required targets, round trips |
| `Wrappers` `Numbers` `Sorting` | optional values, sequences, arithmetic, sorting | shared by the others |

Conventions and hypotheses:

- Hashes are numbers, and hash functions, scripts, signatures, coin age and sizes are
  parameters (`Oracle`, `Setup`, `StakeData`, function arguments).  A property that
  needs an injective hash says so.
- Amounts are unbounded integers; the source checks them against `MAX_MONEY`.
  `uint32` truncations that matter are written out.
- Clock values and random numbers are arguments; a number drawn below a bound is taken
  modulo it.
- The database is a map with a batch; a commit applies the batch and does not fail.
- Chain results about whole runs hold as long as every postponed reconnect in
  `SetBestChain` (`src/main.cpp:1840-1855`) succeeds.
- Times handed to the address manager are positive, as the debug check of the source
  requires of the stored ones.
- Pooled transactions have a rank that falls from spender to spent (`Ranked`): a
  transaction's hash covers the hashes it spends, so spending has no cycles.
- Signature operations in redeemed scripts depend on the spent outputs alone
  (`CountsPrevTxs`), and the template reserves a hundred for the coinbase (`BlockOf`).
- The block template assumes that every pool input is in the database or the pool;
  the source logs anything else as an error that should never happen.

Places where the code does less than one might read into it, each proved with the exact
condition or an input:

- When a postponed reconnect fails the tip is set although the database stops below it.
  That happens exactly when `CanMove` holds and `CanFinish` does not, and
  `PostponedCanFail` is a run that gets there.
- A Merkle root does not tell every list from every other.  `RootDecidesAll` says exactly
  which lists share one, and `PairSharesRoot` is an input.  Lists without repeated entries
  share a root exactly when the one is a level of the tree of the other
  (`RootDeterminesLevel`), so with the same number of levels only when they are equal.
- What a coinstake pays in a proof-of-work block has no limit: `AnyAmount` builds an
  accepted block for every amount, and `WorkBound` says exactly when the supply grows by no
  more than subsidy and credits.
- A list of addresses saved with another number of new buckets loads into tables that keep
  the invariant exactly when no bucket is overfilled (`Load`), and whatever the hash, one
  can be (`OverfullAfterLoad`).
- The tried entry that makes room is not always the one with the earliest success of those
  drawn: exactly when that one was drawn in the place it had (`OutgoingIsEarliest`);
  `AnotherGivenUp` is an input.
- A proof-of-stake candidate is not always favored over a proof-of-work one for the stake
  modifier, as a comment says it is: `StakeFavored` says when.
- A block template is not checked against overwriting unspent outputs: `TemplateConnects`
  says that this is the one thing ConnectBlock can refuse its transactions for.
- For the whole index to come back after disconnecting, the exact condition is that no
  transaction of the block was already indexed (`ConnectThenDisconnect`).

A locator holds at most 12 + log2(height + 1) hashes.

## Model

| member | source | states |
|---|---|---|
| `Ledger.ConnectThenDisconnect` | src/main.cpp:1506-1667 | A block that could be connected can be disconnected right away; exactly the earlier unspent outpoints come back, and the whole index does if and only if no transaction of the block had an entry before |
| `Ledger.MarkLoopSpends` | src/main.cpp:1398-1431 | The check-then-mark loop meets no spent output exactly when the inputs are distinct and all unspent before it |
| `Ledger.MarkAllEffect` | src/main.cpp:1423-1431 | Marking inputs changes the marks the inputs name and nothing else |
| `Ledger.ApplyTxsTrims` | src/main.cpp:1551-1612 | An index that lacks only fully spent entries accepts what the full one accepts, and stays so related to it |
| `Ledger.UndoTxsTrims` | src/main.cpp:1506-1511 | Undoing the transactions of a block, on an index that lacks only fully spent entries, gives one so related to the index before the block |
| `Ledger.UndoTxExact` | src/main.cpp:1186-1219 | Undoing one transaction removes its entry and restores every mark it made |
| `Ledger.OwnEntrySpent` | src/main.cpp:1551-1612 | The check against overwriting is made on the index before the block, and still holds when the turn of the transaction comes |
| `TxDatabase.CTxDB.ScanBatch` | src/txdb-leveldb.cpp:155-197 | Of the writes to a key in the open batch the last one wins |
| `TxDatabase.CTxDB.ReadTxIndex` | src/txdb-leveldb.h:60-97 | Reads see the committed store with the open batch applied |
| `TxDatabase.CTxDB.UpdateTxIndex` | src/txdb-leveldb.cpp:206-210 | A write changes one key of what reads see; inside a transaction the committed store is untouched |
| `TxDatabase.CTxDB.EraseTxIndex` | src/txdb-leveldb.cpp:222-228 | An erasure removes one key of what reads see, and stays inside the transaction |
| `TxDatabase.CTxDB.TxnCommit` | src/txdb-leveldb.cpp:142-153 | Committing makes the store what reads saw |
| `TxDatabase.CTxDB.TxnAbort` | src/txdb-leveldb.h:168-173 | Aborting gives back the store as it was |
| `Inputs.FetchInputs` | src/main.cpp:1222-1295 | Collects for each input the entry and transaction its hash stands for, from the queued changes, the database or the pool by caller; fails when one is missing, is invalid when an output index is out of range |
| `Spend.GetValueIn` | src/main.cpp:1310-1334 | The value of the inputs, with the post-mine credit when its test is met |
| `Spend.ConnectInputs` | src/main.cpp:1351-1454 | Accepts exactly when inputs are in range, mature, no older than allowed, of valid value, distinct, unspent, signed and pay the fee; then the queued changes are those with the inputs marked |
| `Spend.SignaturesChecked` | src/main.cpp:1414-1424 | Signatures are left out for blocks far below the estimated height only |
| `Spend.CheckInput` | src/main.cpp:1362-1394 | The checks on one input and the running total, which an output of the post-mine transaction replaces |
| `Maturity.RecentMeans` | src/main.cpp:1372-1376 | The walk back from a block finds exactly the positions in blocks less than ten below it |
| `Maturity.MatureExactly` | src/main.cpp:1366-1394 | An input that is all right otherwise is refused exactly when it spends a coinbase or a coinstake of a block less than ten below |
| `Maturity.SpendsMature` | src/main.cpp:1366-1376 | A block accepted on top of its chain spends only outputs that its chain or itself has made, and of coinbases and coinstakes only those made at least ten blocks below it |
| `Spend.SpendInput` | src/main.cpp:1398-1431 | One round of double-spend check, signature check and marking |
| `Spend.QueueShowsMarks` | src/main.cpp:1423-1431 | After the inputs are spent in the queued changes, these over the database are the index with the inputs marked |
| `Spend.DisconnectInputs` | src/main.cpp:1186-1219 | Clears the marks and erases the entry, or fails exactly when an entry is missing or too short |
| `Connect.ConnectBlock` | src/main.cpp:1530-1667 | Accepts a block exactly when BlockAccepted holds; then the database view is the old one with all transactions applied, and the minted amount and the money supply are recorded; otherwise nothing changed |
| `Blocks.CheckBlock` | src/main.cpp:2053-2138 | Passes exactly when the first transaction and no other is a coinbase, in a proof-of-stake block with one empty output and only the second a coinstake, all transactions pass CheckTransaction and no hash is there twice; the checks that read no modelled state are one predicate |
| `Transactions.CheckTransaction` | src/main.cpp:481-530 | Passes exactly when there are inputs and outputs, only coinbases and coinstakes have empty outputs, values and their totals are in range, and no outpoint is null or there twice |
| `Transactions.KindsOfTx` | src/main.cpp:481-530 | A transaction that passes is a coinbase (one null input), a coinstake (an empty output first, and another) or neither, with no null input and no empty output; it pays between nothing and all the money |
| `Blocks.OffsetsApart` | src/main.cpp:1542-1580 | In the positions that the index records the transactions of a block lie one after the other behind its header |
| `Blocks.CompactSizes` | src/main.cpp:1542 | The length of the count before them |
| `Connect.YearsEarn` | src/main.cpp:1006-1026 | Thirty-three years earn a coin 33 times four cents |
| `Connect.StakedApart` | src/main.cpp:1006-1026 | Staking coins apart earns no more, and at most the rounding less |
| `Connect.WorkPaidOnce` | src/main.cpp:986-1003 | Proof of work is paid for the first block only, 200 million coins |
| `Connect.ConnectTx` | src/main.cpp:1551-1612 | One round of the transaction loop: accepted exactly when the transaction is acceptable on top of those before it and the signature operations stay in the limit |
| `Connect.AcceptedCanApply` | src/main.cpp:1530-1667 | What ConnectBlock accepts spends no output twice and overwrites no unspent one, even where its transactions spend each other |
| `Connect.DisconnectBlock` | src/main.cpp:1506-1528 | Undoes the transactions last first, or fails exactly when one cannot be undone |
| `Money.ApplyTxSupply` | src/main.cpp:1598-1601 | A transaction changes the value of all unspent outputs by its outputs minus its inputs |
| `Money.TrimsSupply` | src/main.cpp:1636-1638 | An index that lacks only fully spent entries holds the same money |
| `BlockMoney.BlockSupply` | src/main.cpp:1636-1638 | Connecting a block changes the value of all unspent outputs by exactly what is added to nMoneySupply |
| `BlockMoney.MintAccount` | src/main.cpp:1598-1605 | Outputs minus inputs plus fees are what coinbase and coinstakes pay, plus the post-mine credits |
| `BlockMoney.MintBound` | src/main.cpp:1545-1638 | Any accepted block raises the supply by at most its subsidy plus POSTMINE_VALUE for each transaction that passes the post-mine test; a proof-of-work block also by what its coinstakes pay |
| `BlockMoney.WorkBound` | src/main.cpp:1614-1638 | An accepted proof-of-work block raises the supply by no more than its subsidy and post-mine credits exactly when coinbase and coinstakes together pay no more than subsidy and fees |
| `FreeMint.AnyAmount` | src/main.cpp:1551-1634 | Nothing sees to that: for every amount of money and on top of every block there is an accepted, stored proof-of-work block, over a sound index, whose coinstake in third place pays the amount out of nothing |
| `PostmineBound.CreditsBounded` | src/main.cpp:1310-1334 | Along any chain no more credits are paid than the post-mine transaction has outputs, counted once for every time the chain includes it |
| `PostmineBound.CreditsOnce` | src/main.cpp:1310-1334 | Included at most once, it bounds the credits by its outputs, and before it appears none are paid |
| `PostmineBound.TxUsesOutput` | src/main.cpp:1310-1334 | Each credited transaction uses up an unspent output of the post-mine transaction, and only its inclusion adds some |
| `Chain.FindFork` | src/main.cpp:1673-1685 | The two-pointer walk ends at the highest common ancestor |
| `Chain.DisconnectList` | src/main.cpp:1687-1690 | The blocks to disconnect, from the tip down to just above the fork |
| `Chain.ConnectList` | src/main.cpp:1692-1696 | The blocks to connect, from just above the fork up to the new tip |
| `Chain.ConnectStep` | src/main.cpp:1717-1734 | Connecting a block to a database that agrees with the replay of its parent makes it agree with the replay of the block |
| `Chain.DisconnectStep` | src/main.cpp:1701-1715 | Disconnecting the tip makes the database agree with the replay of the parent |
| `Branches.ConnectBranch` | src/main.cpp:1717-1734 | Succeeds exactly when each block is accepted on the index the one before leaves, at the height of the old tip; then the index is that of connecting them all |
| `Branches.DisconnectBranch` | src/main.cpp:1701-1715 | Succeeds exactly when each block can be undone on the index the one above leaves, and then undoes them all |
| `Branches.UndoIsReplay` | src/main.cpp:1701-1715 | Blocks that repeat no transaction of the chain below them can always be undone, and undoing them gives exactly the index of the fork |
| `Branches.UnlinkBranch` | src/main.cpp:1742-1745 | Clearing the links of the old branch leaves pnext exact for the fork |
| `Branches.LinkBranch` | src/main.cpp:1747-1750 | Setting the links of the new branch leaves pnext exact for the new tip |
| `ChainState.Postpone` | src/main.cpp:1814-1826 | The postponed blocks are those whose parents already have more trust than the best chain |
| `ChainState.CChainState.Reorganize` | src/main.cpp:1669-1765 | Succeeds exactly when the old branch can be undone and the new one is accepted block by block; then database, pnext and recorded money all describe the chain to the new block, else the committed index and every pnext are as before |
| `ChainState.SharedStay` | src/main.cpp:1814-1837 | On the way to the intermediate block no block is disconnected that the new chain shares with the old: above it the new chain has more trust than the old one ever had |
| `ChainState.CChainState.SetBestChainInner` | src/main.cpp:1769-1791 | The same for a block that extends the best chain: committed and linked exactly when it is accepted, or nothing changed |
| `ChainState.CChainState.SetBestChain` | src/main.cpp:1793-1910 | The block becomes the tip exactly when the switch to the intermediate block goes through (CanMove), and the chain invariant then holds exactly when every postponed block is accepted in its turn (CanFinish), with the index that undoing and connecting those blocks leaves; otherwise tip, index and pnext are as before |
| `ChainState.CChainState.StoppedIsNotExact` | src/main.cpp:1839-1870 | When a postponed reconnect fails the database is behind the tip that is set all the same, so the invariant is broken |
| `Stopped.PostponedCanFail` | src/main.cpp:1839-1870 | A run that gets there: a checkpoint moves the best chain to the branch with less trust, and an invalid block comes on the other one |
| `ChainState.CChainState.AddToBlockIndex` | src/main.cpp:1980-2048 | Files a block under its hash; it becomes the tip exactly when it has more trust and SetBestChain can move there; the invariant is kept unless a postponed block is refused |
| `ChainState.CChainState.ValidMeans` | src/main.cpp:1669-1910 | In every state reached: the unspent outpoints are those of replaying all blocks from genesis to the tip, nMoneySupply of the tip is the value of all unspent outputs, and IsInMainChain holds exactly for the tip and its ancestors |
| `Checkpoints.DescendantKeeps` | src/checkpoints.cpp:94-134 | Moving the best chain to a descendant of a block disconnects neither that block nor an ancestor of it |
| `Checkpoints.CCheckpoints.ValidateSyncCheckpoint` | src/checkpoints.cpp:94-134 | Accepts exactly the proper descendants of the sync-checkpoint; notes as invalid exactly those on another branch |
| `Checkpoints.CCheckpoints.CheckSync` | src/checkpoints.cpp:206-231 | Off testnet a new block passes exactly when the sync-checkpoint is its parent or an ancestor of it; a known one also when it is lower than the sync-checkpoint |
| `Checkpoints.CCheckpoints.MoveCheckpoint` | src/checkpoints.cpp:164-180 | The checkpoint moves exactly when the block is on the best chain or the best chain can be moved to it; no block up to the old checkpoint is disconnected; else the invalid hash is set |
| `Checkpoints.CCheckpoints.ProcessSyncCheckpoint` | src/checkpoints.cpp:378-426 | A checkpoint is taken exactly when it is signed, a proper descendant of the one before and can be moved to; then it is on the best chain; an unknown one becomes pending, and no block up to the old checkpoint is disconnected |
| `Checkpoints.CCheckpoints.AcceptPendingSyncCheckpoint` | src/checkpoints.cpp:152-193 | The pending checkpoint is taken exactly when it is a proper descendant of the sync-checkpoint and can be moved to; it is cleared exactly when it is taken or is known and not a proper descendant, and noted as invalid exactly when the chain cannot follow it or it is on another branch |
| `Checkpoints.CCheckpoints.AcceptBlock` | src/main.cpp:2140-2236 | In strict mode off testnet a block is filed exactly when it is new, fits its parent and descends from the sync-checkpoint, and is accepted exactly when the best chain can follow where it has to; then the pending checkpoint is looked at on the tip that leaves: taken with the best chain moved to it, cleared or kept (PendingDone); the sync-checkpoint stays on the best chain and nothing up to it is disconnected |
| `Checkpoints.ArrivedIsTaken` | src/checkpoints.cpp:152-193 | So the pending checkpoint is taken when its block arrives below the sync-checkpoint and becomes the tip |
| `MemPool.NoDoubleSpend` | src/main.h:1581-1600 | No two inputs in the pool name the same outpoint |
| `MemPool.CTxMemPool.AddUnchecked` | src/main.cpp:718-730 | Adds one transaction; mapNextTx stays the inverse of the inputs of mapTx |
| `MemPool.CTxMemPool.Remove` | src/main.cpp:732-754 | Removes the transaction, or recursively exactly it and its pooled descendants; it terminates |
| `MemPool.CTxMemPool.RemoveConflicts` | src/main.cpp:756-769 | Removes exactly the conflicting transactions and their descendants; afterwards only the transaction itself may spend its inputs |
| `MemPool.CTxMemPool.Clear` | src/main.cpp:771-777 | Empties both maps |
| `MemPool.CTxMemPool.Accept` | src/main.cpp:562-711 | Takes a transaction exactly when it is acceptable: well formed, not known, no input spent in the pool, and, when inputs are checked, fetched, standard, paying the fee and connecting |
| `MemPool.DescIsBelow` | src/main.cpp:740-746 | The descendants of a transaction are those of the spenders of its outputs |
| `MemPool.DescWithout` | src/main.cpp:740-746 | Removing a set closed under descendants leaves the other ancestries alone |
| `MemPool.MinFee` | src/main.cpp:532-559 | The minimum fee is at least the relay fee and at most the maximum of money |
| `MemPool.FeeSteps` | src/main.cpp:532-560 | The fee is per started kilobyte, rises with the filling of the block, and is never less for a bigger transaction or a fuller block |
| `Miner.CreateNewBlock` | src/miner.cpp:112-367 | With every pool input in the database or the pool: at every turn the ready transaction that comes first in the order in force is tried, by priority until the size or a low priority says by fee; the list is those that could be included, each once, parents first, connectable in order and within the limits; nFees is the sum of their fees; a transaction left out was refused at its turn or needs one that is not in the list |
| `Miner.ClampedNearest` | src/miner.cpp:147-160 | Size options out of range are brought to the nearest limit, others are kept |
| `Miner.CBlockTemplate.TryInclude` | src/miner.cpp:274-331 | A transaction is added exactly when size, signature operations, time, fee and connection allow it; the order is by fee from then on exactly when the priority size is reached or the priority is low |
| `Miner.CBlockTemplate.TryConnect` | src/miner.cpp:305-324 | Fetching, fee, signature operations and connection on a copy of the changes; on success the changes over the database are the index with the transaction applied |
| `Miner.CBlockTemplate.CollectCandidates` | src/miner.cpp:179-252 | Every eligible transaction waits for exactly the pooled ones it needs, or is queued when it needs none |
| `Miner.CBlockTemplate.CollectNeeds` | src/miner.cpp:192-233 | The dependencies of one transaction, and its entries among the dependers |
| `Miner.CBlockTemplate.Release` | src/miner.cpp:339-355 | Telling the dependers queues exactly those that wait for nothing more, each once even when it has several inputs from one parent |
| `Miner.CBlockTemplate.PopBest` | src/miner.cpp:266-272 | Takes a transaction that none beats in the order in force |
| `Miner.CBlockTemplate.Fill` | src/miner.cpp:264-356 | The main loop ends with an empty queue; every ready transaction has had one turn, in the order in force |
| `Miner.SpendsOnce` | src/miner.cpp:264-356 | With the invariant of the pool no outpoint is spent twice in the list |
| `Miner.AcceptedConnects` | src/miner.cpp:305-324 | For fetched inputs ConnectInputs accepts exactly when they are unspent in the index so far, and applying the changes is applying the transaction |
| `Template.TemplateConnects` | src/main.cpp:1551-1612 | A block made of a coinbase and the list of a template, on top of the tip, has all its transactions accepted by ConnectBlock exactly when none overwrites an entry of the database that is not fully spent, which the template does not check |
| `Template.TemplateAccepted` | src/main.cpp:1529-1634 | The block is accepted exactly when also CheckBlock passes and the coinbase pays at most the subsidy and the fees of the list |
| `AddrMan.CAddrMan.SwapRandom` | src/addrman.cpp:105-123 | Swaps two places of vRandom; the positions in the entries follow |
| `AddrMan.CAddrMan.Create` | src/addrman.cpp:93-103 | A fresh entry, filed by id, by address and at the end of vRandom |
| `AddrMan.CAddrMan.SelectTried` | src/addrman.cpp:125-147 | Shuffles the front of the bucket with the numbers drawn, and returns the place at which the entry with the earliest success of those drawn was found |
| `Shuffle.ShuffledKeeps` | src/addrman.cpp:133-138 | Shuffling with any numbers loses nothing and repeats nothing |
| `AddrMan.EarliestIsLeast` | src/addrman.cpp:133-144 | That entry has the earliest success of those drawn, and is the first drawn of equal ones |
| `AddrMan.OutgoingIsEarliest` | src/addrman.cpp:125-147 | It is the entry in that place afterwards, which gets evicted, exactly when it was drawn in the place it had |
| `AddrMan.AnotherGivenUp` | src/addrman.cpp:125-147 | Numbers with which another entry is evicted instead |
| `AddrMan.CAddrMan.ShrinkNew` | src/addrman.cpp:149-201 | Removes the terrible entry with the least id, or with none the one seen longest ago of the four picked by the numbers drawn; an entry in no bucket any more is deleted, all others change at most their position; the invariant is kept |
| `AddrTables.WhenTerrible` | src/addrman.cpp:37-55 | Not tried in the last minute, an entry is terrible exactly when it is unseen for 30 days, from the future, failed three times without any success, or ten times without one for a week |
| `AddrTables.SeenLatelyIsGood` | src/addrman.cpp:37-55 | An entry seen in the last 30 days that has not failed three times is not terrible |
| `AddrTables.JustTriedIsGood` | src/addrman.cpp:37-55 | Nor is one tried in the last minute |
| `AddrTables.StaysTerrible` | src/addrman.cpp:37-55 | A terrible entry stays terrible until it changes, unless its time was ahead |
| `AddrMan.CAddrMan.MakeTried` | src/addrman.cpp:203-259 | Moves the entry out of every new bucket to the tried bucket its address hashes to; from a full one the entry in the place SelectTried returns goes back to the new bucket of its source, or to the one given |
| `AddrMan.CAddrMan.Good` | src/addrman.cpp:261-310 | Records a success for exactly the given service, and makes a new entry a tried one: all tables afterwards are determined by the numbers drawn; the invariant is kept and no assertion fails |
| `AddrMan.CAddrMan.Add` | src/addrman.cpp:312-368 | An unknown address is created in the bucket of its source; a known one is updated, and enters a further bucket exactly when its time is news, it is new, in fewer than four buckets and the draw allows; from a full bucket exactly the victim of ShrinkNew goes, and every other entry changes at most its position; the invariant is kept |
| `AddrMan.CAddrMan.SeenMoves` | src/addrman.cpp:323-330 | The time of a known entry moves exactly when the news is more than an hour later for an address claimed to be online, a day for another, penalty deducted; it never goes back |
| `AddrMan.CAddrMan.SeenAdds` | src/addrman.cpp:329-330 | Services that were known stay, and those in the news are added |
| `AddrMan.CAddrMan.RefFactor` | src/addrman.cpp:344-347 | The chance of another reference is one in 2^n when n buckets hold the address |
| `AddrMan.CAddrMan.Attempt` | src/addrman.cpp:370-387 | Records an attempt for exactly the given service |
| `AddrMan.CAddrMan.Connected` | src/addrman.cpp:509-527 | Moves the time last seen, at most every 20 minutes |
| `AddrMan.CAddrMan.GetAddr` | src/addrman.cpp:493-507 | Returns 23 percent and at most 2500 of the entries, those that the numbers drawn shuffle to the front, all known and with pairwise different addresses; only positions change |
| `AddrTables.NewDrop` | src/addrman.cpp:161-199 | When a bucket lets go of an entry the reference counts stay exact |
| `AddrTables.NewPromote` | src/addrman.cpp:207-215 | Leaving every new bucket makes the reference count zero and no other count wrong |
| `AddrTables.TriedReplace` | src/addrman.cpp:237-257 | Putting the promoted entry in the place of the evicted one keeps every tried entry in its bucket, once |
| `AddrTables.RandLength` | src/addrman.cpp:439-439 | vRandom is as long as mapInfo is large |
| `AddrCheck.Check` | src/addrman.cpp:434-490 | Check_ returns 0 exactly when the tables satisfy Checked |
| `AddrCheck.ValidPasses` | src/addrman.cpp:434-490 | Every state that keeps the invariant passes the check |
| `AddrStore.Save` | src/addrman.h:279-317 | Writes every new entry and every tried entry once, in ascending order of ids, and each bucket as the positions of its ids |
| `AddrStore.Load` | src/addrman.h:318-377 | Rebuilds the tables from a stream with any number of new buckets; tried entries are lost exactly when a bucket overflows, every reference count is exact, and the invariant holds exactly when no new bucket that is built anew overflows |
| `AddrStore.OverfullAfterLoad` | src/addrman.h:336-340 | Loading does not look at the room in a new bucket that it builds anew: whatever the hash, there is a stream that kept all limits with two buckets and overfills one |
| `AddrStore.LoadTried` | src/addrman.h:341-360 | Keeps a tried entry exactly while its bucket has room |
| `AddrStore.LoadBuckets` | src/addrman.h:361-377 | With the bucket count in use the new buckets are those saved, and otherwise those that addresses and sources hash to; every reference count is the number of them |
| `AddrStore.Reload` | src/addrman.h:248-380 | Saving and loading at the same bucket counts loses no tried entry and keeps the persisted fields, the set of new buckets and the tried bucket of every address, up to new ids; the invariant holds again |
| `Framing.FeedInPieces` | src/net.cpp:631-657 | Feeding a and then b is feeding a followed by b |
| `Framing.CutsDoNotMatter` | src/net.cpp:631-657 | Only the bytes matter, not how they were cut |
| `Framing.FeedPrefix` | src/net.cpp:631-700 | From any prefix of the bytes of framed messages a receiver has a prefix of the messages and exactly the bytes left over |
| `Framing.FeedAll` | src/net.cpp:631-700 | All the bytes make all the messages |
| `Framing.FinishedFramed` | src/net.h:416-452 | A finished message is taken by a receiver exactly when its payload is at most MAX_SIZE long, and carries command, payload and checksum |
| `Framing.ToLe32` | src/net.h:426-428 | Four bytes whose little-endian value is the number modulo 2^32 |
| `Node.CNetMessage.ReadHeader` | src/net.cpp:659-689 | Takes bytes up to the end of the header; refuses exactly a message announced as too big |
| `Node.CNetMessage.ReadData` | src/net.cpp:691-700 | Takes bytes up to the announced size |
| `Node.CNode.ReceiveMsgBytes` | src/net.cpp:631-657 | The parser has after any bytes what the byte stream makes of them, and fails exactly when the stream does |
| `Node.CNode.SocketSendData` | src/net.cpp:711-750 | The queued messages are offered to the socket one after the other until one is cut short, and those that went out whole are gone; with a socket that takes all, the queue is empty and all that was pushed is on the wire; the peer is disconnected exactly on an error that is not temporary; nSendSize is the size of the queue and no assertion fails |
| `Node.CNode.EndMessage` | src/net.h:416-452 | Queues the message with size and checksum filled in, or nothing when it is dropped or empty; an empty queue is tried at once, and with a socket that takes the message it is on the wire; every queued message announces its size; received messages stay unless the peer is disconnected |
| `Node.EndToEnd` | src/net.cpp:631-750 | When payloads fit, whatever has gone out and arrived, the receiver has the first messages pushed, unchanged and in order, and the beginning of the next |
| `Node.Deliver` | src/net.cpp:631-657 | However what went out is cut into pieces, the receiver refuses none of them |
| `Node.AllDelivered` | src/net.cpp:631-750 | When all has gone out and arrived, the receiver has all the messages |
| `Conversation.Exchange` | src/net.cpp:631-750 | Whatever two peers do in whatever order (make messages, send, get bytes): what was said is pushed, each has the first messages the other made, unchanged and in order, and the beginning of the next, unless it was disconnected; and all of them when nothing is left to send and it got the rest |
| `Scrypt.XorSalsa8InPlace` | src/scrypt.cpp:46-112 | The in-place scalar code computes Salsa20/8 of the sum of two blocks, section 3 of RFC 7914 |
| `Scrypt.OperateOnColumns` | src/scrypt.cpp:69-80 | Sixteen assignments make the column round |
| `Scrypt.OperateOnRows` | src/scrypt.cpp:82-93 | Sixteen assignments make the row round |
| `Scrypt.ScryptCore` | src/scrypt.cpp:114-130 | Both loops over the table in V compute ROMix, section 5 of RFC 7914, with N = 1024 and r = 1 |
| `Scrypt.ScryptNoSalt` | src/scrypt.cpp:139-151 | The result is scrypt of the input |
| `Scrypt.WordRoundTrips` | src/scrypt.cpp:146-148 | Words stored as bytes are read back as they were |
| `Scrypt.LowByteFirst` | src/scrypt.cpp:146-148 | The least significant byte comes first |
| `Salsa.RoundExamples` | src/scrypt.cpp:67-93 | Quarter, row and column rounds give the examples of the Salsa20 specification |
| `ScryptSse2.XorRotates` | src/scrypt-sse2.cpp:52-53 | The xor of the two shifts is the xor of the rotation |
| `ScryptSse2.VectorColumns` | src/scrypt-sse2.cpp:50-62 | Four vector steps are the column round, in natural order |
| `ScryptSse2.VectorRows` | src/scrypt-sse2.cpp:64-86 | Shuffled, four vector steps are the row round, and the shuffles back restore the order |
| `ScryptSse2.NaturalOrder` | src/scrypt-sse2.cpp:109-113 | Word i of a block of vectors is word i * 5 % 16 of the scalar code |
| `ScryptSse2.XorSalsa8Sse2` | src/scrypt-sse2.cpp:38-93 | The vector code computes Salsa20/8 in natural order |
| `ScryptSse2.ScryptCoreSse2` | src/scrypt-sse2.cpp:115-127 | Both vector loops compute ROMix, in natural order |
| `ScryptSse2.ReadPermuted` | src/scrypt-sse2.cpp:109-113 | The words of the buffer are read into the permuted places |
| `ScryptSse2.WritePermuted` | src/scrypt-sse2.cpp:129-133 | The words are written back in natural order |
| `ScryptSse2.ScryptSp` | src/scrypt-sse2.cpp:95-136 | The vector code gives the same bytes as the scalar code, for every input |
| `Merkle.BranchLeadsToRoot` | src/main.h:990-1019 | For every list and index the branch leads from the leaf to the root, odd levels included |
| `Merkle.OnlyTheLeafVerifies` | src/main.h:1006-1019 | With an injective pair hash a branch of that length verifies exactly for the leaf at the index and the branch itself |
| `Merkle.ClimbDecides` | src/main.h:1006-1019 | Two branches of one length that lead to one hash start from the same hash and are the same |
| `Merkle.RootDecides` | src/main.h:971-988 | With an injective pair hash lists with the same number of levels have the same root exactly when their full trees, with the last entry of every odd level repeated, have the same leaves |
| `Merkle.RootDecidesAll` | src/main.h:971-988 | And lists of any lengths have the same root exactly when the full tree of the one with fewer levels has the leaves of that of the same level of the other |
| `Merkle.RootDeterminesList` | src/main.h:971-988 | So two lists without a repeated entry, which is what CheckBlock asks of transactions, and with the same number of levels have the same root only when they are equal |
| `Merkle.RootDeterminesLevel` | src/main.h:971-988 | With more levels in the other, exactly when the shorter list is a level of the tree of the other |
| `Merkle.PairSharesRoot` | src/main.h:971-988 | Such lists: two hashes, and the hash of the pair alone |
| `Merkle.RootDeterminesAny` | src/main.h:971-988 | And if no entry is itself a pair hash, the root alone determines it |
| `Merkle.OnlyLastMayRepeat` | src/main.h:979-984 | An entry appended to a list of odd length leaves the root as it is exactly when it repeats the last |
| `Merkle.LastTwoMayRepeat` | src/main.h:979-984 | Repeating the last two entries leaves the root as it is when the level above has odd length |
| `Merkle.CBlock.BuildMerkleTree` | src/main.h:971-988 | The vector holds all levels, the last entry being the root |
| `Merkle.CBlock.GetMerkleBranch` | src/main.h:990-1004 | The siblings on the way up, from a tree that is built when it is not there |
| `Merkle.CheckMerkleBranch` | src/main.h:1006-1019 | What the branch makes of the hash; 0 for index -1 |
| `Locator.CBlockLocator.Set` | src/main.h:1495-1510 | The entries lie Depth(k) below the tip, down to the last that exists, and then genesis; there are at most 12 + log2(height + 1) |
| `Locator.CBlockLocator.GetDistanceBack` | src/main.h:1512-1532 | Returns the depth of the first entry in the main chain |
| `Locator.CBlockLocator.GetBlockIndex` | src/main.h:1534-1547 | Returns the block of that entry, or genesis |
| `Locator.FoundNearFork` | src/main.h:1495-1547 | With the fork d below the tip the block found is d below when d is at most 11 and less than 2 d below otherwise; the distance is exact unless only the appended genesis is found |
| `Locator.GenesisIsInMain` | src/main.h:1534-1547 | Some entry is always found |
| `Locator.DepthDoubles` | src/main.h:1506-1508 | Past the eleventh entry each depth is twice the one before, less nine |
| `Kernel.SelectBlockFromCandidates` | src/kernel.cpp:70-110 | Fails exactly when all are selected; else returns the open candidate up to the stop time with the least selection hash, or the first open one when there is none |
| `Kernel.PickIsUnique` | src/kernel.cpp:70-110 | The pick is determined |
| `Kernel.StakeFavored` | src/kernel.cpp:85-94 | A proof-of-stake candidate comes before a proof-of-work one exactly when its hash is less than 2^32 times the other, so not always |
| `Kernel.SelectRounds` | src/kernel.cpp:161-178 | No round fails; bit k of the modifier is the entropy bit of pick k |
| `Kernel.PicksDistinct` | src/kernel.cpp:161-178 | No block is picked twice |
| `Kernel.BitOfNumber` | src/kernel.cpp:173-173 | Bit k of the modifier is the k-th entropy bit |
| `Kernel.LastStop` | src/kernel.cpp:150-168 | After the last round the stop time is the time of the previous block rounded down to the interval |
| `Kernel.GetStakeModifierSelectionInterval` | src/kernel.cpp:59-65 | The sum of the 64 sections |
| `Kernel.SectionsGrow` | src/kernel.cpp:52-56 | Later sections are longer, the last three times as long as the first |
| `Kernel.GetLastStakeModifier` | src/kernel.cpp:38-49 | The modifier of the nearest block back that generated one; fails when there is none |
| `Kernel.SortedCandidates` | src/kernel.cpp:146-159 | The blocks since the start time, sorted |
| `Kernel.CandidatesFine` | src/kernel.cpp:143-157 | They are in the order of time and hash, and none is there twice |
| `Kernel.ComputeNextStakeModifier` | src/kernel.cpp:125-210 | Fails only when no block generated a modifier; keeps the modifier within an interval, and else makes a new one from the picks of all rounds |
| `BigNum.MpiRoundTrip` | src/bignum.h:294-319 | Reading an MPI form gives back the number |
| `BigNum.MagnitudeUnique` | src/bignum.h:309-319 | A byte string without a leading zero is that of its value |
| `Compact.CBigNum.SetCompact` | src/bignum.h:321-331 | The bytes cut out of a compact form stand for its mantissa times a power of 256, with its sign |
| `Compact.CBigNum.GetCompact` | src/bignum.h:333-344 | Size, sign and leading three bytes of the number |
| `Compact.CompactRounds` | src/bignum.h:321-344 | Expanding the compact form of v is at most v, off by less than one part in 2^15, and exact below 2^23 |
| `Compact.CompactMonotone` | src/bignum.h:333-344 | Larger numbers have larger compact forms |
| `Compact.CompactIdempotent` | src/bignum.h:321-344 | A number expanded from a compact form goes back to that form |
| `Targets.ComputeMaxBits` | src/main.cpp:1033-1047 | The compact form of the lesser of the limit and 2 * base * 2^hours, hours begun counting |
| `Targets.GetLastBlockIndex` | src/main.cpp:1059-1064 | The nearest block of the kind, or the first block |
| `Targets.LastIsNearest` | src/main.cpp:1059-1064 | No later block of the chain is of the kind |
| `Targets.RetargetMoves` | src/main.cpp:1092-1101 | No block lowers the target by more than an eighth; at the target spacing it stays, and slower or faster blocks move it one way only |
| `Targets.GetNextTargetRequired` | src/main.cpp:1076-1107 | The required bits are the compact form of the target computed from the last two blocks of the kind, and always expand into the range above 0 and up to the limit |
| `Targets.CheckProofOfWork` | src/main.cpp:1110-1124 | Passes exactly when the bits expand into range and the hash is no larger |
| `Targets.LimitsFit` | src/main.cpp:39-40 | Both limits fit the compact form |
| `MedianTime.GetMedianTimePast` | src/main.h:1264-1276 | The median of the last eleven block times, or of all while there are fewer |
| `MedianTime.MedianBelow` | src/main.h:1274-1275 | The median is at least v exactly when at most half of the times are below v |
| `MedianTime.MedianNeverFalls` | src/main.cpp:2168-2169 | When every block is later than the median time past of its parent, the median time past never falls along a chain, the filling window included |
| `MedianTime.LaterThanEveryMedian` | src/main.cpp:2168-2169 | Then every block is later than the median time past of every earlier one |
| `Base58.EncodeBase58` | src/base58.h:26-64 | The encoding: a 1 for each leading zero byte, then the digits of the number |
| `Base58.DecodeBase58` | src/base58.h:74-118 | Decodes exactly strings of alphabet characters between spaces; the sign byte is trimmed and leading zeros are restored |
| `Base58.RoundTrips` | src/base58.h:26-118 | Decoding an encoding gives back every byte string, and encoding a decoding every string over the alphabet |
| `Base58.EncodeBase58Check` | src/base58.h:131-138 | The encoding of the payload with its checksum |
| `Base58.DecodeBase58Check` | src/base58.h:142-159 | Succeeds exactly when the string decodes and the checksum fits, and yields the payload |
| `Base58.CheckRoundTrips` | src/base58.h:131-159 | Every payload comes back, and of the strings over the alphabet only its encoding yields it |

## Left out

- Files, LevelDB, sockets, threads, RPC, wallets, logging, alerts and the user interface: input and output around the modelled state.
- Database and disk failures: writes and commits are taken to succeed, block files to keep what was written (`Stored`); the reading of a block at `src/main.cpp:1703-1724` is the block itself.
- `fJustCheck` of `ConnectBlock`, `InvalidChainFound`, peer scores, `SyncWithWallets` and the `hashNext` records of the block index on disk: they change nothing in the modelled state.
- The memory-pool calls inside `Reorganize` and `SetBestChainInner` (resurrecting and deleting transactions): the pool operations are modelled by themselves in `MemPool`.
- Checks of `CheckBlock` and `AcceptBlock` on version, size, proof of work, timestamps, Merkle root, signature and coinbase height: predicates `blockOk` and `contextOk`.
- Coin age, signature-operation counts and transaction sizes: functions of the oracle.
- Checkpoints.CCheckpoints.AcceptBlock: the run is not followed past a postponed reconnect that fails; then only the place of the checkpoint on the chain to the tip is kept.
- Stake modifiers, entropy bits and proof hashes inside `AddToBlockIndex`: `Kernel` models the modifier with them as parameters.
- ChainState.CChainState.AddToBlockIndex: requires a positive block trust, which every valid target gives.
- MemPool.CTxMemPool.Remove: says nothing when a different transaction with the same hash is pooled; the source identifies transactions by hash.
- MemPool.CTxMemPool.Accept: free-transaction rate limiting, standardness and lock times are predicates; replacing pooled transactions is disabled in the source.
- Block files, header fields, coinbase scripts and the proof-of-work reward in `CreateNewBlock`: the list of transactions and their fees are modelled.
- Miner.CreateNewBlock: priorities and fees per kilobyte are given numbers for each transaction, so how the source computes them in floating point is not modelled; transactions with an input that is nowhere are outside the hypothesis.
- Miner.CBlockTemplate.CollectNeeds: waiting transactions are found by hash instead of by pointer into a list; heap operations are a search for the best.
- AddrMan.CAddrMan.Add: whether an address is routable is an argument.
- `Select_` and `GetChance`: floating-point choice of a peer.
- AddrCheck.Check: looking up a missing address adds the number 0 to `mapAddr` in the source; the model only returns it; which negative number is returned is not stated.
- AddrStore.Load: streams that Save could not have written, at whatever bucket count, are outside the precondition; the reference past the table that the source forms for a bucket number not in use, and leaves unused, is not modelled; version and key are not part of the stream.
- Node.CNode.ReceiveMsgBytes: after a refused header the peer is disconnected, so nothing is said about the parser then.
- Node.CNode.EndMessage: dropping messages for tests is an argument; checksums are not compared by the parser in the source either.
- Scrypt.ScryptNoSalt: the two key derivations with HMAC-SHA-256 are one parameter; words are in little-endian memory; the alignment of the scratchpad is not modelled.
- ScryptSse2.XorSalsa8Sse2: the intermediate sum is kept in local vectors and stored once with the result.
- `CheckStakeKernelHash`, kernel hash weights and modifier checkpoints: formulas without a hard invariant.
- Kernel.ComputeNextStakeModifier: the selection interval is that of the main net; block times are not negative.
- Targets.RetargetMoves: the spacing and timespan are those of the main net; the test net divides both by six.
- BigNum.MpiRoundTrip: OpenSSL's numbers are integers and its byte format is written out; its length prefix is the length of the sequence.
- Base58.DecodeBase58: strings end at their length, not at a NUL character inside.
- Merkle.CBlock.GetMerkleBranch: negative indexes, which would read outside the tree, are excluded by its type; the transactions of a block are fixed, so a tree built before they changed is not modelled.
