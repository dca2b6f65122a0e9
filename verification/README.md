# DSValue in Dafny

A verified model of the parts of DSValue, a Bitcoin 0.9 fork with a lottery pool, whose correctness needs loops,
inductions or arguments about whole runs.

| file | what it models |
|---|---|
| `Core.dfy`, `Coins.dfy` | transactions and their context-free checks; `CCoins` with its trimmed output list |
| `Utxo.dfy` | applying a block to the coin database and taking it back, as functions on the database's map |
| `CoinsView.dfy` | the database under any number of `CCoinsViewCache` layers |
| `Blocks.dfy`, `SigOps.dfy`, `BlockConnect.dfy` | lottery rules; signature operations; `ConnectBlock` and `DisconnectBlock` on a coin view |
| `ChainIndex.dfy`, `ChainState.dfy` | `CChain`, locators and forks; the chain state through any run of tip changes |
| `UndoCheck.dfy` | what a clean `DisconnectBlock` says about the database |
| `History.dfy`, `Lottery.dfy` | the laws of every valid branch told by its transactions alone: what is unspent, what may be spent, who the lottery pays |
| `Money.dfy`, `Solvency.dfy` | what every accepted chain conserves; a branch on which a spendable bet mints coins |
| `Arith.dfy`, `Bits.dfy` | division and powers; bits of a byte |
| `MerkleTree.dfy`, `PartialMerkle.dfy`, `PartialMerkleSize.dfy`, `PartialMerkleLaws.dfy` | the flat merkle tree and its branches; `CPartialMerkleTree` (BIP 37), its serialized size and its simplest cases |
| `CheckQueue.dfy` | `CCheckQueue` as a state machine of one master and any number of workers |
| `AddrInfo.dfy`, `AddrTables.dfy`, `AddrMan.dfy` | the address manager's invariant, index by index, and the operations that keep it |
| `AddrCheck.dfy`, `AddrFile.dfy`, `AddrCase.dfy` | the program's own check of that invariant; saving and loading; a case of eviction |
| `Amount.dfy`, `CoinsCodec.dfy` | compact amounts; the stored form of coins and undo records |
| `Base58.dfy`, `Difficulty.dfy` | base58 strings; compact targets and DarkGravityWave3 |
| `Examples.dfy` | the worked examples of the program's comments and unit tests, which fix the formats that round trips leave open |
| `Miner.dfy`, `Overfull.dfy` | `CreateNewBlock`: choosing pool transactions, the lottery header, the coinbase; a block it may build that is refused |

How the model is built:

- Objects that the program updates in place are classes whose methods are proved against functions on values; the
  theorems are about those functions. A coin database is a map from txid to entry; `Utxo.Live` drops fully spent
  entries, so that "a spent entry counts as an absent one" is equality of two maps.
- Hashes are numbers. No property assumes a hash function to be injective except soundness of merkle proofs, which
  assumes (`MerkleTree.NoSecondPreimage`) that the inner nodes of the one tree at hand have no second preimage.
- A transaction carries its txid; nothing is assumed about how txids arise beyond what the program checks. Serialized
  sizes and signature operations are computed from the transactions.
- The lottery draw is an opaque function of pool, chain, id and key. How an output's script reads as a bet, the stored
  lottery keys and priorities are opaque functions too. Clocks and the draw in `Add_` are parameters, other random
  numbers arbitrary values in range that the contracts speak of as ghost results.
- Every critical section of the check queue is one atomic step; a thread that waits may be woken at any time.

Where the code does less than its comments or its purpose suggest, the model follows the code; a lemma gives a concrete
case and another the exact condition:

| what does not always hold | a case | exactly when it holds |
|---|---|---|
| a partial merkle tree of N hashes has at most 2N-1 bits | `PartialMerkle.BitBoundFails` | `PartialMerkle.BitCount`: no node with an only child is descended into; each costs one bit more |
| its serialized size is at most 10 + ceil(32.25 N) | `PartialMerkleSize.SizeBoundFails`: 1025 transactions, all matched | `PartialMerkleSize.SizeBound` |
| `SelectTried` returns the place of an entry than which no inspected one is older | `AddrCase.RecentEvicted`: a manager with a full bucket, four picks | `AddrTables.ReturnedPlace` |
| coins and pool are together covered by the subsidies | `Solvency.SpendableBetBreaks`: any bet whose script can be spent | `Money.SolventExactly`: no more was bet than burned or left unclaimed |
| ConnectBlock accepts what CreateNewBlock built | `Overfull.PayoutsOverflow`: 64 payouts on top of a full selection | `Miner.BuiltIsAccepted`: header, coinbase and chosen transactions still fit, among other things; `Miner.SmallCoinbaseFits`: up to 2000 bytes and 100 signature operations always do |
| the next target is one a hash can meet | `Difficulty.TargetVanishes`: 24 blocks at target 1 in one second | `Difficulty.NextTargetPositive`: average times timespan reaches the ideal timespan; `Difficulty.LargeTargetsStayPositive`: targets of 3 and more |
| writing the coins to disk keeps them as they are | `ChainState.VersionLost` | `ChainState.ChainState.WriteChainState`, `CoinsView.CCoinsViewCache.Flush`: no unspent cached entry has a negative version |

Where a comment gives wrong examples, the code decides: src/serialize.h:260-261 has 16511 in three bytes and 0xFD as
second byte of 65535 (`Examples.VarIntCorrected`).

Two more are stated whole where they belong. `Flush` of a layer whose best block was neither read nor set writes 0 over
the base's best block when the base is another cache, and leaves it alone when the base is the database
(`CoinsView.CCoinsViewCache.Flush`). An output that pays to the pool without a bet counts as a bet when the last output
before it that has a type is one, because the type is carried along (`Blocks.BetCarriedOver`).

A negative version is written as its low seven bits. The chain state's theorems therefore compare databases by
`Utxo.Same`: the same unspent entries, each as it was or as it reads back. `DisconnectBlock` corrects for this before it
compares (src/main.cpp:1590-1594), and `ChainState.DisconnectCoherent` proves that the correction is enough. With no
negative version on the branch the comparison is equality (`ChainState.CoherentExact`).

## Model

| member | source | states |
|---|---|---|
| Core.CheckTransaction | src/main.cpp:657-702 | accepts exactly the transactions with inputs and outputs, a size within the limit, values and running total in range, distinct prevouts, a coinbase script of 2 to 100 bytes, no other null prevout |
| Core.CheckOutputs | src/main.cpp:667-680 | a loop that stops at the first value or running total out of range accepts exactly non-negative values with a total in range |
| Coins.CCoins.OfTx | src/coins.h:84-87 | a new entry has the transaction's outputs, unspendable ones nulled, trailing nulls dropped |
| Coins.CCoins.Cleanup | src/coins.h:92-98 | drops exactly the trailing spent outputs |
| Coins.CCoins.ClearUnspendable | src/coins.h:100-106 | nulls exactly the unspendable outputs, then trims |
| Coins.CCoins.IsPruned | src/coins.h:234-239 | true exactly when every output is spent |
| Coins.CCoins.Equals | src/coins.h:115-124 | two fully spent entries are equal whatever their metadata; otherwise all fields count |
| Coins.CCoins.Spend | src/coins.cpp:31-45 | fails exactly on a missing or spent output; else the output is nulled, the list trimmed, and the undo record carries metadata only if nothing is left |
| Coins.RestoreAfterSpend | src/coins.cpp:31-45 | putting a spent output back from its undo record gives the entry as it was, for a last and for any other output, and the record's height is 0 exactly when something was left |
| Coins.SpendKeepsOthers | src/coins.cpp:31-45 | a spend leaves every other output's availability and value alone |
| Coins.SpendKeepsGood | src/coins.h:92-98 | entries stay trimmed with canonical nulls |
| Coins.FromTxGood | src/coins.h:84-106 | a checked transaction's entry is trimmed with values in range |
| Utxo.HaveInputsSpendable | src/main.cpp:1440-1452 | inputs that are all there and distinct can be spent one after another |
| Utxo.RestoreUndoesSpend | src/main.cpp:1602-1631 | restoring one input undoes its spend in any database with the same unspent entries, stored or not, and finds nothing unexpected |
| Utxo.RestoreUndoesSpends | src/main.cpp:1602-1631 | restoring all inputs, last to first, undoes all spends, several of one parent included |
| Utxo.RemoveUndoesAdd | src/main.cpp:1577-1600 | clearing a transaction's outputs finds the entry equal to the transaction's and leaves the database without it |
| Utxo.ApplyTxsGood | src/main.cpp:1440-1457 | applying a block keeps every live entry trimmed and in range |
| Utxo.DisconnectUndoesConnect | src/main.cpp:1557-1643 | disconnecting any connectable block with its recorded undo data is clean and gives back the database before it up to fully spent entries, also for blocks that spend their own outputs |
| Utxo.DisconnectRestores | src/main.cpp:1557-1643 | the same when coins and undo data went through storage in between, with versions as stored |
| Utxo.StoringBatch | src/coins.h:157-186 | storing a batch over a database keeps its unspent entries but for negative versions, exactly if the batch has none |
| Utxo.SameApply | src/coins.h:115-124 | applying transactions to two databases with the same unspent entries gives two such databases |
| Utxo.SameBlockUndo | src/main.cpp:1440-1452 | they record the same undo data for a block, but for how versions are stored |
| CoinsView.CCoinsViewDB.BatchWrite | src/txdb.cpp:15-66 | fully spent entries of the batch are erased, the others take their stored form, nothing else changes; a best block of 0 is not written |
| CoinsView.CCoinsViewCache.OnCache | src/coins.cpp:74-74 | a new layer stands for the same map and best block as its base |
| CoinsView.CCoinsViewCache.GetCoins | src/coins.cpp:76-104 | returns what the stack of layers stands for; only fills caches, every layer's abstract state stays |
| CoinsView.CCoinsViewCache.HaveCoins | src/coins.cpp:111-113 | membership in the abstract map |
| CoinsView.CCoinsViewCache.SetCoins | src/coins.cpp:106-109 | changes one key of the abstract map and nothing below |
| CoinsView.CCoinsViewCache.GetBestBlock | src/coins.cpp:115-119 | returns the abstract best block and changes no abstract state |
| CoinsView.CCoinsViewCache.SetBestBlock | src/coins.cpp:121-124 | changes the abstract best block only |
| CoinsView.CCoinsViewCache.BatchWrite | src/coins.cpp:126-131 | the abstract map becomes itself overlaid with the batch |
| CoinsView.CCoinsViewCache.Flush | src/coins.cpp:133-138 | moves the abstract map into a base cache exactly, into the database in stored form, which is the same exactly without negative versions; the best block moves too unless it was neither read nor set, in which case it says what happens |
| CoinsView.CCoinsViewCache.HaveInputs | src/coins.cpp:163-182 | true exactly when every input is available in the abstract map |
| CoinsView.CCoinsViewCache.GetValueIn | src/coins.cpp:151-161 | the sum of the inputs' values |
| Blocks.GetLottoTxOutType | src/core.cpp:72-103 | an output without a bet keeps the type before it, an invalid bet counts as valid up to height 4380 of the active chain |
| Blocks.GetLottoValueFromTx | src/main.cpp:231-243 | the bets of a transaction, the type carried from output to output, none for a coinbase |
| Blocks.BetCarriedOver | src/main.cpp:233-239 | a payment to the pool without a bet counts exactly when the last typed output before it is a bet |
| Blocks.BetCases | src/core.cpp:72-103 | a bet counts exactly if it is valid or the chain no higher than 4380; a payment elsewhere and an unreadable script never do |
| Blocks.BetsWorth | src/main.cpp:231-243 | a coinbase bets nothing, another transaction the value of exactly those of its outputs that are bets |
| Blocks.GetLottoValueFromBlock | src/main.cpp:245-253 | the bets of a block |
| Blocks.IsTransactionValid | src/core.cpp:201-212 | true exactly when every output's script can be read and none leaves the type at an invalid bet |
| Blocks.BetsValidWhen | src/core.cpp:201-212 | although the type is carried along, that is the case exactly when each output by itself can be read and, above height 4380, carries no invalid bet |
| SigOps.GetSigOpCount | src/script.cpp:1851-1870 | the loop counts checks one each and multi-signature checks by their keys, or 20 where that is not asked for or not known, up to where the script breaks off |
| SigOps.OpCountBy | src/script.cpp:1851-1870 | what each opcode counts, by its byte and the byte before it |
| SigOps.GetRedeemSigOpCount | src/script.cpp:1872-1892 | for a pay-to-script-hash output the count of the last script pushed, 0 if anything but pushes comes along |
| SigOps.GetLegacySigOpCount | src/main.cpp:588-597 | over all inputs and outputs of a transaction |
| Examples.SigOpExample | src/test/sigopcount_tests.cpp:24-36 | a one-of-two check and a check under a condition count 3 exactly and 21 otherwise |
| Examples.RedeemExample | src/test/sigopcount_tests.cpp:38-42 | brought along for a pay-to-script-hash output the same script counts 3 |
| Examples.SigOpsOfTwo | src/main.cpp:1753-1770 | of two transactions the second is counted against the database after the first |
| SigOps.GetP2SHSigOpCount | src/main.cpp:599-610 | over the scripts brought along for pay-to-script-hash outputs of the view |
| SigOps.SameSigOps | src/main.cpp:1753-1770 | databases with the same unspent entries count the same for a block |
| Blocks.DrawLottery | src/miner.cpp:110-164 | nothing before two intervals or without a key; else the winners' outputs, whose values the rewards add up to |
| Blocks.CheckLottoResult | src/main.cpp:2611-2669 | accepts exactly the blocks that meet the pool and payout rules; whom these pay is `Lottery.WinnersPaid` |
| Blocks.PoolEquation | src/main.cpp:2611-2659 | in every accepted block the pool grows by the bets and shrinks by what the coinbase pays beyond its first output |
| Lottery.WinnersPaid | src/main.cpp:2611-2669 | in every block of a valid branch: where a draw is due the header carries the right id and key and the coinbase pays, from its second output on, exactly the winners drawn with them from the parent's pool, in order; elsewhere it pays the miner alone; the pool is the parent's plus bets less payments |
| Lottery.KeyCarriedOn | src/main.cpp:2649-2667 | a block of a valid branch leaves the key out only at a multiple of the interval, or after a block without a real key |
| BlockConnect.CheckBlock | src/main.cpp:2464-2525 | accepts exactly the blocks within the size and signature operation limits, with one coinbase, in front, checked transactions and distinct txids |
| BlockConnect.CheckInputs | src/main.cpp:1471-1521 | accepts exactly when every input is there, mature and in range and the fee is in range; only fills caches |
| BlockConnect.UpdateCoins | src/main.cpp:1440-1457 | the view becomes the one with the inputs spent in turn and the transaction added, the undo record holds each input's state at its turn |
| BlockConnect.CheckNoOverwrite | src/main.cpp:1724-1731 | accepts exactly when no transaction of the block has a live entry |
| BlockConnect.ConnectTxs | src/main.cpp:1749-1785 | goes through exactly when each transaction meets the input rules at its place and all signature operations stay within the limit; then fees, view and undo data are those of the whole block |
| BlockConnect.ConnectBlock | src/main.cpp:1677-1843 | succeeds exactly when the block builds on the view's best block and meets every rule; then map, best block and undo store are the stated ones, on failure and on a dry check nothing is recorded |
| BlockConnect.AcceptsConnectable | src/main.cpp:1677-1843 | what ConnectBlock accepts is a block that DisconnectBlock can take back |
| BlockConnect.RestoreTxInput | src/main.cpp:1607-1630 | one input's restoration, with the conditions under which it is not clean |
| BlockConnect.UndoTransactions | src/main.cpp:1576-1633 | the backwards loop computes the specification's result, first transaction without undo data included |
| BlockConnect.DisconnectBlock | src/main.cpp:1557-1643 | result, cleanliness, map and best block as functions of the view and the stored undo data; what the answer "clean" is worth is `UndoCheck.CleanIsReversible` |
| UndoCheck.CleanIsReversible | src/main.cpp:1557-1643 | the answer "clean" can be relied on: whatever database of unspent entries and whatever undo data of unspent outputs it is given for, connecting the block's transactions again gives back the unspent entries there were, but for versions of transactions with a negative one |
| UndoCheck.ReversibleExactly | src/main.cpp:1557-1643 | without negative versions exactly |
| UndoCheck.RemovedCleanly | src/main.cpp:1577-1600 | a transaction's outputs are found as expected if and only if the database holds for it what it makes, or nothing if it makes nothing; only that entry goes |
| UndoCheck.StatesTidy | src/main.cpp:3196-3210 | coins and stored undo data of every reachable state are of that kind |
| History.UnspentExactly | src/coins.h:84-87 | on every valid branch the unspent outputs are exactly those made and not spent since, with the value and script they were made with, the height and version of the transaction that made them, and the coinbase flag exactly if it was a coinbase |
| History.MakerIs | src/main.cpp:1440-1457 | the maker of an output is the last transaction that made it, and there is one exactly if some made it and none spent it since |
| History.SpendsMadeAndMature | src/main.cpp:1484-1505 | every input of a valid branch spends an output made before and not spent since, and one of a coinbase only when it is as many blocks deep as coinbases take to mature |
| History.NoDoubleSpend | src/main.cpp:1471-1505 | between two spends of an outpoint it was made anew |
| History.NothingFromNothing | src/main.cpp:1507-1521 | no transaction but a coinbase pays out more than the outputs it spends were made with |
| History.TransactionsChecked | src/main.cpp:657-702 | the context-free rules hold of every transaction of a valid branch |
| History.TxidsNotReused | src/main.cpp:1724-1731 | no transaction of a valid branch reuses a txid with an output that is unspent |
| History.BlocksChecked | src/main.cpp:2464-2525 | every block of a valid branch keeps the limits on size and signature operations, has one coinbase, in front, distinct txids, and a first output of at most subsidy and fees |
| ChainIndex.CChain.SetTip | src/main.cpp:305-317 | whatever the vector held for another tip, it ends up as the whole path to the new one although the loop stops at the first right entry; the fork point is on both paths and nothing above it was shared |
| ChainIndex.CChain.GetLocator | src/main.cpp:318-343 | starts at the entry, ends at genesis, all on one path; the first ten steps are 1, the next 2, 4, 8 and so on, cut off at genesis; more than twelve entries only for heights exponential in their number |
| ChainIndex.SpacedHeights | src/main.cpp:330-339 | the height of every locator entry in closed form |
| ChainIndex.CChain.FindFork | src/main.cpp:345-356 | the first locator entry on this chain, else genesis |
| ChainIndex.CChain.ForkIsCommon | src/main.cpp:345-356 | on a locator of any branch of the same tree the fork found is on both branches and no higher locator entry is on this chain |
| ChainIndex.CChain.ForkIsNear | src/main.cpp:318-356 | the fork found is at most as far below any block common to both branches as that block is below the locator's start |
| ChainIndex.CChain.ContainsIsAncestor | src/main.h:1034-1061 | membership by height is being an ancestor of the tip |
| ChainState.ChainState.ConnectTip | src/main.cpp:1947-1992 | keeps: the unspent coins are those of the replay of the active chain from genesis but for stored versions, the best block is its tip, stored undo data is that of each block's own branch; succeeds exactly when the branch's replay accepts the block |
| ChainState.ChainState.DisconnectTip | src/main.cpp:1905-1944 | never fails in such a state, keeps it, and the parent becomes the tip |
| ChainState.ChainState.WriteChainState | src/main.cpp:1846-1865 | the best block stays; the unspent coins stay the same exactly if nothing is written or no cached one has a negative version, and otherwise only such versions take their stored form |
| ChainState.ChainState.DisconnectToFork | src/main.cpp:2070-2074 | the loop ends at an ancestor of the new tip |
| ChainState.ChainState.ActivateBestChain | src/main.cpp:2057-2110 | a reorganisation reaches the most-work tip exactly when that whole branch is valid, and otherwise stops on its path with the invariant intact |
| ChainState.DisconnectLast | src/main.cpp:1808-1827 | undo data written at the first connect is right for the same block after any reorganisation, however often it and the coins were stored |
| ChainState.ConnectCoherent | src/main.cpp:1947-1992 | acceptance on the live database is acceptance on the replay of the branch |
| ChainState.DisconnectCoherent | src/main.cpp:1905-1944 | the stored undo data of the tip undoes it cleanly to the replay of its parent, negative versions included |
| ChainState.CoherentExact | src/main.cpp:1587-1594 | without negative versions the unspent coins are exactly those of the replay |
| ChainState.VersionLost | src/coins.h:160-161 | version -1 comes back from the database as 127 |
| Money.TxTotal | src/main.cpp:1440-1457 | a transaction lowers the unspent total by its fee and by what it burns |
| Money.BlockTotal | src/main.cpp:1791-1794 | an accepted block adds exactly subsidy plus lottery payouts, less what it burns and what its miner leaves unclaimed |
| Money.PoolAccounts | src/main.cpp:2611-2659 | on every valid branch the pool is the genesis pool plus all bets minus all payouts |
| Money.SupplyAccounts | src/main.cpp:1791-1794 | on every valid branch the unspent outputs are worth exactly subsidies plus payouts, less what was burned and left unclaimed |
| Money.StateAccounts | src/main.cpp:1677-1843 | in every reachable chain state coins and pool are together worth the subsidies, the genesis pool and the bets, less what was burned and left unclaimed |
| Money.SolventExactly | src/main.cpp:1677-1843 | they are covered by subsidies and genesis pool exactly when no more was bet than burned or left unclaimed; the shortfall is at most the bets left spendable |
| Money.UnspendableBetsSolvent | src/script.h:558-561 | if no bet's script can be spent they are covered |
| Solvency.SpendableBetBreaks | src/main.cpp:231-243 | for any maturity and interval, one bet with a spendable script gives a valid branch on which they are not; what it spends is a coinbase anyone can spend |
| Money.SubsidiesMinted | src/main.cpp:1083-1101 | the subsidies up to any height in closed form |
| Money.SubsidiesInRange | src/main.cpp:1083-1101 | they stay within the money range up to a height beyond any 32-bit one |
| MerkleTree.CBlock.BuildMerkleTree | src/core.cpp:280-297 | the flat array is the concatenation of all levels and the returned root is the recursive CalcHash of the whole tree, for every transaction count |
| MerkleTree.CBlock.GetMerkleBranch | src/core.cpp:299-313 | the siblings on the way up, a last odd node being its own sibling |
| MerkleTree.CheckMerkleBranch | src/core.cpp:315-330 | the fold of a branch, hashed left or right by the index bits |
| MerkleTree.BranchComplete | src/core.cpp:299-330 | a txid with its own branch checks to the root, for every index and count |
| MerkleTree.BranchSound | src/core.cpp:315-330 | a hash with any branch of the tree's height that checks to the root is the txid at that index |
| PartialMerkle.CPartialMerkleTree.constructor | src/main.cpp:2988-3001 | bits and hashes are those of the recursive construction for the match mask |
| PartialMerkle.CPartialMerkleTree.TraverseAndBuild | src/main.cpp:2938-2955 | appends the bits and hashes of one subtree |
| PartialMerkle.CPartialMerkleTree.TraverseAndExtract | src/main.cpp:2957-2986 | on arbitrary bits and hashes computes the specified walk: hash, matches, counters, badness |
| PartialMerkle.CPartialMerkleTree.ExtractMatches | src/main.cpp:3007-3038 | 0 exactly when one of the checks fails, else the walk's root and matches |
| PartialMerkle.PackBits | src/main.h:561-578 | bit p of the list is bit p mod 8 of byte p div 8, padding bits are clear |
| PartialMerkle.UnpackBits | src/main.h:561-578 | the inverse reading |
| PartialMerkle.WalkBuilt | src/main.cpp:2938-2986 | reading back what was built for a subtree gives its hash and its matched txids in order and uses up exactly its bits and hashes, whatever follows in the streams |
| PartialMerkle.ExtractComplete | src/main.cpp:2988-3038 | for every nonempty list and mask within the size limit extraction succeeds with the root and exactly the matched txids, also after padding to bytes |
| PartialMerkle.WalkSound | src/main.cpp:2957-2986 | a walk over any streams that ends with a subtree's true hash found only leaves of that subtree, at strictly increasing positions |
| PartialMerkle.ExtractSound | src/main.cpp:3007-3038 | bits and hashes from anyone that extract to the true root name only txids of the block, in block order |
| PartialMerkle.BuiltSizes | src/main.h:512-527 | at most one hash per leaf, at most one plus matches times height, at least one bit per hash |
| PartialMerkle.BitCount | src/main.h:520-527 | the exact number of bits: 2N-1 and one more for each single-child node descended into |
| PartialMerkle.BitBoundFails | src/main.h:520-527 | three txids, the last matched: two hashes and four bits |
| PartialMerkleSize.SizeBound | src/main.h:509-527 | the promised size holds exactly when the flag bits take fewer than 253 bytes or the extra bits still fit into the last byte |
| PartialMerkleSize.SizeBoundFails | src/main.h:509-512 | 1025 transactions, all matched, take one byte more than promised |
| PartialMerkleSize.AtMostOnePerLevel | src/main.h:520-527 | at most one extra bit per level of the tree |
| PartialMerkle.SendAndExtract | src/main.h:561-578 | build, pack, unpack, extract: root, matches and size bounds hold end to end |
| PartialMerkle.ReceiveForBlock | src/main.cpp:3007-3038 | a received tree is accepted for a block only if all it names is in the block, in order |
| PartialMerkleLaws.SmallRoots | src/main.cpp:2923-2936 | the root of one, two and three txids, hashed in order, an odd last one with itself |
| PartialMerkleLaws.NothingMatched | src/main.cpp:2938-2955 | with nothing matched one clear bit and the root are sent |
| PartialMerkleLaws.EverythingMatched | src/main.cpp:2938-2955 | with everything matched all bits are set and the hashes are the txids in order |
| PartialMerkleLaws.NothingToSpare | src/main.cpp:3024-3036 | what extracts does not with further hashes or another byte of bits |
| PartialMerkleLaws.ExtractLimits | src/main.cpp:3009-3019 | at most 16666 transactions, no more hashes than transactions nor than bits |
| CheckQueue.CCheckQueue.Add | src/checkqueue.h:138-149 | the checks are queued and counted; whom it notifies |
| CheckQueue.CCheckQueue.LoopSection | src/checkqueue.h:63-120 | one critical section on the real fields is one step of the state machine: cleanup, return, wait or a batch |
| CheckQueue.BatchIsShare | src/checkqueue.h:97-103 | a batch is an even share of the queue among all threads and one more, but at least one check and at most the batch size |
| CheckQueue.WorkFromBack | src/checkqueue.h:104-112 | it is the end of the queue, last check first, and the rest stays |
| CheckQueue.RunBatch | src/checkqueue.h:113-118 | evaluates a batch to the conjunction of its verdicts, stopping at the first failure |
| CheckQueue.StepKeepsInv | src/checkqueue.h:63-149 | every step of every thread keeps the invariant, spurious and lost signals included |
| CheckQueue.RunKeepsInv | src/checkqueue.h:63-149 | so every state of every interleaving satisfies it |
| CheckQueue.HoldersCounted | src/checkqueue.h:63-120 | at every lock release nTotal - nIdle counts the threads holding a batch and nTodo the queued and in-flight checks |
| CheckQueue.UnusedBetweenWaits | src/checkqueue.h:166-176 | whenever nothing was added since the last Wait, the assertions of the controller's constructor hold |
| CheckQueue.WaitReturnsVerdict | src/checkqueue.h:133-135 | Wait returns true exactly when every check added since the last Wait passes, and leaves an unused queue |
| CheckQueue.NoLostWakeup | src/checkqueue.h:73-97 | whenever the master waits unsignalled the queue is empty, work is outstanding and some worker holds it |
| CheckQueue.Progress | src/checkqueue.h:73-97 | while the master is in Wait every step that depends on no luck can be taken and brings it closer to returning |
| CheckQueue.NoSetback | src/checkqueue.h:63-120 | no other step of any thread takes it further away |
| CheckQueue.MasterAlwaysReturns | src/checkqueue.h:133-149 | from every reachable state and in every interleaving at most 2 * nTodo + 2 such steps are taken before Wait returns, whatever else happens between them, and until then there is one to take |
| AddrInfo.SwapKeeps | src/addrman.cpp:108-126 | swapping two places of vRandom keeps it inverse to the entries |
| AddrInfo.TerribleWhen | src/addrman.cpp:40-58 | when an entry is bad enough to be given up, by its times and attempts |
| AddrTables.CreateTables | src/addrman.cpp:96-106 | a new entry is the only one without references |
| AddrTables.DropReferenceKeeps | src/addrman.cpp:164-200 | taking an entry out of a bucket keeps every count equal to the buckets holding the entry, with the entry gone if it was the last |
| AddrTables.EvictedKeeps | src/addrman.cpp:232-255 | a tried entry sent back to a new bucket has one reference and the counts stay exact |
| AddrTables.ReplaceTried | src/addrman.cpp:232-260 | overwriting its place keeps every tried entry exactly once in the bucket of its service |
| AddrTables.InspectIs | src/addrman.cpp:128-150 | where every entry of the bucket ends up, and that the place recorded is the pick of the first round that looks at an oldest entry, in terms of bucket and picks |
| AddrTables.ReturnedPlace | src/addrman.cpp:128-150 | no inspected entry is older than the one at the returned place exactly when that round picked its own place, or a later round's place with an equally old entry, or a place where the picks left an entry as old that was never looked at |
| AddrCase.RecentEvicted | src/addrman.cpp:223-233 | a manager whose indexes all agree, with a full bucket of 64, and four picks for which an inspected entry more recent than another one is chosen |
| AddrMan.CAddrMan.Find | src/addrman.cpp:83-94 | the entry of an address, or none exactly when there is none |
| AddrMan.CAddrMan.Create | src/addrman.cpp:96-106 | adds one fresh entry to all indexes |
| AddrMan.CAddrMan.SwapRandom | src/addrman.cpp:108-126 | new order and new positions |
| AddrMan.CAddrMan.SelectTried | src/addrman.cpp:128-150 | the bucket after at most four swaps and the recorded place, for any random picks |
| AddrMan.CAddrMan.ShrinkNew | src/addrman.cpp:152-204 | returns 0 and drops the lowest-numbered terrible entry exactly when there is one, else 1 and drops the longest unseen of four random ones; all indexes agree after it |
| AddrMan.DroppedIs | src/addrman.cpp:152-204 | the entry given up is the lowest-numbered terrible one, or, if there is none, stands at one of the four drawn places and none there was announced longer ago |
| AddrMan.CAddrMan.LeaveNewBuckets | src/addrman.cpp:210-219 | the entry leaves every new bucket and its count comes to 0 |
| AddrMan.CAddrMan.MakeTried | src/addrman.cpp:206-262 | the entry moves to its tried bucket; if that is full it trades places with the entry SelectTried finds for some four picks, which goes to its own new bucket or, if full, to one the newcomer left; no bucket overflows |
| AddrMan.TradedIs | src/addrman.cpp:221-262 | who trades places with whom: kinds, references, buckets and the place taken over, entry by entry |
| AddrMan.CAddrMan.Good_ | src/addrman.cpp:264-311 | unknown service: nothing changes; tried: only its statistics; new: statistics and the move; the whole invariant holds after it |
| AddrMan.CAddrMan.Add_ | src/addrman.cpp:313-368 | true exactly for a routable address without entry, which then has one and a reference in the bucket of address and source; a known address gets a further one exactly when the announcement is news, the entry is neither tried nor in four buckets, and the draw allows it, otherwise its services and time at most change; a full bucket gives up the entry ShrinkNew picks; the whole invariant holds after it |
| AddrMan.RefiledWhen | src/addrman.cpp:333-350 | a known entry in one, two or three buckets gets a further reference with odds of one in 2, 4 or 8, in four buckets none; old news and tried entries never do |
| AddrMan.AnnouncedAs | src/addrman.cpp:351-357 | every field of a new entry |
| AddrMan.RefreshedWhen | src/addrman.cpp:322-331 | when, and to what, the time of a known entry moves |
| AddrMan.Refreshed | src/addrman.cpp:322-331 | an announcement only adds services and never moves the time back nor past the announced time |
| AddrMan.CAddrMan.Attempt_ | src/addrman.cpp:370-387 | changes one entry's last try and attempt count, or nothing |
| AddrMan.CAddrMan.Connected_ | src/addrman.cpp:513-531 | moves one entry's time forward after twenty minutes, or changes nothing |
| AddrMan.CAddrMan.GetAddr_ | src/addrman.cpp:493-511 | as many entries as the rule says, each with its own address, services and time, no address twice; the order is permuted and nothing else changes |
| AddrMan.NodesToSendAre | src/addrman.cpp:493-498 | small tables are sent whole, large ones by 23 percent, up to 2500 |
| AddrMan.ShareKept | src/addrman.h:159-163 | the advertised percentage is kept exactly by an empty table or one of at least 2500 |
| AddrCheck.Check_ | src/addrman.cpp:434-490 | the program's consistency check returns 0 exactly on tables that agree in the stated sense |
| AddrCheck.CheckIsInvariant | src/addrman.cpp:434-490 | given indexed addresses and right tried buckets, which it does not look at, it returns 0 exactly on tables meeting the invariant |
| AddrFile.Save | src/addrman.h:280-318 | the file lists the new and the tried entries once each and every bucket as the numbers of its entries |
| AddrFile.Load | src/addrman.h:319-380 | from any file with distinct addresses and bucket lists within bounds rebuilds all indexes with the invariant; tried entries beyond a full bucket are dropped and no other |
| AddrFile.AllKept | src/addrman.h:342-361 | from a file written by a valid manager no tried entry is dropped |
| AddrFile.SaveAndLoad | src/addrman.h:249-381 | save then load with the same key gives the same manager up to renaming ids: stored fields, kinds, reference counts, bucket memberships |
| AddrFile.RenamedFields | src/addrman.h:280-380 | field by field, all but the time of the last try and the place in vRandom stays |
| Amount.CompressedBack | src/core.cpp:221-264 | decompression undoes compression, for every natural number |
| Amount.DecompressedBack | src/core.cpp:221-264 | compression undoes decompression, for every natural number |
| Amount.CompressedFits | src/core.cpp:221-238 | no amount up to MAX_MONEY overflows 64 bits |
| Amount.CompressAmount | src/core.cpp:221-238 | the loop computes the specified form modulo 2^64 for every 64-bit amount |
| Amount.DecompressAmount | src/core.cpp:240-264 | the inverse loop, modulo 2^64 for every 64-bit number |
| Examples.CompressExamples | src/test/compress_tests.cpp:37-44 | the compressed forms the unit test names |
| Examples.VarIntExamples | src/serialize.h:257-262 | the encodings the comment names |
| Examples.VarIntOfTwoTo32 | src/serialize.h:262-262 | the encoding of 2^32 |
| Examples.VarIntCorrected | src/serialize.h:260-261 | the right encodings of the two numbers for which it names wrong ones |
| CoinsCodec.VarIntBack | src/serialize.h:277-307 | a variable-length integer reads back as itself, a negative one as its low seven bits |
| CoinsCodec.WriteVarInt | src/serialize.h:277-292 | the two loops write the specified bytes |
| CoinsCodec.ReadVarInt | src/serialize.h:294-307 | the loop reads the specified value or fails |
| CoinsCodec.CalcMaskSize | src/coins.cpp:13-29 | one past the last mask byte with an unspent output, and how many such bytes there are |
| CoinsCodec.MaskBack | src/coins.h:169-203 | since the last mask byte is nonzero the reader stops right after it, for any number of outputs |
| CoinsCodec.Serialize | src/coins.h:157-186 | the written stream, for every entry with something unspent, values as 64-bit unsigned numbers |
| Examples.FirstCoinsExample | src/coins.h:32-48 | the bytes of the first documented entry, but for the script |
| Examples.SecondCoinsExample | src/coins.h:49-66 | the bytes of the second, a coinbase with mask bytes |
| CoinsCodec.Unserialize | src/coins.h:188-219 | the parsed entry or failure, on any stream |
| CoinsCodec.CoinsBack | src/coins.h:157-219 | reading back any trimmed entry with values in range and spent outputs cleared gives its stored form |
| CoinsCodec.StoredExactly | src/coins.h:157-219 | the round trip is exact if and only if the version is not negative |
| CoinsCodec.UndoBack | src/core.h:321-338 | the undo record of any spend comes back in stored form, unchanged if and only if its version is not negative |
| Examples.UndoExamples | src/core.h:321-327 | the bytes of two undo records, with and without metadata |
| Base58.ConvertBack | src/base58.h:33-125 | changing base and back is the identity on every digit list, leading zeros included |
| Base58.EncodeBase58 | src/base58.h:33-71 | the loop over a big number writes the base change |
| Base58.DecodeBase58 | src/base58.h:81-125 | accepts exactly alphabet characters between spaces and returns the base change of them |
| Base58.EncodedBack | src/base58.h:33-125 | decoding an encoding gives the bytes back, for all byte strings |
| Base58.DecodedBack | src/base58.h:33-125 | encoding a decoding gives the string back, for all strings of the alphabet |
| Examples.Base58Examples | src/test/data/base58_encode_decode.json:2-5 | the strings of the first test vectors |
| Examples.Base58Zeros | src/test/data/base58_encode_decode.json:13-13 | ten zero bytes are ten ones |
| Difficulty.GetCompact | src/bignum.h:314-335 | the compact value, sign bit included |
| Difficulty.SetCompact | src/bignum.h:294-312 | the number a compact value stands for |
| Examples.SetCompactExamples | src/test/bignum_tests.cpp:127-212 | the numbers the unit test names |
| Examples.GetCompactExamples | src/test/bignum_tests.cpp:127-212 | and their encodings |
| Difficulty.CompactRounds | src/bignum.h:294-335 | decoding an encoded number drops whole low bytes until 23 bits are left, and is never negative |
| Difficulty.RoundedTwice | src/bignum.h:294-335 | rounding to what an encoding keeps is idempotent |
| Difficulty.CompactTwice | src/bignum.h:294-335 | encoding is idempotent: encoding what an encoding stands for gives it back |
| Difficulty.RoundedMonotone | src/bignum.h:294-335 | encoding is monotone |
| Difficulty.RoundingError | src/bignum.h:294-335 | it rounds down by less than x / 2^15 |
| Difficulty.CheckProofOfWork | src/main.cpp:1266-1279 | accepts exactly a target in range that the hash does not exceed |
| Difficulty.AverageStep | src/main.cpp:1156-1165 | the running average stays between the bounds of what it averages |
| Difficulty.AverageWithin | src/main.cpp:1156-1165 | the running average of any number of targets lies between the smallest and the largest |
| Difficulty.AverageClosed | src/main.cpp:1153-1165 | k + 1 averages of k targets are the newest target twice and the others once, less what k - 1 divisions round off, below k (k + 1) / 2 |
| Difficulty.SpanTelescopes | src/main.cpp:1167-1171 | positive block times add up to newest minus oldest |
| Difficulty.ReadRecent | src/main.cpp:1150-1178 | exactly the last 24 entries are read, newest first; their running average, whose weights are `Difficulty.AverageClosed`, and added-up timespan |
| Difficulty.NextTargetFormula | src/main.cpp:1128-1193 | from height 24 on the target before encoding is the limit or a ninety-thousandth of the clamped timespan times the 24 targets, the newest counted twice, up to a stated rounding |
| Difficulty.NextTargetBounds | src/main.cpp:1128-1193 | the target before encoding is at least a third of the least of 24 targets or the limit, at most three times the largest and at most the limit; what the encoding stands for is no larger |
| Difficulty.NextTargetPositive | src/main.cpp:1167-1193 | the encoded next target is positive, as CheckProofOfWork asks, exactly when the limit is and the average times the clamped timespan is at least 3600 |
| Difficulty.LargeTargetsStayPositive | src/main.cpp:1128-1193 | which 24 targets of 3 and more guarantee |
| Difficulty.TargetVanishes | src/main.cpp:1180-1186 | after 24 blocks at target 1 in one second it is 0 |
| Difficulty.DarkGravityWave3 | src/main.cpp:1128-1193 | the limit below height 24, else the average of 24 targets scaled by the clamped timespan and capped, encoded; in terms of the targets it is `Difficulty.NextTargetFormula` |
| Miner.Collect | src/miner.cpp:230-302 | every eligible pool transaction is queued or waits for exactly its unconfirmed parents, none twice |
| Miner.Release | src/miner.cpp:396-411 | adding a transaction queues exactly those that waited for it alone, once, even if listed twice |
| Miner.SelectOne | src/miner.cpp:321-412 | takes a transaction nothing in the queue comes before and adds it exactly when it fits the limits and meets the input rules; totals and order after it are those of one pick |
| Miner.NotBelow | src/miner.cpp:88-108 | the order of the queue: by priority and then fee, or by fee and then priority |
| Miner.AdmittedWhen | src/miner.cpp:331-373 | when the front transaction is added, in terms of the settings |
| Miner.ByFeeWhen | src/miner.cpp:349-358 | when the order turns to fees |
| Miner.PickMeans | src/miner.cpp:331-394 | what one pick changes, field by field |
| Miner.QueueExact | src/miner.cpp:396-411 | between picks the queue holds exactly the eligible transactions not picked yet whose inputs all name transactions of the chain or the block |
| Miner.ParentsAre | src/miner.cpp:241-272 | the unconfirmed parents are the txids named by inputs that the chain does not have |
| Miner.SelectTransactions | src/miner.cpp:318-412 | terminates; there is an order of picks in which every one was the first that could be picked at its turn, none is left at the end that could be, and the block is what those picks admit; each chosen transaction meets the input rules at its place and comes after its unconfirmed parents; size, signature operations, fees and bets are exact and within limits |
| Miner.CreateNewBlock | src/miner.cpp:181-497 | no block exactly when a needed lottery key is unknown; else the coinbase claims subsidy and fees of that selection for the given script and pays the winners drawn with the header's key, and pool, id and key of the header are the stated ones and pass CheckLottoResult's rules |
| Miner.KeyMissingWhen | src/miner.cpp:447-463 | when a needed key is unknown, by height, parent key and stored key |
| Miner.BuiltWellFormed | src/miner.cpp:448-491 | the built block is well formed exactly when its coinbase is |
| Miner.BuiltIsAccepted | src/miner.cpp:494-500 | ConnectBlock's modelled rules accept what was built exactly when the coinbase is well formed, nothing overwrites an unspent transaction, and header, coinbase and chosen transactions together keep the limits on size and signature operations |
| Miner.SmallCoinbaseFits | src/miner.cpp:305-307 | they keep them if header and coinbase need at most 2000 bytes and 100 signature operations |
| Overfull.PayoutsOverflow | src/miner.cpp:471-478 | on a valid branch, a selection within all its limits and 64 payouts give a block of 1000048 bytes, right in every other respect, that is refused |

## Left out

- BlockConnect.CheckBlock: does not model proof of work, timestamps and merkle root.
- BlockConnect.ConnectBlock: does not model scripts and the checks against the Bitcoin chain, nor the two historical BIP 30 exceptions; pay-to-script-hash rules always hold, as at every time after April 2012; fees are summed without 64-bit wrap-around.
- ChainState.ChainState.ActivateBestChain: takes the most-work chain as given; FindMostWorkChain, mempool and wallet follow-up are not modelled, nor is disconnecting genesis or a failing disk.
- CoinsView.CCoinsViewCache.GetCoins: the program hands out a reference into the cache; here an entry is read, changed and stored, so aliasing is not captured.
- BlockConnect.ConnectTxs: does not model scripts.
- Blocks.CheckLottoResult: does not model the checks of the Bitcoin hashes in the header; a bet's own validity is opaque, and the active tip is the block's parent, as it is when ConnectTip runs.
- Blocks.DrawLottery: the draw itself is opaque; that its outputs add up to the rewards is how the program computes the rewards.
- UndoCheck.CleanIsReversible: says nothing about the stored version of an entry whose transaction has a negative one, because DisconnectBlock accepts any version there (src/main.cpp:1590-1594).
- CheckQueue.RunKeepsInv: fQuit is never set, as the program never sets it, and checks have a fixed verdict.
- AddrFile.Load: does not model files with an address twice, with another bucket count, or with bucket lists that Save never writes (numbers out of range, repetitions, entries in no bucket or in more than four).
- CoinsCodec.ReadVarInt: numbers in malformed streams are unbounded where the program wraps at the width of the type.
- CoinsCodec.Unserialize: numbers in malformed streams are unbounded where the program wraps at 32 or 64 bits.
- Difficulty.GetCompact: does not model sizes of 256 bytes and more, which no target reaches.
- Base58.DecodeBase58: takes the string up to its terminating zero; big number arithmetic and its byte format are mathematical.
- Miner.Collect: the pool is assumed connected, as the program asserts in debug builds; otherwise it may leave a pointer to an orphan it has just deleted.
- Miner.BuiltIsAccepted: leaves out what the model leaves out of ConnectBlock: scripts, which were checked when the transactions were chosen, the time stamp and the Bitcoin hashes.
- Miner.CreateNewBlock: priorities and fees per kilobyte are given numbers; nonce, time, difficulty and Bitcoin hashes of the header are not modelled.
- CAddrMan::Select_ and GetChance: selection probabilities in floating point, and a loop that ends only with probability one.
- Network, RPC, wallet, UI, logging, and file or database access.
- SHA-256, X11, ECDSA, AES, script evaluation and the script compressor.
- CBlockFileInfo, alerts, bloom filters, key store, limitedmap and mruset: only easier members.
