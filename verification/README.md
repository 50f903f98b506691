# Polkadex: a verified model of the ledger, its settlement and its migrations

Polkadex keeps an exchange ledger off chain in a Merkle trie. Validators replay signed batches of user
actions on it, and the chain settles the outcome by accepting signed snapshots. This project models that
machinery in Dafny and proves what it keeps over whole runs. Six parts are covered.

* **Ledger extraction** (`ByteStrings`, `Scale`, `NodeCodec`, `Tries`, `TrieWalk`, `LedgerRows`,
  `LedgerExtraction`, `Decimals`, `Export`, `Formats`). SCALE integers and LayoutV1 trie nodes (section A.2.2 and the Merkle proof part
  of chapter 2 of the Polkadot Protocol Specification) are decoded with loops that are proved against encoders.
  A walk with an explicit stack gives out exactly the map that a root commits to, from the in-memory table and
  from the low-memory index alike. The balance maps in it are decoded, so that what is exported is the ledger that
  was committed. Balances print exactly and sum without rounding.
* **Storage** (`Overlay`, `NodeStore`). The write-back overlay refines a plain map, and the reference-counted
  node store keeps every historical root extractable.
* **Batch replay** (`Settlement`, `Accounting`, `TradeOutcome`, `BatchReplay`, `ReplayWorker`, `ReplayProperties`,
  `Acceptance`, `Inflow`, `PoolReplies`, `Checkpoint`, `Invocations`). Trades, ingress messages, withdrawals and engine
  replies as a state machine, with the exact conditions under which each is accepted and what it pays, conservation of every asset, what can raise a total and how that compares with custody, order of
  blocks within and across the worker's invocations, all-or-nothing persistence, and recovery from a checkpoint.
* **On-chain settlement** (`SnapshotQuorum`, `Custody`, `CustodyProperties`, `Payouts`, `Epochs`, `EpochMetrics`).
  Which snapshots are accepted, which withdrawals are paid, where every withdrawal and every unit of custody goes over any run of calls, and liquidity-mining
  epochs.
* **ERC20 migration** (`Erc20Migration`, `Erc20Properties`, `Erc20Balances`). Minting on the third approval, under a cap, with
  locks and reverts.
* **Migration sweep** (`Sweeping`, `SweepClient`). A client that sends calls in waves to a chain that may drop
  them, with its termination measures and what it has written when it ends or stops.

State that the source updates in place is a class; its methods are proved against functions on values, and the
run theorems are about those functions. What lies outside is a parameter or a free choice: digests, signature
verification and the rounding of percentages are function parameters, transfers either move the exact amount or
nothing by a verdict that each call brings along, a dispatch that fails changes nothing, and a node's answers to the
sweep are any functions of the query. Digests are assumed free of collisions only between the database rows
and the committed byte strings at hand.

Where the code does less than one would expect of it, the model follows the code, and a lemma gives the
input and the exact condition:

* `get` of a removed key still returns the committed value until the next commit (`Overlay.OffchainState.Get`,
  `Overlay.ReadAfterRemove`).
* Nothing checks that a trade joins a bid and an ask; above rounding size totals are kept exactly when it does
  (`Accounting.ConservesIffOpposite`, `Accounting.TwoAsksSettle`).
* A TradingFees reply is checked for allowlisted assets only (`ReplayProperties.UnlistedFeesUnchecked`): the fee it
  names is given up by balances exactly when the asset is allowlisted or the fee is not positive
  (`ReplayProperties.FeesBackedIff`).
* A worker that has imported no block takes any block, and importing block 0 leaves it that way, so block 0 can be
  imported twice (`ReplayProperties.BlockZeroTwice`). From a fresh start no block is imported twice exactly when
  block 0 comes at most once and the 32-bit counter is not exhausted (`ReplayProperties.SyncFromNothing`).
* Nothing compares the market of an engine's RemoveLiquidityResult with the one of the message: the amounts worked
  out for the one are taken from the other (`PoolReplies.ReplyMarketTaken`). No balance outside the message's market
  changes exactly when each asset of the reply's market belongs to it, or is left as it was because nothing is taken
  from it (`PoolReplies.RemovalStaysIff`).
* Liquidity given to a pool is deposited and then named once more, and both are credited
  (`Inflow.OnePoolDeposit`): what ingress credits is what custody was paid exactly when no liquidity is named
  (`Inflow.LiquidityCountsTwice`).
* A worker whose last snapshot id is 0 forgets its last block, so it can import the block once more
  (`Invocations.StartsOver`). Invocations that neither start over nor recover import each block once
  (`Invocations.InvocationsInOrder`); one that does goes on in order exactly when its first block is the next one
  (`Invocations.FollowsIff`).
* The sign of a requested amount is not checked (`ReplayProperties.NegativeRequestCredits`): a request raises no
  balance exactly when it is not negative, or so little that rounding swallows it (`ReplayProperties.RaisesNothingIff`).
* Accepted signer sets always overlap exactly when the required number is more than half of the set
  (`SnapshotQuorum.MeetIffMajority`).
* When governance reuses a snapshot id, new failures replace the withdrawals still pending under it
  (`CustodyProperties.ReusedIdForgets`); a call, and a run, keeps account of every withdrawal exactly when that
  branch is not taken (`CustodyProperties.KeepsIff`, `CustodyProperties.RunKeepsIff`).
* After as many entries as the limit of rewarded accounts, every further market still records one
  (`Epochs.LimitKeptIff`). At the end of the 16-bit epoch counter the last epoch can be finalised again
  (`Epochs.SaturatedPaysTwice`): no epoch is finalised twice exactly when at most one start that saturates the
  counter was followed by a score (`Epochs.FinalisedOnceIff`).
* The comment on the third approval says that the relayers agree on the burn transaction. They agree on its hash
  only: account and amount of every mint are those of the third call (`Erc20Properties.ThirdDecides`), and the first
  two may have named others (`Erc20Properties.OthersMayDiffer`). A mint smaller than the
  existential deposit to a new account uses up the cap without creating tokens (`Erc20Properties.MintCreatesIff`).

## Model

| member | source | states |
|---|---|---|
| `Scale.CompactRoundTrip` | tools/ocex-ledger/extract_ocex_trie.py:75-85 | a compact integer of any of the four modes, wherever it stands, reads back as itself, with the position after it |
| `Scale.RowRoundTrip` | tools/ocex-ledger/extract_ocex_trie.py:88-93 | a stored (value, signed 32-bit count) row reads back as written, whatever follows it |
| `Formats.CompactModes` | tools/ocex-ledger/extract_ocex_trie.py:75-85 | the four modes of a compact integer by its two lowest bits, without going through the encoder |
| `Formats.RowIs` | tools/ocex-ledger/extract_ocex_trie.py:88-93 | a row is a length, that many bytes and a count as a signed little-endian word |
| `ByteStrings.LeRoundTrip` | tools/ocex-ledger/extract_ocex_trie.py:88-93 | little-endian words of any width read back as the number written |
| `ByteStrings.ExpandPack` | tools/ocex-ledger/extract_ocex_trie.py:182-193 | packing nibbles into bytes loses none of them |
| `ByteStrings.PackExpand` | tools/ocex-ledger/extract_ocex_trie.py:276-316 | a key given out as bytes is the nibble key it was packed from |
| `NodeCodec.DecodeHeader` | tools/ocex-ledger/extract_ocex_trie.py:151-179 | the header loop computes the kind and the full nibble count, or fails as the reader does |
| `NodeCodec.HeaderRoundTrip` | tools/ocex-ledger/extract_ocex_trie.py:151-179 | every non-empty header kind with every partial-key length, including runs of 255 continuation bytes, reads back |
| `NodeCodec.DecodePartial` | tools/ocex-ledger/extract_ocex_trie.py:182-193 | the partial-key loop computes the nibbles of the bytes read, dropping the padding of an odd count |
| `NodeCodec.PartialRoundTrip` | tools/ocex-ledger/extract_ocex_trie.py:182-193 | partial keys of odd and even nibble counts read back |
| `NodeCodec.DecodeChildren` | tools/ocex-ledger/extract_ocex_trie.py:196-226 | the loop over sixteen slots reads a reference exactly where the bitmap has a bit |
| `NodeCodec.ChildrenRoundTrip` | tools/ocex-ledger/extract_ocex_trie.py:196-226 | any children, digests and inline nodes shorter than 32 bytes, read back in their slots |
| `NodeCodec.BitmapRoundTrip` | tools/ocex-ledger/extract_ocex_trie.py:196-226 | any child bitmap reads back from its two bytes |
| `NodeCodec.DecodeNode` | tools/ocex-ledger/extract_ocex_trie.py:196-226 | the imperative node decoder computes the node that the bytes denote, or fails as the reader does |
| `NodeCodec.NodeRoundTrip` | tools/ocex-ledger/extract_ocex_trie.py:148-226 | decoding inverts LayoutV1 encoding for every node of all six kinds, whatever bytes follow |
| `Formats.HeaderKinds` | tools/ocex-ledger/extract_ocex_trie.py:151-179 | the kind and the number of nibbles that every first byte stands for |
| `Formats.LeafExample` | tools/ocex-ledger/extract_ocex_trie.py:196-226 | the bytes of one leaf read as that leaf |
| `Formats.HashedLeafExample` | tools/ocex-ledger/extract_ocex_trie.py:196-226 | the bytes of a leaf with its value behind a digest |
| `Formats.BranchExample` | tools/ocex-ledger/extract_ocex_trie.py:196-226 | the bytes of a branch with one child behind a digest |
| `Tries.EntriesAreLookup` | tools/ocex-ledger/extract_ocex_trie.py:276-316 | the entry list of a committed trie and lookup in it are the same finite map |
| `Tries.EntriesAscend` | tools/ocex-ledger/extract_ocex_trie.py:276-316 | depth-first order with a node's value before its children is strictly increasing lexicographic order |
| `Tries.TrieBytesDecode` | tools/ocex-ledger/extract_ocex_trie.py:196-226 | the bytes that a digest commits to decode to the top node of the trie |
| `TrieWalk.Walk` | tools/ocex-ledger/extract_ocex_trie.py:276-316 | terminates, and from a root gives out exactly the committed map in strictly increasing key order; it stops early exactly when committed bytes are missing from the table or a key is not whole bytes, and then has given out a prefix |
| `TrieWalk.GivenInOrder` | tools/ocex-ledger/extract_ocex_trie.py:278-316 | keys come out strictly increasing, so none comes out twice and no account is overwritten |
| `TrieWalk.GivenIsLookup` | tools/ocex-ledger/extract_ocex_trie.py:276-316 | after a finished walk a pair was given out if and only if the trie stores it |
| `TrieWalk.FetchedIff` | tools/ocex-ledger/extract_ocex_trie.py:284-291 | a node is given out if it is in the table and, when hashes are verified, has the digest asked for |
| `LedgerRows.LoadKeys` | tools/ocex-ledger/extract_ocex_trie.py:242-272 | the loaded table holds, for exactly the digests of the scanned node rows, a row with that digest and the highest count, and each name its last value |
| `LedgerRows.TableFromRows` | tools/ocex-ledger/extract_ocex_trie.py:242-272 | every loaded entry comes from a scanned row with that digest, and every row's digest has an entry |
| `LedgerRows.ScannedIs` | tools/ocex-ledger/extract_ocex_trie.py:242-272 | the rows up to the first key without the prefix are scanned, and no others |
| `LedgerRows.HighestCount` | tools/ocex-ledger/extract_ocex_trie.py:242-272 | of the rows of one digest the table has one with the highest count, a row that cannot be read counting zero |
| `LedgerRows.NamesAreLast` | tools/ocex-ledger/extract_ocex_trie.py:242-272 | a name has the value of its last row |
| `LedgerRows.BuildIndex` | tools/ocex-ledger/extract_lowmem.py:45-92 | the index points every scanned digest to a row that has it, and collects the same named keys |
| `LedgerRows.LazyGetFinds` | tools/ocex-ledger/extract_lowmem.py:12-30 | a lookup through the index finds a scanned row with the digest asked for |
| `LedgerRows.LazyFromRows` | tools/ocex-ledger/extract_lowmem.py:12-30 | the lazy table, like the loaded one, consists of scanned rows and covers their digests |
| `LedgerExtraction.ExtractBothWays` | tools/ocex-ledger/extract_lowmem.py:12-30 | over one database the two drivers give the same pairs in the same order whenever both finish, and each gives the committed map |
| `LedgerExtraction.InsertedIsHeld` | tools/ocex-ledger/extract_ocex_trie.py:242-272 | every byte string ever inserted in the store is in the table that is loaded from it |
| `LedgerExtraction.HistoricalRoot` | pallets/ocex/src/storage.rs:160-245 | every root whose nodes were inserted at some time can still be extracted after any later inserts and removes, with that version's entries |
| `NodeStore.PrefixedKey` | pallets/ocex/src/storage.rs:237-245 | the row is the path, the padding if there is one, and the digest |
| `NodeStore.State.Get` | pallets/ocex/src/storage.rs:161-172 | reads the null node, or a row whose count is positive |
| `NodeStore.State.Contains` | pallets/ocex/src/storage.rs:174-182 | answers exactly whether a read would succeed |
| `NodeStore.State.InsertValue` | pallets/ocex/src/storage.rs:184-192 | returns the digest and emplaces under it; nothing for the null node |
| `NodeStore.State.EmplaceValue` | pallets/ocex/src/storage.rs:194-213 | raises the count, and takes the new bytes only where the count was not positive |
| `NodeStore.State.RemoveValue` | pallets/ocex/src/storage.rs:215-234 | lowers the count, leaving a negative one behind for a row never inserted |
| `NodeStore.RowHistory` | pallets/ocex/src/storage.rs:160-245 | over every run a row's count is inserts minus removes, and once inserted it holds bytes with the digest of its key for good |
| `NodeStore.ReadableHistory` | pallets/ocex/src/storage.rs:160-245 | a node is readable exactly while inserts exceed removes, and then gives bytes with the digest asked for |
| `NodeStore.RowsHoldTheirDigest` | pallets/ocex/src/storage.rs:194-234 | a row's bytes have its digest exactly when it was ever inserted, or its digest is that of nothing |
| `NodeStore.CountsFit` | pallets/ocex/src/storage.rs:125-140 | with fewer than 2^31 operations no count leaves the signed 32-bit range |
| `Decimals.DecodeDecimal` | tools/ocex-ledger/extract_ocex_trie.py:99-109 | what is accepted has a 96-bit mantissa, a scale of at most 28 and no negative zero |
| `Decimals.DecimalRoundTrip` | tools/ocex-ledger/extract_ocex_trie.py:99-109 | a stored balance reads back as itself, a negative zero as zero |
| `Formats.DecimalIs` | tools/ocex-ledger/extract_ocex_trie.py:99-109 | a decimal is flags with scale and sign, then the high, low and middle word of the mantissa; a scale above 28 is refused |
| `Decimals.FormatIsTrimmed` | tools/ocex-ledger/extract_ocex_trie.py:112-118 | the printed form is the sign and the number in lowest terms |
| `Decimals.FormatExact` | tools/ocex-ledger/extract_ocex_trie.py:112-118 | the printed text reads back as the same value |
| `Decimals.FormatCanonical` | tools/ocex-ledger/extract_ocex_trie.py:112-118 | two balances print the same if and only if they are the same number |
| `Formats.FormatExamples` | tools/ocex-ledger/extract_ocex_trie.py:112-118 | three balances and their printed forms |
| `Decimals.AddExactly` | tools/ocex-ledger/extract_ocex_trie.py:394-411 | within 100 digits, adding a balance to a total of up to 10^42 balances does not round |
| `Decimals.SumBalances` | tools/ocex-ledger/extract_ocex_trie.py:394-411 | each total is the exact sum of its asset's balances and each holder count the number of balances that are not zero |
| `Export.AssetIdRoundTrip` | tools/ocex-ledger/extract_ocex_trie.py:121-127 | a stored asset id reads back as itself |
| `Formats.AssetIdIs` | tools/ocex-ledger/extract_ocex_trie.py:121-127 | tag 0 and sixteen bytes are an asset, tag 1 is the native one, any other tag is refused |
| `Formats.StateInfoIs` | tools/ocex-ledger/extract_ocex_trie.py:142-144 | the state info is a word of four bytes and three of eight |
| `Export.DecodeBalances` | tools/ocex-ledger/extract_ocex_trie.py:130-139 | reads a count and that many holdings into a map, and refuses a holding that cannot be read and bytes left over |
| `Export.BalancesRoundTrip` | tools/ocex-ledger/extract_ocex_trie.py:130-139 | a stored balance map of any size reads back as itself, but for the sign of a zero |
| `Export.MapHolds` | tools/ocex-ledger/extract_ocex_trie.py:130-139 | with every asset named once the map read holds exactly the holdings |
| `Export.Collect` | tools/ocex-ledger/extract_ocex_trie.py:369-380 | sorts every walked pair into decoded accounts, accounts that cannot be decoded and the state info; only a state info that is too short ends it |
| `Export.ExportAccounts` | tools/ocex-ledger/extract_ocex_trie.py:369-392 | gives the trie's accounts with exactly the balances stored for them, or nothing; nothing exactly when the trie is empty, cannot be walked or holds a value that cannot be read |
| `Export.LedgerExported` | tools/ocex-ledger/extract_ocex_trie.py:369-392 | what is exported from a trie that commits a ledger is that ledger |
| `Overlay.OffchainState.Load` | pallets/ocex/src/storage.rs:41-44 | a loaded overlay stands for the committed contents |
| `Overlay.OffchainState.Get` | pallets/ocex/src/storage.rs:50-67 | changes nothing but the read cache; gives what the cache, or else the trie in memory, holds; until a commit fails that is the plain map's value exactly when the key is not waiting to be removed or was not committed |
| `Overlay.ReadAfterRemove` | pallets/ocex/src/storage.rs:50-77 | a key that is loaded, removed and read still reads as it was loaded |
| `Overlay.OffchainState.Insert` | pallets/ocex/src/storage.rs:69-72 | the plain map with the key set, also for a key waiting to be removed |
| `Overlay.OffchainState.Remove` | pallets/ocex/src/storage.rs:74-77 | the plain map without the key |
| `Overlay.OffchainState.Commit` | pallets/ocex/src/storage.rs:79-91 | commits the plain map, or fails exactly when a touched key is unreachable and then leaves plain map and last commit as they were |
| `Overlay.Replay` | pallets/ocex/src/storage.rs:40-92 | for every interleaving of operations the overlay's view and its committed contents are those of a plain map |
| `Overlay.LastWriteWins` | pallets/ocex/src/storage.rs:40-92 | after any run a key has the value of the last operation that wrote it, or its first value |
| `Overlay.StoredAtLastCommit` | pallets/ocex/src/storage.rs:79-91 | what is committed is the plain map as of the last commit that went through |
| `Settlement.LedgerState.GetBalance` | pallets/ocex/src/settlement.rs:42-65 | the balance, zero for an unknown account or asset |
| `Settlement.LedgerState.AddBalance` | pallets/ocex/src/settlement.rs:68-98 | stores a first credit as it is, and cuts the sum to nine decimals after that |
| `Settlement.LedgerState.SubBalance` | pallets/ocex/src/settlement.rs:101-133 | debits and cuts to nine decimals; refuses more than there is, or takes all there is for a withdrawal; fails for an unknown account or asset |
| `Settlement.LedgerState.ProcessTrade` | pallets/ocex/src/settlement.rs:148-193 | both sides settled with their fees, or the error of the first step that fails |
| `TradeOutcome.SettlesIff` | primitives/orderbook/src/types.rs:108-174 | a trade settles if and only if both orders are signed, they are about one pair, the asker holds the amount and the bidder its price; for a taker who is neither the maker nor the pot |
| `TradeOutcome.TradeExchanges` | primitives/orderbook/src/types.rs:108-146 | whoever the accounts are, balances and totals follow the exchange: the asker gives the amount for its price less a fee, the bidder gives the price for the amount less a fee, the pot gets both fees |
| `TradeOutcome.TradePays` | pallets/ocex/src/settlement.rs:148-193 | for three different accounts, what each of them has of both assets afterwards, to one rounding |
| `Settlement.TotalUpdate` | pallets/ocex/src/settlement.rs:68-133 | writing back one account's map moves the total of an asset by that account's change |
| `Accounting.CreditFollows` | pallets/ocex/src/settlement.rs:68-98 | a credit changes the one balance it names by its amount within rounding and makes none negative |
| `Accounting.DebitFollows` | pallets/ocex/src/settlement.rs:101-133 | a debit takes the amount, less only for a withdrawal, and never makes a balance negative |
| `Accounting.TradeFollows` | pallets/ocex/src/settlement.rs:148-193 | every balance and every total follows the trade's posts within rounding |
| `Accounting.TradeConserves` | pallets/ocex/src/settlement.rs:148-193 | no total grows, and each traded asset loses less than three rounding units (six if base and quote are one), also when maker, taker and pot coincide |
| `Accounting.TradeLocal` | pallets/ocex/src/settlement.rs:148-193 | uninvolved accounts, and everyone in every other asset, keep their balances |
| `Accounting.ConservesIffOpposite` | primitives/orderbook/src/types.rs:108-174 | above rounding size no total grows if and only if one order is a bid and the other an ask |
| `Accounting.TwoAsksSettle` | primitives/orderbook/src/types.rs:108-174 | two asks settle and leave some of the quote asset where there was none |
| `ReplayWorker.Worker.AddLiquidity` | pallets/ocex/src/validator.rs:386-480 | credits the pool only against a matching engine reply with the right shares and inventory |
| `Acceptance.LiquidityAddedIff` | pallets/ocex/src/validator.rs:386-480 | accepted if and only if the reply names pool, provider, the pool's new worth and the provider's part of the shares; then the pool has the amounts, and only it |
| `ReplayWorker.Worker.RemoveLiquidity` | pallets/ocex/src/validator.rs:481-609 | works out the burnt fraction for the message's market and takes it from the market the success reply names, after comparing pool, provider and amounts; accepts a failure reply only if both amounts it asks for exceed the free ones it states |
| `Acceptance.LiquidityRemovedIff` | pallets/ocex/src/validator.rs:481-609 | the exact replies that are accepted, of success and of failure |
| `ReplayWorker.Worker.ForceClosePool` | pallets/ocex/src/validator.rs:610-651 | empties the pool's two balances into the reply |
| `Acceptance.PoolClosedIff` | pallets/ocex/src/validator.rs:610-651 | goes through if and only if the pool has both assets; it is left with neither, and the reply names what it had |
| `ReplayWorker.Worker.WithdrawFees` | pallets/ocex/src/validator.rs:652-698 | empties the pot of each allowlisted asset that the reply names, if the reply names exactly the pot's rounded balance |
| `Acceptance.FeesWithdrawnIff` | pallets/ocex/src/validator.rs:652-698 | goes through if and only if every listed asset that the reply names comes with what the pot has of it, not zero; then the pot has none of these and nothing else has changed |
| `ReplayWorker.Worker.ImportMessage` | pallets/ocex/src/validator.rs:381-705 | each ingress message has the effect defined for it, or the error |
| `ReplayWorker.Worker.ImportBlk` | pallets/ocex/src/validator.rs:362-706 | imports the next block's messages in order and advances the block, or fails leaving the block number |
| `Acceptance.BlockAcceptedIff` | pallets/ocex/src/validator.rs:362-385 | a block whose messages need no reply is imported if and only if it is the next one or none was imported before |
| `Acceptance.QuietCredits` | pallets/ocex/src/validator.rs:381-385 | importing such messages credits every deposit to its account, to a rounding each |
| `Acceptance.ImportsIff` | pallets/ocex/src/validator.rs:791-836 | a batch of such blocks goes through if and only if they come in order |
| `Acceptance.BatchesStoredIff` | pallets/ocex/src/validator.rs:226-258 | signed batches of such blocks are all stored if and only if their ids increase and their blocks come in order |
| `Acceptance.NextBlocksStored` | pallets/ocex/src/validator.rs:226-258 | signed batches with increasing ids that import exactly the next blocks are stored, the last block advances by their number and every deposit in them is credited |
| `Acceptance.BatchStoredIs` | pallets/ocex/src/validator.rs:226-258 | a batch is stored if and only if it is signed, its id is greater and its actions go through; what is stored has its ids |
| `ReplayWorker.Worker.SettleTrades` | pallets/ocex/src/validator.rs:723-736 | settles trades in order up to the first that fails |
| `Acceptance.NextTradeIff` | pallets/ocex/src/validator.rs:723-736 | after any trades one more is accepted if and only if its pair is traded and it settles as above |
| `ReplayWorker.Worker.Withdraw` | pallets/ocex/src/validator.rs:739-773 | debits a signed request and returns the withdrawal for what was taken |
| `Acceptance.RequestPaidIff` | pallets/ocex/src/validator.rs:739-773 | a request is paid if and only if its amount can be read, it is signed and the account has the asset; it pays the lesser of what is asked and what there is, and only that balance falls |
| `Acceptance.WithdrawIff` | pallets/ocex/src/validator.rs:800-830 | the same as an action of a batch, in both versions |
| `ReplayWorker.Worker.ProcessBatch` | pallets/ocex/src/validator.rs:791-836 | refuses a batch id that is not greater, else does its actions in order |
| `ReplayWorker.Worker.Sync` | pallets/ocex/src/validator.rs:226-258 | persists after each batch; the first failure leaves persisted what the batches before it left |
| `ReplayProperties.MessageFollows` | pallets/ocex/src/validator.rs:381-705 | each imported message moves balances and totals by what it names and what its verified replies release |
| `ReplayProperties.ActionsFollow` | pallets/ocex/src/validator.rs:791-836 | over a batch every balance and total follows the posts of messages, trades, withdrawals and replies; none goes negative |
| `ReplayProperties.BatchConserves` | pallets/ocex/src/validator.rs:362-836 | the total of an asset after a batch is at most the old total plus credits of ingress, minus withdrawals and verified releases, and is less only by roundings |
| `ReplayProperties.UnlistedFeesUnchecked` | pallets/ocex/src/validator.rs:660-694 | a fee reply for an asset off the allowlist passes, and no balance gives it up |
| `ReplayProperties.FeesBackedIff` | pallets/ocex/src/validator.rs:652-698 | an accepted fee reply lowers the total of an asset by the fee it names if and only if the asset is allowlisted or the fee is not positive |
| `ReplayProperties.RaisesNothingIff` | pallets/ocex/src/validator.rs:739-773 | an accepted request raises no balance if and only if its amount is not negative, or rounding swallows it |
| `ReplayProperties.NegativeRequestCredits` | pallets/ocex/src/validator.rs:739-773 | a verified request for a negative amount credits the account |
| `ReplayProperties.PaymentsNotNegative` | pallets/ocex/src/validator.rs:739-773 | without negative requests no payment of a batch is negative |
| `Inflow.MessageReleases` | pallets/ocex/src/validator.rs:481-698 | if the burnt fraction is not negative, neither is what a message's verified reply releases |
| `Inflow.ReleasesNotNegative` | pallets/ocex/src/validator.rs:362-836 | the same over a batch |
| `Inflow.OnlyIngressRaises` | pallets/ocex/src/validator.rs:362-836 | with no negative request or fraction, a batch raises the total of an asset by no more than ingress brings in |
| `Inflow.SyncOnlyIngressRaises` | pallets/ocex/src/validator.rs:226-258 | the same over any run of batches |
| `Inflow.QueuedCredits` | pallets/ocex/src/lmp.rs:504-546 | the messages that one call queues credit what it pays to custody and the liquidity it names |
| `Inflow.LiquidityCountsTwice` | pallets/ocex/src/lmp.rs:504-546 | over any calls ingress credits what custody was paid and the liquidity named; no more than custody was paid if and only if no liquidity is named |
| `Inflow.OnePoolDeposit` | pallets/ocex/src/lmp.rs:504-546 | one unit given to a pool pays custody one and credits two |
| `Inflow.CustodyCovers` | pallets/ocex/src/lib.rs:1813-1860 | over any run the total of an asset is at most the first one plus what custody was paid, less what was paid out and released, but for the liquidity named |
| `PoolReplies.RemovalStaysIff` | pallets/ocex/src/validator.rs:481-553 | an accepted removal changes no balance outside the message's market if and only if each asset of the reply's market belongs to it, or nothing is taken from a balance of nine decimals |
| `PoolReplies.RemovalAsAsked` | pallets/ocex/src/validator.rs:481-553 | a reply for the message's market takes the fraction from each of its two assets and touches nothing else |
| `PoolReplies.ReplyMarketTaken` | pallets/ocex/src/validator.rs:511-553 | a reply for another market passes, and that market pays |
| `PoolReplies.NegativeFractionCredits` | pallets/ocex/src/validator.rs:481-553 | a negative fraction, if there were one, would credit the pool |
| `ReplayProperties.ActionsImport` | pallets/ocex/src/validator.rs:369-385 | a batch imports its blocks one by one, each as the last one allows |
| `ReplayProperties.InOrderIff` | pallets/ocex/src/validator.rs:369-385 | after a block other than 0 a sequence of blocks is accepted if and only if it is exactly the following ones |
| `ReplayProperties.FreeIff` | pallets/ocex/src/validator.rs:369-385 | before any block other than 0 a sequence is accepted if and only if it is any number of blocks 0, then one free block, then the ones after it |
| `ReplayProperties.BlockZeroTwice` | pallets/ocex/src/validator.rs:703-703 | blocks 0, 0, 77 are imported and the deposit in block 0 is credited twice |
| `ReplayProperties.EachBlockOnce` | pallets/ocex/src/validator.rs:369-385 | blocks accepted from a fresh start are pairwise different if and only if block 0 comes at most once and the 32-bit counter is not exhausted |
| `ReplayProperties.SyncIncreasing` | pallets/ocex/src/validator.rs:796-798 | accepted batch ids strictly increase over any run |
| `ReplayProperties.SyncInOrder` | pallets/ocex/src/validator.rs:226-258 | over any run from a block other than 0 exactly the blocks after it are imported, in order |
| `ReplayProperties.SyncFromNothing` | pallets/ocex/src/validator.rs:226-258 | over any run from a fresh start blocks come in the shape and under the condition above |
| `ReplayProperties.SyncAtomic` | pallets/ocex/src/validator.rs:226-258 | a failing batch leaves the persisted state as after the batches before it |
| `ReplayProperties.SyncFollows` | pallets/ocex/src/validator.rs:226-258 | over any run every balance and total follows the posts of the accepted batches within roundings, and none goes negative |
| `ReplayProperties.SyncConserves` | pallets/ocex/src/validator.rs:226-258 | over any run the total of an asset is at most the first one plus what ingress brings in by the imported blocks, less all withdrawals and releases, and less only by roundings; from a block other than 0 each following block, and so each deposit, counts once |
| `Checkpoint.FetchCheckpoint` | pallets/ocex/src/lib.rs:2048-2082 | collects one entry per held balance of the registered accounts and the pot, with the state ids |
| `Checkpoint.ProcessCheckpoint` | pallets/ocex/src/validator.rs:948-965 | writes every entry into its account and changes no other |
| `Checkpoint.Recover` | pallets/ocex/src/validator.rs:948-973 | an empty state gets the checkpoint's balances and ids |
| `Checkpoint.CheckpointRoundTrip` | pallets/ocex/src/lib.rs:2048-2082 | rebuilding a flattened ledger gives it back if and only if every account was collected and none is stored empty |
| `Checkpoint.HandOver` | pallets/ocex/src/lib.rs:2048-2082 | another worker recovers the same stored state under exactly that condition |
| `Checkpoint.SyncOccupied` | pallets/ocex/src/settlement.rs:68-133 | no run of batches ever stores an empty account, which is one half of the condition |
| `Checkpoint.SideKeys` | pallets/ocex/src/settlement.rs:148-193 | a side of a trade in two different assets brings in no account but the pot |
| `Checkpoint.SyncRegistered` | pallets/ocex/src/lib.rs:1833-1836 | the other half: if messages credit registered accounts only and pairs have two assets, no run stores an account that is neither registered nor the pot |
| `Checkpoint.SyncContinues` | pallets/ocex/src/validator.rs:226-258 | a run stopped after any accepted batch and gone on with is the same run |
| `Checkpoint.RecoverAndSync` | pallets/ocex/src/validator.rs:182-258 | a worker that recovers from another's checkpoint after a run has its state, and after more batches stores what the other would have stored |
| `Invocations.Validate` | pallets/ocex/src/validator.rs:106-301 | an invocation ends as defined: it starts over, resubmits, recovers, waits for a batch, stops or finishes, and persists accordingly |
| `Invocations.GoesOn` | pallets/ocex/src/validator.rs:112-258 | a worker on record and fewer than 1260 snapshots behind goes on with the batch after its snapshot |
| `Invocations.Recovers` | pallets/ocex/src/validator.rs:182-214 | one further behind goes on from a checkpoint whose root is on record, or stops and keeps its state |
| `Invocations.StartsFromNothing` | pallets/ocex/src/validator.rs:117-135 | one whose root is not the one on record drops what is persisted; it needs the checkpoint, or before snapshot 1260 replays from the first batch on |
| `Invocations.StaysAsItIs` | pallets/ocex/src/validator.rs:137-180 | one that has processed the next snapshot submits it again, and one whose snapshot is unknown stops |
| `Invocations.ReplayedIsRun` | pallets/ocex/src/validator.rs:219-301 | its replay is a run over the batches found up to the first missing one |
| `Invocations.SteadyInOrder` | pallets/ocex/src/validator.rs:106-301 | an invocation that neither starts over nor recovers imports exactly the blocks after the persisted one and persists the last |
| `Invocations.InvocationsInOrder` | pallets/ocex/src/validator.rs:106-301 | over any number of those the blocks come one after the other, and are pairwise different if and only if the 32-bit counter is not exhausted |
| `Invocations.FollowsIff` | pallets/ocex/src/validator.rs:112-214 | any invocation goes on after the persisted block if and only if it imports nothing or the next block first |
| `Invocations.StartsOver` | pallets/ocex/src/validator.rs:150-155 | with snapshot id 0 block 77 is imported once more after block 77 |
| `SnapshotQuorum.ValidateSnapshot` | pallets/ocex/src/lib.rs:2322-2402 | the verdict, with the code of the first check that fails |
| `SnapshotQuorum.AcceptedIff` | pallets/ocex/src/lib.rs:2322-2402 | accepted if and only if next in sequence, within the limit, for the active non-empty set, and signed by enough different members of it |
| `SnapshotQuorum.FaultCodes` | pallets/ocex/src/lib.rs:2322-2402 | the code of every refusal, in order, down to the first signature that is wrong |
| `SnapshotQuorum.QuorumsMeet` | pallets/ocex/src/lib.rs:2366-2377 | signer sets of more than half each have a member in common |
| `SnapshotQuorum.AcceptedShareSigner` | pallets/ocex/src/lib.rs:2322-2402 | with a hundred or more authorities any two snapshots accepted in one set share a signer, whichever way percentages round |
| `SnapshotQuorum.MeetIffMajority` | pallets/ocex/src/lib.rs:2366-2377 | quorums always overlap if and only if the required number is more than half |
| `Custody.DoWithdraw` | pallets/ocex/src/lib.rs:1409-1433 | pops from the back; what is paid, what fails and what custody is left with |
| `Payouts.OnePaidIff` | pallets/ocex/src/lib.rs:1409-1433 | one withdrawal is paid if and only if it has units, custody holds them and the transfer goes through |
| `Payouts.CoveredIsPaid` | pallets/ocex/src/lib.rs:1409-1433 | withdrawals that custody covers and no transfer refuses are all paid, and custody falls by just that |
| `Payouts.UnpayableFails` | pallets/ocex/src/lib.rs:1409-1433 | one without units, above custody or always refused fails wherever it stands, and is not paid |
| `Custody.CreateWithdrawalTree` | pallets/ocex/src/lib.rs:1921-1935 | groups withdrawals by account in one pass |
| `CustodyProperties.TreeGroups` | pallets/ocex/src/lib.rs:1921-1935 | each account's list is exactly its own withdrawals in order, and no account has an empty one |
| `Custody.Pallet.ProcessEgress` | pallets/ocex/src/lib.rs:1594-1615 | releases are paid in order, or the first that cannot be paid fails them all |
| `Custody.Pallet.SettleFees` | pallets/ocex/src/lib.rs:1483-1508 | every fee leaves native custody, or the first that cannot fails them all |
| `Custody.Pallet.PayEveryone` | pallets/ocex/src/lib.rs:946-961 | accounts are paid one after the other and only non-empty failures are kept |
| `Custody.Pallet.SubmitSnapshot` | pallets/ocex/src/lib.rs:929-999 | validation, releases, payments, failures, fees, nonce and summary as one step, or nothing at all |
| `Payouts.EveryoneIsPaid` | pallets/ocex/src/lib.rs:946-961 | in whatever order the accounts come, what custody covers leaves no failure |
| `Payouts.SnapshotPaysAll` | pallets/ocex/src/lib.rs:929-999 | a snapshot that passes its checks and asks for no more than custody holds pays every withdrawal once, leaves nothing pending, and lowers custody by releases, withdrawals and fees |
| `Payouts.SnapshotRefused` | pallets/ocex/src/lib.rs:929-999 | a snapshot with a fault or a release that cannot be made does nothing |
| `Payouts.DepositAdds` | pallets/ocex/src/lib.rs:1813-1860 | a deposit raises custody by its units |
| `Payouts.GovernanceSets` | pallets/ocex/src/lib.rs:810-816 | what setting the snapshot id, filing a summary and a new session change |
| `Custody.Pallet.ClaimWithdraw` | pallets/ocex/src/lib.rs:848-897 | fails exactly when nothing is pending for the account; else pays, keeps the failures and forgets what is empty |
| `Payouts.ClaimPaysAll` | pallets/ocex/src/lib.rs:848-897 | a claim of what custody covers pays each withdrawal once and leaves nothing pending for the account |
| `CustodyProperties.PaidOrFailed` | pallets/ocex/src/lib.rs:1409-1433 | each withdrawal of a list is paid or failed, once |
| `CustodyProperties.PaidOutBalanced` | pallets/ocex/src/lib.rs:1409-1433 | custody of every asset falls by exactly what was paid of it |
| `CustodyProperties.EveryoneBalanced` | pallets/ocex/src/lib.rs:946-961 | in whatever order accounts are walked, each withdrawal is paid or failed once |
| `CustodyProperties.CustodyConserved` | pallets/ocex/src/lib.rs:848-999 | over every run custody of each asset is the first amount plus deposits, less payments, fees and releases |
| `CustodyProperties.AlwaysTidy` | pallets/ocex/src/lib.rs:848-897 | no run ever stores an empty pending list or map |
| `CustodyProperties.WithdrawalsAccounted` | pallets/ocex/src/lib.rs:848-999 | over every run, governance included, the withdrawals included under an id are each paid once, pending, or overwritten |
| `CustodyProperties.KeepsIff` | pallets/ocex/src/lib.rs:929-963 | what is included or pending is paid or pending after a call, for every id, if and only if it is not a valid submission under an id with withdrawals pending of which one cannot be paid in its turn while releases and fees go through |
| `CustodyProperties.RunKeepsIff` | pallets/ocex/src/lib.rs:848-999 | the same over any run, if and only if no call of it is such a submission |
| `CustodyProperties.ClaimClearsIff` | pallets/ocex/src/lib.rs:848-897 | a claim leaves the account nothing pending if and only if each of its withdrawals can be paid in its turn, whatever failed before |
| `CustodyProperties.FreshIdsLoseNothing` | pallets/ocex/src/lib.rs:929-999 | while no id is accepted twice nothing is dropped |
| `CustodyProperties.ReusedIdForgets` | pallets/ocex/src/lib.rs:812-816 | a run that sets the nonce back loses a pending withdrawal |
| `CustodyProperties.SnapshotsInSequence` | pallets/ocex/src/lib.rs:965-969 | without governance, before the counter saturates, exactly the ids after the nonce are accepted, in order, each once, and stored |
| `CustodyProperties.NewUntilSaturated` | pallets/ocex/src/lib.rs:2328-2331 | an accepted snapshot is a new one if and only if the 64-bit nonce can still rise |
| `CustodyProperties.NoWithdrawalForgotten` | pallets/ocex/src/lib.rs:848-999 | from a fresh start without governance, included equals paid plus pending for every id |
| `CustodyProperties.AlwaysAuthorised` | pallets/ocex/src/lib.rs:2500-2514 | in every run each accepted snapshot was signed by a quorum of the set it names, and that set stays on record unchanged |
| `CustodyProperties.RunSharesSigner` | pallets/ocex/src/lib.rs:2322-2402 | in every run any two snapshots accepted under one set of a hundred or more share a signer |
| `Epochs.Storage.StartNewEpoch` | pallets/ocex/src/session.rs:36-68 | advances the saturating counter, files the configuration, and queues the old epoch if none is queued |
| `EpochMetrics.StartedIs` | pallets/ocex/src/session.rs:36-68 | a started epoch gets the expected configuration, epoch 0 too when it is the first, and no other configuration changes |
| `Epochs.Storage.RecordMarket` | pallets/ocex/src/lib.rs:1553-1563 | records entries until the counter is used up, at least one |
| `Epochs.Storage.UpdateScores` | pallets/ocex/src/lib.rs:1545-1584 | finalises the queued epoch, opens its claims after the safety period and queues the next, or fails for a missing configuration |
| `EpochMetrics.RecordedIs` | pallets/ocex/src/lib.rs:1553-1563 | the metric of an epoch, market and trader is that of the trader's last recorded entry, score as score and fees as fees |
| `EpochMetrics.ScoredIff` | pallets/ocex/src/lib.rs:1545-1584 | the queued epoch is finalised if and only if it has its configuration; its safety period counts, and the next epoch is queued if it has started |
| `EpochMetrics.MetricsAreEarned` | pallets/ocex/src/lib.rs:1545-1584 | after every run a trader's score and fees are those last recorded, or zero |
| `Epochs.Storage.ClaimRewards` | pallets/ocex/src/lib.rs:1435-1478 | pays exactly when the epoch is open, configured and not yet claimed, and marks it |
| `EpochMetrics.ClaimIff` | pallets/ocex/src/lib.rs:1435-1478 | after any run that finalises no epoch twice a reward is paid if and only if the transfer goes through, claims are open by the log and it was not paid before |
| `Epochs.LimitKeptIff` | pallets/ocex/src/lib.rs:1553-1563 | the number recorded is within the limit if and only if before every market with entries fewer entries than the limit were reported, and then it is the smaller of the two |
| `Epochs.LimitExceeded` | pallets/ocex/src/lib.rs:1553-1563 | two markets of one trader each exceed a limit of one |
| `Epochs.RecordedLocal` | pallets/ocex/src/lib.rs:1553-1563 | recording changes no metric of another epoch |
| `Epochs.EpochsSound` | pallets/ocex/src/session.rs:36-68 | over every run from a fresh start epochs are finalised in order, none lacks its configuration, claims are open for finalised epochs only, and a metric is marked claimed only if its reward was paid |
| `Epochs.TimesFinalisedIs` | pallets/ocex/src/lib.rs:1545-1584 | every epoch but the last is finalised at most once, and the last as often as a score followed a saturating start |
| `Epochs.FinalisedOnceIff` | pallets/ocex/src/session.rs:43-48 | no epoch is finalised twice if and only if at most one saturating start was followed by a score |
| `Epochs.PaidAtMostFinalised` | pallets/ocex/src/lib.rs:1435-1478 | over every run a reward is paid at most as often as its epoch was finalised |
| `Epochs.FewEpochs` | pallets/ocex/src/session.rs:43-48 | a run that starts at most 65536 epochs finalises none twice and pays no reward twice |
| `Epochs.NoRewardTwice` | pallets/ocex/src/lib.rs:1435-1478 | no reward of an epoch before the last is paid twice in any run, and none of the last under that condition |
| `Epochs.SaturatedPaysTwice` | pallets/ocex/src/session.rs:43-48 | from a fresh start, after 65535 rounds two more pay a reward of the last epoch twice |
| `Epochs.RewardsWait` | pallets/ocex/src/lib.rs:1435-1446 | in every run no reward is paid before the safety period after its epoch was last finalised |
| `Erc20Migration.PreviousLockedBalance` | pallets/pdex-migration/src/lib.rs:395-406 | the loop that keeps the last match gives the one migration lock |
| `Erc20Migration.AmountToBurn` | pallets/pdex-migration/src/lib.rs:281-290 | the loop that breaks at the first match gives the same |
| `Erc20Migration.Storage.MintTokens` | pallets/pdex-migration/src/lib.rs:227-367 | approves, and on the third approval mints and locks; every error in its order, changing nothing |
| `Erc20Balances.MintPays` | pallets/pdex-migration/src/lib.rs:322-350 | the third approval pays the beneficiary the amount, unless it is too small for a new account, and nobody else |
| `Erc20Balances.BalanceIs` | pallets/pdex-migration/src/lib.rs:279-350 | over every run a balance is the first or last moved one plus what mints credited since less what reverts took since |
| `Erc20Balances.HeldKept` | pallets/pdex-migration/src/lib.rs:279-350 | over every run what exists and is in no balance changes by transfers only, so mints and reverts keep issuance less all balances |
| `Erc20Balances.OtherLocksKept` | pallets/pdex-migration/src/lib.rs:331-341 | no lock but the migration's own is touched |
| `Erc20Migration.Storage.UnlockTokens` | pallets/pdex-migration/src/lib.rs:374-388 | removes the lock once the period has passed, else changes nothing |
| `Erc20Balances.UnlockIff` | pallets/pdex-migration/src/lib.rs:374-388 | after any run an account is unlocked if and only if the migration is operational and the lock period has passed since its last mint by the log; no balance changes |
| `Erc20Migration.Storage.RemoveMinted` | pallets/pdex-migration/src/lib.rs:279-308 | burns exactly the locked amount and makes it mintable again, or changes nothing |
| `Erc20Balances.RevertIff` | pallets/pdex-migration/src/lib.rs:279-308 | after any run a revert succeeds if and only if the account has what was minted to it since its last unlock or revert and the burn goes through; it takes just that |
| `Erc20Properties.CapKept` | pallets/pdex-migration/src/lib.rs:279-388 | over every run mintable is the cap less minted plus reverted; mintable, locked and released add up to the cap, so it is never exceeded |
| `Erc20Properties.IssuanceKept` | pallets/pdex-migration/src/lib.rs:279-361 | over every run issuance plus mintable is constant but for dropped deposits |
| `Erc20Properties.MintCreatesIff` | pallets/pdex-migration/src/lib.rs:327-350 | a mint keeps issuance plus mintable if and only if the amount is zero, at least the existential deposit, or the account exists |
| `Erc20Properties.DustIsDropped` | pallets/pdex-migration/src/lib.rs:327-350 | a small mint to a new account uses the cap and sets a lock but creates nothing |
| `Erc20Properties.LocksAreMints` | pallets/pdex-migration/src/lib.rs:331-341 | over every run each lock is what was minted to the account since its last unlock or revert, whatever other locks come and go |
| `Erc20Properties.MintsAreApproved` | pallets/pdex-migration/src/lib.rs:310-361 | over every run how often a hash has minted is a function of how many different relayers approved it |
| `Erc20Properties.MintsOnce` | pallets/pdex-migration/src/lib.rs:310-361 | with fewer than 65539 relayers a hash mints at most once, and has minted if and only if three different relayers approved it |
| `Erc20Properties.NextApproval` | pallets/pdex-migration/src/lib.rs:227-361 | after any run a call counts if and only if the log shows no approval by this relayer, room in the list and room under cap less minted plus reverted; it is then the next approval, and mints what it says if and only if it is the third |
| `Erc20Properties.ThirdDecides` | pallets/pdex-migration/src/lib.rs:322-350 | every mint of every run comes right after the third approval of its hash, with the account and amount of the call that gave it |
| `Erc20Properties.OthersMayDiffer` | pallets/pdex-migration/src/lib.rs:322-328 | three active relayers may claim different accounts and amounts, and the third claim is minted |
| `Erc20Properties.UnlocksWait` | pallets/pdex-migration/src/lib.rs:374-388 | nothing is unlocked before the lock period after the latest mint to the account |
| `Sweeping.ScanHits` | tools/staking-migrate-currency/migrate_currency.py:376-387 | a scan finds each open call that is in one of the blocks once, and nothing else |
| `Sweeping.RecordedOnce` | tools/staking-migrate-currency/migrate_currency.py:376-387 | exactly one row for every call found while open, no other row |
| `Sweeping.ScanTells` | tools/staking-migrate-currency/migrate_currency.py:376-442 | each row of a scan names its call's stash and pass, and is ok if and only if the call succeeded at its first place in the blocks after the last scanned one |
| `Sweeping.FirstOnly` | tools/staking-migrate-currency/migrate_currency.py:380-385 | a call has one first place in the blocks after a given one |
| `Sweeping.OneRowEachMore` | tools/staking-migrate-currency/migrate_currency.py:376-387 | over the scans of a pass each row says how its call fared in the blocks scanned, and no call gets two rows, unless it stands in two finalised blocks |
| `Sweeping.BetweenOnce` | tools/staking-migrate-currency/migrate_currency.py:380-385 | the blocks scanned in a pass are consecutive, each once |
| `SweepClient.ByNonce` | tools/staking-migrate-currency/migrate_currency.py:459-459 | lists the open calls in nonce order, each once |
| `SweepClient.DroppedByNonce` | tools/staking-migrate-currency/migrate_currency.py:543-543 | the dropped calls of a wave are already in nonce order |
| `SweepClient.Sweep.Send` | tools/staking-migrate-currency/migrate_currency.py:308-333 | a prefix of the stashes is sent with consecutive nonces from the node's and opened: up to the first submission that the node does not take, which rejects or stops |
| `SweepClient.Sweep.WaitInclusion` | tools/staking-migrate-currency/migrate_currency.py:335-364 | ends when every call was seen in a block, or the calls have expired, or the missing ones are not in the pool, and gives the last block with a call not seen before; stops the script only at the deadline, with every call of the pass in a row of its own or its stash in a settled row |
| `SweepClient.Sweep.WaitFinality` | tools/staking-migrate-currency/migrate_currency.py:366-374 | ends when the node has finalised the block, and stops the script only at the deadline, with every call of the pass in a row of its own or its stash in a settled row |
| `SweepClient.Sweep.ScanFinalized` | tools/staking-migrate-currency/migrate_currency.py:376-387 | rows grow by what is found after the last scanned block, each telling how its call fared at its first place there, and what is found is no longer open |
| `SweepClient.Sweep.StopAtDeadline` | tools/staking-migrate-currency/migrate_currency.py:453-469 | the finalised calls are recorded, every call still open is written as pending once in nonce order, so every call of the pass has a row of its own or its stash a settled one |
| `SweepClient.Sweep.Settle` | tools/staking-migrate-currency/migrate_currency.py:444-451 | returns exactly the calls still open |
| `SweepClient.Sweep.Skip` | tools/staking-migrate-currency/migrate_currency.py:481-483 | one skipped row, and the stash is done |
| `SweepClient.Sweep.NoFurther` | tools/staking-migrate-currency/migrate_currency.py:485-504 | no further attempt is made if and only if a call of the stash has landed, the stash needs none, or the attempts are used up; the row that is written says which |
| `SweepClient.Sweep.Resubmit` | tools/staking-migrate-currency/migrate_currency.py:485-515 | terminates; on return the stash has a settled row and none of its calls is open, and on a deadline stop every call has a row of its own or its stash a settled one |
| `SweepClient.Sweep.SettleAll` | tools/staking-migrate-currency/migrate_currency.py:542-544 | after a wave is settled and its dropped calls resubmitted nothing is open |
| `SweepClient.Sweep.RunWave` | tools/staking-migrate-currency/migrate_currency.py:522-554 | each stash of a wave has a row or comes back to the queue, which gets shorter; nothing is left open; the sweep stops if and only if every call of the wave failed |
| `SweepClient.Sweep.Run` | tools/staking-migrate-currency/migrate_currency.py:517-554 | terminates; on normal return every target has an ok, error or skipped row and nothing is open, also at the head of every wave; on a deadline stop every call sent has a row of its own or its stash a settled one |
| `SweepClient.Sweep.Passes` | tools/staking-migrate-currency/migrate_currency.py:620-628 | after both passes every target of each has a row of its own pass |
| `SweepClient.EveryCallFailed` | tools/staking-migrate-currency/migrate_currency.py:545-554 | the stop condition of a wave: some new row about it, and all of them errors |
| `SweepClient.FinalRows` | tools/staking-migrate-currency/migrate_currency.py:557-563 | the fold of the rows into one per stash |
| `SweepClient.FinalRowIs` | tools/staking-migrate-currency/migrate_currency.py:557-563 | a stash has a final row if and only if it has a row: its first success, else its latest row |

## Left out

- Settlement.LedgerState.ProcessTrade: says nothing of the balances after a failure half way, because the callers drop that state.
- ReplayWorker.Worker.ProcessBatch: likewise says nothing of the state in memory after a failure; Sync states what is persisted.
- Decimals.SumBalances: at most 10^42 rows, the number up to which 100 digits suffice.
- SweepClient.Sweep.Passes: wave sizes below one, as for Run.
- SweepClient.Sweep.Run: wave sizes below one, with which the script divides by zero or does not end; block numbers start at one.
- Custody.Pallet.SubmitSnapshot: the update of trading scores, the limits on messages and on the ingress queue are one condition that the environment decides; pruning of old ingress messages is not modelled.
- Custody.Pallet.ProcessEgress: an egress message is the payments it makes out of custody; price oracle entries, fee distribution shares and notices to the liquidity pallet are not modelled.
- Erc20Migration.Storage.RemoveMinted: a remainder below the existential deposit stays in the account instead of being reaped.
- Overflow of the 96-bit mantissa of `Decimal`: amounts are integers of a fixed scale, and multiplication is any function that gives no negative product of amounts that are not negative, and no more than an amount for a fraction of it.
- Order checks by price, volume and tick size, and all signatures: one verdict per order, request, batch and authority.
- The Merkle trie under the overlay is a map with a set of unreachable keys; the trie's own bytes are modelled in the extraction modules.
- Invocations.Validate: signing and submitting the snapshot, the choice of keys, and failures to read or commit the trie; a root is any number given to a stored state.
- The worker nonce.
- Validator set ids beyond 64 bits; payments to the pallet's own account; conditions for accepting a deposit.
- Time in the sweep is in whole seconds and passes in sleeps only; results are rows without fees and balances.
- Labels of known assets, command lines, RocksDB, CSV and JSON output, RPC, HTTP and key handling.
- Score computation and q-scores, reward amounts, the liquidity-mining and rewards pallets, auctions, the crowdloan verifier and the worker lock.
- Runtime wiring, weights, benchmarks, events and log messages.
