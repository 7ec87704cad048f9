# A verified model of the blockchain_v3 ledger core

This project models the Python backend of blockchain_v3, a small proof-of-work cryptocurrency
node, in Dafny. It then proves the rules that backend promises. The modelled code is:

- the hex nibble table and `crypto_hash`;
- `Block`: construction, JSON forms, the Merkle root, difficulty adjustment, mining and `is_valid_block`;
- `Transaction`: constructor checks, size, validation, the coinbase, JSON forms and pending spends;
- `TransactionPool`, the mempool;
- `Blockchain`, with its unspent-output (UTXO) set;
- the non-cryptographic part of `Wallet`;
- the query arithmetic of the chain and transaction HTTP routes;
- the state bookkeeping of the peer-to-peer `PubSub` service.

The files follow the program. Each Python module is one Dafny module:

| Dafny file | module | models |
|---|---|---|
| `hex.dfy` | `Hex` | `backend/utils/hex_to_binary.py` |
| `cryptohash.dfy` | `CryptoHash` | `backend/utils/cryptohash.py` |
| `config.dfy` | `Config` | constants of `backend/core/config.py` and the halving subsidy |
| `transaction.dfy` | `Transactions` | `backend/models/transaction.py` |
| `block.dfy` | `Blocks` | `backend/models/block.py` |
| `transaction_pool.dfy` | `TransactionPools` | `backend/models/transaction_pool.py` |
| `utxo.dfy` | `Utxos` | the UTXO updates in `backend/models/blockchain.py` |
| `blockchain.dfy` | `Chains` | `backend/models/blockchain.py` |
| `wallet.dfy` | `Wallets` | `backend/models/wallet.py` |
| `blockchain_routes.dfy` | `BlockchainRoutes` | `backend/routers/blockchain.py` |
| `transaction_routes.dfy` | `TransactionRoutes` | `backend/routers/transaction.py` |
| `pubsub.dfy` | `PubSubs` | `backend/services/pubsub.py` |

Three files are shared helpers:

- `wrappers.dfy` holds Option, Result and Outcome. A raised exception becomes an `Err`/`Fail` value naming the error.
- `sums.dfy` holds sums over dict values, where the order is not fixed.
- `sorting.dfy` holds Python's stable `sorted(..., reverse=True)`.

Code that changes state in place is imperative Dafny:

- `TransactionPool`, `Blockchain` and `PubSub` are classes whose methods update their fields.
- The loops of the source are `while` loops.
- Examples include the Merkle rounds, the nonce search, the validation loops, the UTXO spends, the sync loop and the by-address listing.

Each loop is proved equal to a specification function. The properties are then proved about that function.

Things the model does not interpret are parameters, gathered in the environment records `TxEnv` and `BlockEnv`:

- SHA-256, which must return 64 lower-case hex characters;
- `json.dumps` and `str()` lengths;
- Web3 signature recovery;
- fresh `uuid4` ids;
- `time.time_ns()`, as a sequence of clock readings for the nonce search, or as `now`.

Amounts are Dafny `real`s.

## Model

| member | source | states |
|---|---|---|
| Hex.Nibble | backend/utils/hex_to_binary.py:1-6 | each table entry is four characters |
| Hex.NibbleIsBinaryOfDigit | backend/utils/hex_to_binary.py:1-6 | each digit's entry is the 4-bit big-endian binary of its value 0..15 |
| Hex.DigitOf | backend/utils/hex_to_binary.py:1-6 | every value below 16 has a lower-case digit denoting it |
| Hex.HexToBinary | backend/utils/hex_to_binary.py:8-10 | defined on lower-case hex only; the output is exactly four times as long as the input and holds only '0' and '1' |
| Hex.HexToBinaryConcat | backend/utils/hex_to_binary.py:9 | the expansion distributes over concatenation |
| Hex.BinaryToHex | backend/utils/hex_to_binary.py:1-6 | reading bits back in groups of four gives hex of a quarter of the length |
| Hex.BinaryToHexInverts | backend/utils/hex_to_binary.py:1-10 | reading the expansion back in 4-bit groups recovers the input |
| Hex.HexToBinaryInjective | backend/utils/hex_to_binary.py:8-10 | distinct hex strings have distinct expansions |
| Hex.HexToBinaryValue | backend/utils/hex_to_binary.py:8-10 | the expansion denotes the same number as the hex string |
| Hex.LeadingZerosValue | backend/utils/hex_to_binary.py:8-10 | the first d bits are zero exactly when the value is below 2^(n-d) |
| Hex.ProofOfWorkThreshold | backend/models/block.py:113 | the proof-of-work test `hex_to_binary(h)[:d] == '0'*d` holds exactly when the value of h is below 2^(4·\|h\|−d) |
| Hex.ZeroBitsPrefixMeans | backend/models/block.py:209 | the digit-wise zero-prefix test the model uses agrees with testing the leading bits of the expansion |
| CryptoHash.Hash | backend/utils/cryptohash.py:4-7 | the digest is 64 lower-case hex characters |
| CryptoHash.SortStringsSorts | backend/utils/cryptohash.py:5 | sorting gives an ordered permutation of the serialisations |
| CryptoHash.SortedPermutationUnique | backend/utils/cryptohash.py:5 | two ordered permutations of the same strings are equal, so sorting has one result |
| CryptoHash.HashInputIsSortedJoin | backend/utils/cryptohash.py:5-6 | the hashed text is the concatenation of the sorted serialisations, for any way of sorting them |
| CryptoHash.HashOrderIndependent | backend/utils/cryptohash.py:5-7 | arguments that are a permutation of each other give the same digest |
| CryptoHash.DigestIsBinaryExpandable | backend/utils/cryptohash.py:7 | every digest is valid input to hex_to_binary and expands to 256 bits |
| Config.Subsidy | backend/models/blockchain.py:247 | the subsidy `BLOCK_SUBSIDY // 2^(h // HALVING_INTERVAL)` never exceeds BLOCK_SUBSIDY |
| Config.SubsidyNonIncreasing | backend/models/transaction.py:169 | the subsidy never grows with height |
| Config.SubsidyConstantInWindow | backend/models/transaction.py:269 | within halving window i the subsidy is BLOCK_SUBSIDY / 2^i |
| Transactions.Size | backend/models/transaction.py:154-162 | the size is never below BASE_TX_SIZE and is the floor or the weighted payload length, whichever is larger |
| Transactions.SizeOfNothing | backend/models/transaction.py:154-162 | a transaction without dicts has exactly the base size |
| Transactions.HexFormatIgnoresPrefix | backend/models/transaction.py:59-62 | stripping "0x" first does not change the verdict: the format test accepts exactly strings of hex digits and 'x' |
| Transactions.ChangeOutput | backend/models/transaction.py:72-81 | the recipient gets the amount; change above the tolerance goes to the sender; the outputs sum to amount plus change |
| Transactions.New | backend/models/transaction.py:14-97 | the fee-rate floor; a given non-empty id is kept, and otherwise the id is a fresh uuid4, prefixed `coinbase_` for a coinbase; recipient, amount, sender, key and signature are kept as given; a coinbase needs both dicts and carries fee 0 and rate 0; a non-coinbase without a recipient or positive amount is rejected; the fee floor is MIN_FEE; given dicts are kept and the fee comes from input['fees'] or the floor; on the creation path the credentials are checked and the outputs spend the input less the fee |
| Transactions.PySubsidy | backend/models/transaction.py:169 | for a non-negative height it is the halving subsidy; a negative height gives a negative exponent and at least twice the subsidy |
| Transactions.Priority | backend/models/transaction.py:233-237 | the priority label is one of low, medium and high |
| Transactions.ChainChecksPass | backend/models/transaction.py:208-230 | with a chain, the ownership and total checks both pass exactly when a pool is given and every previous id is either held by the sender in the UTXO set or, absent from it, the id of a pool transaction |
| Transactions.IsValid | backend/models/transaction.py:165-265 | a coinbase passes exactly when it has one positive output equal to subsidy plus fees within the tolerance; a passing non-coinbase is not from the reward address, has both dicts, the credentials, a fee of at least MIN_FEE, a non-empty list of previous ids, a recipient and a recoverable signature; a non-list prev_tx_ids fails; with a chain, passing needs the pool and both UTXO checks |
| Transactions.SignatureCaseInsensitive | backend/models/transaction.py:255-263 | a passing transaction's signature recovers to its sender's address, ignoring case |
| Transactions.CreateCoinbase | backend/models/transaction.py:268-296 | succeeds exactly when the miner is non-empty and subsidy plus fees is positive; the result is a coinbase with fee 0 and the single output miner → subsidy + fees |
| Transactions.CoinbaseIsValid | backend/models/transaction.py:166-176 | every coinbase create_coinbase builds passes is_valid |
| Transactions.CoinbaseSubsidySchedule | backend/models/transaction.py:269 | the coinbase subsidy does not increase with height and is constant inside a halving window |
| Transactions.ParseEntries | backend/models/transaction.py:313-322 | the output dict parses exactly when every value is a number, giving the same entries in the same order |
| Transactions.SelectRecipient | backend/models/transaction.py:331-350 | the recipient is the first output not to the sender when one exists, else the first output |
| Transactions.FromJson | backend/models/transaction.py:309-371 | a non-dict output is rejected; a missing id raises, a non-empty one is kept, and a null or empty one becomes a fresh uuid4 (prefixed for a coinbase); a missing is_coinbase means "the input's address is 'coinbase'", a null one means not coinbase, and a present one counts by its truth value; the result has the default fee rate, the input dict (or {}), and no sender or recipient for a coinbase; a non-coinbase's sender and key come from its input, and its recipient and amount are those of the output SelectRecipient picks (the first not paying the sender, else the first), one of its outputs |
| Transactions.FromJsonToJson | backend/models/transaction.py:298-371 | to_json followed by from_json gives back the transaction from_json made |
| Transactions.FromJsonIgnoresFee | backend/models/transaction.py:352-371 | the 'fee' member does not change the result: a non-coinbase's fee is input['fees'] when nonzero, else the floor |
| Transactions.PendingSpends | backend/models/transaction.py:374-381 | the loop computes the sum, over pool transactions from the address, of each output to another address plus the fee |
| Transactions.PendingWithFees | backend/models/transaction.py:380 | the fee is counted once per output to another address: the total is the fee-free sum plus fee × that count |
| Transactions.PendingOfNonSender | backend/models/transaction.py:374-381 | an address that sent nothing in the pool has zero pending spends |
| Blocks.Construct | backend/models/block.py:54-75 | construction succeeds exactly when the height is not negative and tx_count matches the data; difficulty is clamped to at least 1; height 0, version 1 and tx_count = len(data) are the defaults |
| Blocks.NewBlock | backend/models/block.py:54-67 | as written: with no merkle_root the constructor raises, and otherwise it is Construct |
| Blocks.NewBlockWithoutMerkleRootFails | backend/models/block.py:64 | every Block(...) call without merkle_root fails |
| Blocks.NewBlockIntended | backend/models/block.py:54-75 | corrected: a missing merkle_root is computed from the data; success conditions as Construct |
| Blocks.NewBlockIntendedComputesRoot | backend/models/block.py:64 | with only the required arguments, the block takes all defaults and the Merkle root of its data |
| Blocks.FromJson | backend/models/block.py:178-190 | a missing timestamp is rejected; results are valid blocks; a missing merkle_root reads as 64 zeros and, in the corrected constructor of the findings below, a null one is computed from the block's data |
| Blocks.JsonRoundTrip | backend/models/block.py:77-190 | from_json(to_json(b)) == b for every valid block |
| Blocks.Level | backend/models/block.py:137-144 | one Merkle round maps n hashes to ⌈n/2⌉ |
| Blocks.LevelAt | backend/models/block.py:139-143 | position k of a round hashes neighbours 2k and 2k+1, or carries an odd last hash up unchanged |
| Blocks.MerkleRootSmall | backend/models/block.py:126-146 | the root of no data is crypto_hash(''), and the root of one transaction is that transaction's hash |
| Blocks.MerkleRootIsDigest | backend/models/block.py:126-146 | the root is always a 64-character hex digest |
| Blocks.CalculateMerkleRoot | backend/models/block.py:126-146 | the level-by-level loop computes the Merkle root |
| Blocks.PairUp | backend/models/block.py:138-144 | the inner loop computes one round |
| Blocks.GenesisTx | backend/models/block.py:150-164 | the genesis transaction is a coinbase with the fixed genesis id, paying 50 to the genesis address, and it passes is_valid |
| Blocks.Genesis | backend/models/block.py:148-175 | the genesis block is valid, at height 0, holding the genesis transaction |
| Blocks.AdjustDifficulty | backend/models/block.py:193-199 | up by one exactly when under MINRATE seconds have passed; down by one exactly when at least MINRATE have passed, d > 1 and over 2·TARGET_BLOCK_TIME have passed; always within one step; never below 1 from d ≥ 1 |
| Blocks.HashIgnoresFieldRoles | backend/models/block.py:225-228 | because crypto_hash sorts its arguments, swapping header fields gives the same hash |
| Blocks.HeaderCheck | backend/models/block.py:206-231 | a passing header links to the last hash, meets its proof-of-work target, moves difficulty by at most one, has the next height, the right Merkle root, data within the size limit and a hash that is reconstructed from the header |
| Blocks.CandidatePassesHeader | backend/models/block.py:100-123 | a mined candidate that meets its target is valid, passes the header checks, and links to the last block at the next height |
| Blocks.SearchFromFindsFirst | backend/models/block.py:113-119 | the nonce search returns the first nonce whose hash meets the target, or fails when no reading works |
| Blocks.MineMeaning | backend/models/block.py:92-123 | data over the size limit is rejected; a mined block is the candidate at the first working nonce, valid, passing the header checks, with the data serialised |
| Blocks.MineBlock | backend/models/block.py:92-123 | the mining loop computes Mine |
| Blocks.ScanAllMeaning | backend/models/block.py:233-245 | a successful scan means every transaction parses and is valid; the coinbase count is at most one and a coinbase is found exactly when there is one |
| Blocks.BlockValidity | backend/models/block.py:202-254 | a passing block passes the header checks; every transaction parses and is valid; there is exactly one coinbase; its outputs do not exceed subsidy plus fees |
| Blocks.IsValidBlock | backend/models/block.py:202-254 | the validation loop computes BlockValidity |
| Blocks.TotalOf | backend/models/block.py:249 | the sum loop computes the output total |
| TransactionPools.Later | backend/models/transaction_pool.py:16 | comparing timestamps fails when one is missing, and is otherwise strict greater-than |
| TransactionPools.SetSpecMeaning | backend/models/transaction_pool.py:9-19 | an invalid transaction is rejected before any change; an absent id is inserted at the end of the order; an existing id is replaced only by a strictly newer timestamp; no other id changes |
| TransactionPools.SetSpecKeepsDict | backend/models/transaction_pool.py:9-19 | insertion keeps the pool a dict: distinct ordered keys matching the map |
| TransactionPools.SetSpecIdempotent | backend/models/transaction_pool.py:15-18 | setting the same transaction twice changes nothing more |
| TransactionPools.SetSpecAdmitsOnlyValid | backend/models/transaction_pool.py:13 | a pool of valid transactions stays valid |
| TransactionPools.TransactionPool.constructor | backend/models/transaction_pool.py:5-7 | the pool starts empty |
| TransactionPools.TransactionPool.SetTransaction | backend/models/transaction_pool.py:9-19 | the pool's new state is the specification's, and it is unchanged on rejection |
| TransactionPools.TransactionPool.Existing | backend/models/transaction_pool.py:21-24 | true exactly for a transaction object whose id is a key; anything else gives false |
| TransactionPools.TransactionPool.Values | backend/models/transaction_pool.py:27 | the values are the map read in insertion order, one per key |
| TransactionPools.TransactionPool.TransactionData | backend/models/transaction_pool.py:26-27 | one to_json per pool transaction, in insertion order |
| TransactionPools.TransactionPool.ToJson | backend/models/transaction_pool.py:39-43 | the count equals the number of listed transactions and the pool size |
| TransactionPools.ParseIdsMeaning | backend/models/transaction_pool.py:30-32 | the chain's transactions are parsed in order; parsing stops at the first failure, and the ids collected so far are the ids of the parsed prefix |
| TransactionPools.ClearedMeaning | backend/models/transaction_pool.py:29-34 | after removal, no id from the list remains, other entries are untouched, and the pool stays a dict |
| TransactionPools.TransactionPool.ClearBlockchainTransactions | backend/models/transaction_pool.py:29-34 | removes the ids of the chain's transactions, as far as they parse, and reports the first that does not |
| TransactionPools.PriorityOrder | backend/models/transaction_pool.py:36-37 | ordering fails, as a division by zero, exactly when some transaction has size 0 |
| TransactionPools.PriorityMeaning | backend/models/transaction_pool.py:36-37 | the priority order is a permutation of the pool, non-increasing in fee/size, and stable |
| TransactionPools.DictSize | backend/models/transaction_pool.py:42 | the pool's size equals the length of its key order |
| TransactionPools.PendingSpends | backend/models/transaction_pool.py:45-53 | the loop computes the sum of outputs to other addresses, without fees; backend/models/wallet.py:154-163 is the same loop |
| TransactionPools.PoolPendingAtMostTransactions | backend/models/transaction_pool.py:45-53 | with non-negative fees, the fee-free pending sum never exceeds Transaction.pending_spends |
| Sorting.SortDescSorts | backend/routers/transaction.py:81 | sorted(reverse=True) gives a non-increasing permutation |
| Sorting.SortDescStable | backend/routers/transaction.py:81 | elements with equal keys keep their input order |
| Utxos.OutputMap | backend/models/blockchain.py:101 | the stored output dict has exactly the transaction's output addresses as keys |
| Utxos.SpendShrinks | backend/models/blockchain.py:93-98 | spending only removes: entries shrink, amounts do not change, and no empty output map is left behind |
| Utxos.SpendKeepsOthers | backend/models/blockchain.py:93-98 | entries not named by the spend are untouched |
| Utxos.SpendRemovesSender | backend/models/blockchain.py:95-98 | after a spend the sender holds nothing under any previous id |
| Utxos.SpendKeepsCoholders | backend/models/blockchain.py:95-96 | other holders under a spent id keep their entries |
| Utxos.StrictSpendMeaning | backend/models/blockchain.py:126-132 | the rebuild's spend succeeds exactly when each (id, sender) is unspent when reached, and then it is the ordinary spend |
| Utxos.StrictSpendDistinct | backend/models/blockchain.py:126-132 | a successful strict spend names no id twice: no double spend within one transaction |
| Utxos.UpdateKeepsNoEmpty | backend/models/blockchain.py:85-105 | update_utxo_set never leaves an empty output map |
| Utxos.ApplyRecordsOutput | backend/models/blockchain.py:100-101 | after a transaction with outputs, its id maps to its outputs |
| Utxos.RebuildAgreesWithUpdate | backend/models/blockchain.py:107-142 | a successful rebuild gives the same set as applying update_utxo_set to an empty set |
| Utxos.RebuildNoEmpty | backend/models/blockchain.py:107-142 | a rebuilt set has no empty output map |
| Utxos.RebuildStepSpendsUnspent | backend/models/blockchain.py:126-132 | every non-coinbase transaction the rebuild accepts spends only unspent outputs, each once |
| Utxos.AddOutputsMeaning | backend/models/blockchain.py:257-262 | recording outputs keeps old keys and adds only ids of transactions with outputs |
| Utxos.BalanceOfStranger | backend/models/blockchain.py:280-286 | an address that holds nothing has balance 0 |
| Utxos.BalanceNonNegative | backend/models/blockchain.py:280-286 | non-negative amounts give a non-negative balance |
| Chains.IsValidIgnoresPool | backend/models/blockchain.py:218-219 | without a chain, the pool passed to is_valid makes no difference |
| Chains.ChainTxScanMeaning | backend/models/blockchain.py:215-254 | a block that passes has every transaction parsing and valid, at most one coinbase, and a coinbase flag exactly when there is one |
| Chains.ChainValidityMeaning | backend/models/blockchain.py:199-264 | a valid chain starts with the genesis block, and each block is accepted with its transactions |
| Chains.ValidChainMeaning | backend/models/blockchain.py:199-264 | a valid chain starts with the genesis block, its heights run 0,1,2,…, each block is valid after its predecessor, and each non-genesis block has exactly one coinbase |
| Chains.IsValidChain | backend/models/blockchain.py:199-264 | the nested validation loops compute ChainValidity |
| Chains.SpendStrictly | backend/models/blockchain.py:126-132 | the spend loop with its raise computes StrictSpend |
| Chains.RecordOutputs | backend/models/blockchain.py:257-262 | the output loop computes AddOutputs |
| Chains.CheckBlockTxs | backend/models/blockchain.py:215-254 | the transaction loop computes the block's scan |
| Chains.CheckBlocks | backend/models/blockchain.py:206-264 | the block loop computes BlocksUpTo |
| Chains.Blockchain.RebuildUtxoSet | backend/models/blockchain.py:107-142 | the rebuild loops compute Rebuild, failing on the first bad transaction |
| Chains.ReplacementMeaning | backend/models/blockchain.py:144-162 | a chain that is not longer is rejected; an accepted chain is longer, valid, and has the rebuilt set, which equals the updated set and has no empty entries |
| Chains.Blockchain.ReplaceChain | backend/models/blockchain.py:144-162 | on success chain, UTXO set and height = len − 1 are replaced; on any failure all three keep their old values |
| Chains.SubsidySumBound | backend/models/blockchain.py:266-278 | the total subsidy of n blocks is at most BLOCK_SUBSIDY·n |
| Chains.WindowSum | backend/models/blockchain.py:272-277 | each halving window adds its block count times that window's subsidy |
| Chains.Blockchain.AdmitItems | backend/models/blockchain.py:36-50 | the admission loop computes Admit |
| Chains.Blockchain.CalculateTotalSubsidy | backend/models/blockchain.py:266-278 | 0 for no blocks; otherwise the sum over h < n of the subsidy at height h |
| Chains.AdmitMeaning | backend/models/blockchain.py:34-50 | the kept transactions are exactly the transaction objects that pass validation, and the fees are theirs |
| Chains.WithCoinbase | backend/models/blockchain.py:52-61 | corrected: a coinbase worth subsidy plus fees goes in front whenever none was kept, and it is valid |
| Chains.WithCoinbaseFirstBlock | backend/models/blockchain.py:53 | corrected: the first block after genesis also receives a coinbase |
| Chains.FirstBlockLacksCoinbase | backend/models/blockchain.py:53 | as written: after genesis no coinbase is added, and the mined block then fails is_valid_block |
| Chains.AsDicts | backend/models/blockchain.py:63 | the block data is to_json of each kept transaction, in order |
| Chains.NextBlockMeaning | backend/models/blockchain.py:31-82 | under the corrected coinbase rule of the findings below, a mined block is valid, links to the last block at the next height, passes the header checks and holds the admitted transactions with their coinbase |
| Chains.Blockchain.constructor | backend/models/blockchain.py:11-29 | a new chain holds only the genesis block at height 0, with the genesis outputs as its UTXO set |
| Chains.Blockchain.InitializeUtxoSet | backend/models/blockchain.py:19-29 | the UTXO set is rebuilt from the genesis outputs only |
| Chains.Blockchain.AddBlock | backend/models/blockchain.py:31-82 | with the corrected coinbase rule of the findings below: on success the chain grows by the new block, the height is the new block's, and the UTXO set is updated with its data; on failure nothing changes |
| Chains.Blockchain.UpdateUtxoSet | backend/models/blockchain.py:85-105 | the set becomes UpdateUtxo of the old set and the block's data; the chain and height are unchanged |
| Chains.Blockchain.SpendIds | backend/models/blockchain.py:93-98 | the in-place deletions compute Spend |
| Chains.Blockchain.CalculateBalance | backend/models/blockchain.py:280-286 | the nested loops sum the amounts the address holds |
| Chains.Blockchain.HeldIn | backend/models/blockchain.py:283-285 | an output dict contributes the address's amount, or 0 |
| Wallets.GenerateAddress | backend/models/wallet.py:24-33 | the address is "AG" followed by 33 hex digits: 35 characters |
| Wallets.AddressesCollide | backend/models/wallet.py:26-33 | two keys share an address exactly when their digests agree on the first 33 digits |
| Wallets.ToHexValue | backend/models/wallet.py:106 | the hex digits denote the value |
| Wallets.PadHexMeaning | backend/models/wallet.py:106 | the padded string denotes v, and it has exactly the width exactly when v fits in that many digits |
| Wallets.PrivateKeyHexMeaning | backend/models/wallet.py:102-107 | the key's hex denotes the key and is exactly 64 characters exactly when the key is below 2^256 |
| Wallets.FromPrivateKeyHex | backend/models/wallet.py:126-139 | only a positive value is accepted |
| Wallets.PrivateKeyRoundTrip | backend/models/wallet.py:106-129 | parsing the hex of a positive key gives back the key |
| Wallets.NonDigitRefused | backend/models/wallet.py:129 | a string with a character int(s, 16) does not accept is refused |
| Wallets.CalculateBalance | backend/models/wallet.py:141-152 | 0 without a blockchain; otherwise the sum of the UTXO amounts held by the address |
| BlockchainRoutes.CeilDivMeaning | backend/routers/blockchain.py:99 | total_pages is the ceiling of total_blocks / page_size |
| BlockchainRoutes.Paginated | backend/routers/blockchain.py:89-130 | the page query's errors: 422, 404 and 400 |
| BlockchainRoutes.PaginatedRejectsPastEnd | backend/routers/blockchain.py:101-102 | on a non-empty chain, a page is rejected with 400 exactly when it starts past the end |
| BlockchainRoutes.PaginatedMeaning | backend/routers/blockchain.py:98-130 | a page holds at most page_size blocks, exactly page_size before the last page, newest first from offset (page−1)·size; has_next ⇔ page < total; has_previous ⇔ page > 1 |
| BlockchainRoutes.AllPagesSuffix | backend/routers/blockchain.py:114-120 | pages 1..n together are the newest blocks, reversed, with no gap or overlap |
| BlockchainRoutes.PagesCoverChain | backend/routers/blockchain.py:114-120 | all pages together are the whole chain reversed |
| BlockchainRoutes.Latest | backend/routers/blockchain.py:132-141 | 422 exactly for a limit outside 1..100; 404 exactly for an empty chain |
| BlockchainRoutes.LatestMeaning | backend/routers/blockchain.py:140 | the last min(limit, len) blocks, newest first |
| BlockchainRoutes.LatestIsFirstPage | backend/routers/blockchain.py:132-141 | the latest blocks are page 1 at page size limit |
| BlockchainRoutes.RangeMeaning | backend/routers/blockchain.py:143-168 | 422 for a negative bound; 400 exactly when end ≤ start and the range is not past a non-empty chain's end; otherwise chain[start:end], reversed if asked |
| BlockchainRoutes.HalvingMeaning | backend/routers/blockchain.py:174-179 | halvings = height // HALVING_INTERVAL and the subsidy is the halving subsidy, which is 0 from the sixth halving on |
| BlockchainRoutes.BlockAtHeight | backend/routers/blockchain.py:181-189 | a found block is the block at that height |
| BlockchainRoutes.BlockAtHeightMeaning | backend/routers/blockchain.py:181-189 | with height = len − 1, a lookup succeeds exactly for 0 ≤ height < len, and never gives 404 |
| TransactionRoutes.Describe | backend/routers/transaction.py:57-78 | a listed entry carries the transaction's id and the candidate's status; a dict whose id is missing (KeyError) or null (the response schema wants a str) makes the request fail |
| TransactionRoutes.InvolvingMeaning | backend/routers/transaction.py:55-70 | the involving candidates are candidates that pass the address test, as many as CountInvolving counts |
| TransactionRoutes.CollectMeaning | backend/routers/transaction.py:53-79 | one entry per matching transaction, in order: the k-th entry is the response dict of the k-th candidate involving the address, with its id and status, and names the address |
| TransactionRoutes.PendingStatus | backend/routers/transaction.py:55-64 | every pool candidate is tagged pending with the handler's clock as fallback timestamp |
| TransactionRoutes.ChainStatus | backend/routers/transaction.py:67-77 | every chain candidate is a dict of some block, confirmed at that block's height with its timestamp as fallback |
| TransactionRoutes.CollectedStatuses | backend/routers/transaction.py:53-79 | every pool entry has status pending; every chain entry is the response dict of a dict of some block, confirmed at that block's height |
| TransactionRoutes.CollectAppend | backend/routers/transaction.py:53-79 | pending entries come before confirmed ones, with no deduplication |
| TransactionRoutes.ByAddressMeaning | backend/routers/transaction.py:47-82 | the result counts matching pool plus matching chain transactions; it is sorted newest first, is a permutation of pending followed by confirmed, is stable for equal timestamps, and each entry names the address; the pool entries are pending and every chain entry is confirmed at the height of the block holding its dict |
| TransactionRoutes.ByAddress | backend/routers/transaction.py:47-82 | the handler's loops compute ByAddressSpec |
| TransactionRoutes.ChainCandidatesAppend | backend/routers/transaction.py:67-68 | the candidates of two chains are the candidates of each, in chain order |
| TransactionRoutes.SearchMeaning | backend/routers/transaction.py:25-37 | the search finds the first transaction with the id in chain order, misses exactly when none has it, and fails on a transaction without an id member before any match; a null id is passed over as unequal |
| TransactionRoutes.ByIdMeaning | backend/routers/transaction.py:18-37 | a pool entry wins; otherwise the first chain match is returned, tagged with its status; [] exactly when neither has it |
| PubSubs.Reliability | backend/services/pubsub.py:153-159 | the peer is added to the keys and no other key changes |
| PubSubs.ReliabilityMeaning | backend/services/pubsub.py:153-159 | an unknown peer starts at 0; failure adds 1; success subtracts 1 floored at 0, so counts are never negative; other peers are unchanged |
| PubSubs.AdjustedChunkBounds | backend/services/pubsub.py:53-57 | success never exceeds 50 and failure never goes below 5; the bounds are kept; the initial 100 starts above the maximum |
| PubSubs.ChunkStaysWithin | backend/services/pubsub.py:161-165 | the adjusted chunk stays within any width of at least the maximum |
| PubSubs.FetchesDisjoint | backend/services/pubsub.py:274-289 | a successful fetch ends before any later fetch starts |
| PubSubs.FetchNext | backend/services/pubsub.py:278-289 | the start moves to a fetch's end only on success |
| PubSubs.NextStartGrows | backend/services/pubsub.py:274-289 | the start never goes backwards |
| PubSubs.BlocksToSendMeaning | backend/services/pubsub.py:463-472 | with one peer the reply is chain[1:]; otherwise it is chain[start:min(start+chunk, len)], empty past the end and never longer than a chunk |
| PubSubs.AdmitTxMeaning | backend/services/pubsub.py:362-386 | a known id is replaced only by a valid, strictly newer transaction; an unknown id is added only if valid and not processed, and it is then marked processed; otherwise nothing changes |
| PubSubs.BatchNothingAdded | backend/services/pubsub.py:421-441 | a batch that adds nothing leaves the pool and processed set as they were |
| PubSubs.BatchProcessedGrows | backend/services/pubsub.py:427-437 | the processed set only grows, and every id it gains is in the pool |
| PubSubs.ChainLengthRequestMeaning | backend/services/pubsub.py:456-461 | blocks are requested, from the local length, exactly when the peer is longer and no sync runs |
| PubSubs.PubSub.constructor | backend/services/pubsub.py:32-57 | no peers or reliability counts, chunk size CHUNK_SIZE, not syncing, nothing processed |
| PubSubs.PubSub.UpdatePeerReliability | backend/services/pubsub.py:153-159 | only the reliability map changes, as Reliability says |
| PubSubs.PubSub.AdjustChunkSize | backend/services/pubsub.py:161-165 | only the chunk size changes, as AdjustedChunk says |
| PubSubs.ReliabilityTwice | backend/services/pubsub.py:153-159 | two updates of the same peer move its count twice and leave the other peers alone |
| PubSubs.ParseBlocksMeaning | backend/services/pubsub.py:205 | the block list parses exactly when every dict passes from_json, into those blocks in order; otherwise the error is one of theirs |
| PubSubs.FailureCountsTwice | backend/services/pubsub.py:206-288 | one failed fetch from the initial chunk size 100 leaves a chunk of 90 and raises the peer's count by 2 |
| PubSubs.EmptyDeliveryUndone | backend/services/pubsub.py:203-288 | a 200 reply with no blocks lowers the count (floored at 0) and raises it again, and grows the chunk (capped at 50) then shrinks it (floored at 5) |
| PubSubs.PeerCountsMeaning | backend/services/pubsub.py:276-288 | the chunk loop drops no peer's count and changes no peer's but the selected one, whose count is CountAfter of the replies |
| PubSubs.ReplyChunkWithin | backend/services/pubsub.py:161-165 | one reply's two chunk adjustments keep the size within any width of at least the maximum |
| PubSubs.TraceEnds | backend/services/pubsub.py:276-279 | each fetch's range is as wide as the chunk size after the replies before it, unless cut at longest_length (RangesSized) |
| PubSubs.TraceCounts | backend/services/pubsub.py:276-288 | the loop's chunk size and peer counts are ChunkAfter and PeerCounts of the consumed replies |
| PubSubs.TraceMeaning | backend/services/pubsub.py:276-288 | the chunk size and count before the k-th fetch are ChunkAfter and CountAfter of the first k replies |
| PubSubs.PubSub.FetchBlocksFromPeer | backend/services/pubsub.py:199-217 | a status-200 reply whose every dict parses returns those blocks and counts as a success for the peer count and the chunk size; any other status, a parse error or no response returns [] and counts as a failure; nothing else changes |
| PubSubs.PubSub.FetchAndAdjust | backend/services/pubsub.py:279-288 | one pass of the loop body: the fetch's own updates followed by the loop's updates by whether blocks came back |
| PubSubs.PubSub.SyncChunks | backend/services/pubsub.py:274-289 | the requested ranges are contiguous from the local length, non-empty and within longest_length; the k-th range is min(start + s_k, longest) (RangesSized) where s_k is the chunk size after the first k replies, each reply adjusting it twice; a range succeeds exactly when its reply returned blocks; the missing blocks are the returned blocks in order; the loop stops at longest_length; the final chunk size is that after all consumed replies, and the final counts are the selected peer's count moved twice per reply, every other peer unchanged |
| PubSubs.PubSub.OnChainLength | backend/services/pubsub.py:456-461 | the request follows ChainLengthRequest and sets the syncing flag |
| PubSubs.PubSub.OnNewTx | backend/services/pubsub.py:358-386 | an unparsable message changes nothing; otherwise the pool and processed set follow AdmitTx, an admitted transaction is relayed, and a pool request is made after the cooldown |
| PubSubs.PubSub.OnTxPool | backend/services/pubsub.py:417-444 | ignored unless tx_pool_syncing; otherwise the batch is admitted in order, the count is the number added, and syncing stops when nothing was added |

## Left out

- The Python backend has no password-encrypted key vault or session re-unlock, so this model has none.
- SHA-256, `json.dumps`/`str()` text, Web3 `recover_message`, ECDSA signing, verification and key derivation, and PEM serialisation are parameters, not modelled. `derive_private_key`'s upper range check is not modelled.
- Networking, `asyncio`, broadcasts, DuckDB persistence, gzip and `peers.json` in `backend/services/pubsub.py` are left out. A handler's outgoing message is its return value; a peer's reply is a parameter.
- `time.time_ns()`/`time.time()` are a `clock` sequence or a `now` parameter, and `uuid4` is a `freshId` parameter. `calculate_difficulty` (backend/models/blockchain.py:164-174) reads the wall clock and is not called by the core; it is not modelled.
- Blocks.MineBlock: the nonce search ends after the given clock readings, giving NonceSearchExhausted; the source loops until a hash meets the target.
- PubSubs.PubSub.SyncChunks: models the chunk loop of sync_with_peers over a finite sequence of peer replies; the source retries without bound and sleeps a second between retries. Also not modelled: loading from the database, peer selection with the reliability filter, the single-peer full-chain path, and the final replace_chain/clear step (those are ReplaceChain and ClearBlockchainTransactions).
- PubSubs.PubSub.FetchBlocksFromPeer: the HTTP request itself is not modelled; the reply arrives as a parameter, and a connection error or a body that does not decode to a list of block dicts is the single NoResponse case.
- The RESPONSE_CHAIN, RESPONSE_BLOCKS, NEW_BLOCK, PEER_LIST and request handlers of handle_message are left out. They are sockets around replace_chain and clear_blockchain_transactions, which are modelled.
- Route glue is left out: `route_mine`, `route_transactions` and `route_clear_transactions` (thin wrappers over TransactionData and ClearBlockchainTransactions), the `block_fullness` ratios, `/blockchain`, `/blockchain/height`, the hash and transaction lookups by block, `/fee-rate` and the wallet routes. So are FastAPI wiring, pydantic schemas, `main.py` and the Tauri launcher.
- Floating-point rounding: amounts are exact reals, and the 1e-9 tolerances are exact comparisons. The comparisons `abs(...) < 0` can never hold and are no-ops.
- Python dict order is modelled only where the source depends on it:
  - the mempool keeps its insertion order;
  - an output dict is an ordered list of entries;
  - the UTXO set is a map, and sums over it are order-free.
- `_create_input` (backend/models/transaction.py:105-151), which selects the wallet's UTXOs, is the `createInput` parameter of Transactions.New.
- Transactions.FromJson: a JSON value is either a number or something `float()` rejects; strings that `float()` parses are not distinguished from numbers.
- Transactions.FromJson: a non-bool is_coinbase is read by its truth value; the source keeps the raw value on the object and writes it back in to_json, while the model stores the bool. A non-string id is not modelled.
- Transactions.Lower: `str.lower()` is modelled on ASCII letters only; Unicode case mappings are not modelled, so a sender with a non-ASCII letter that Python lower-cases to an ASCII one (such as U+212A KELVIN SIGN) is compared differently; one side of the comparison is always the recovered address, an ASCII hex string.
- Wallets.FromPrivateKeyHex: accepts only bare hex digits of either case; `int(s, 16)` also allows a sign, whitespace, underscores and a "0x" prefix.
- Wallets.PadHexMeaning: stated for widths of at least one; with width 0, `format(0, '00x')` still writes "0".
- `Wallet.pending_spends` (backend/models/wallet.py:154-163) is the same loop as the pool's static `pending_spends`. TransactionPools.PendingSpends models both.
- `GENESIS_DATA` (backend/models/block.py:9-51) is never used. `backend/services/backupp2p.py` is a stale copy of the PubSub service. Neither is modelled.
- Chains.Blockchain.AddBlock: uses the corrected coinbase rule, which adds a coinbase whenever none was kept, including for the first block after genesis; blockchain.py:53 adds one only when the last block's height is above 0, and Chains.FirstBlockLacksCoinbase shows what that does.
- Blocks.FromJson: a null merkle_root gets the root of the block's data computed, as the corrected constructor does; the source passes None on to the constructor (block.py:188), whose call at block.py:64 raises TypeError, as Blocks.NewBlockWithoutMerkleRootFails shows.
- Chains.Blockchain.UpdateUtxoSet: a prev_tx_ids that is not a list skips the transaction, as the source's TypeError does for a number or null; a string or dict would be iterated by character or key before the output is recorded, which the model cannot express because it keeps no contents for such a value (is_valid rejects such inputs in any case).
- TransactionRoutes.Describe: a timestamp present but null falls back to the candidate's fallback time; the source's `.get` returns None, and sorting a list that mixes None with numbers (backend/routers/transaction.py:62, 74) raises TypeError.

## Findings

| source | as written | input that shows it | evidently intended | confidence | as-written member | corrected member |
|---|---|---|---|---|---|---|
| backend/models/block.py:64 | When `merkle_root` is None, the constructor calls the static `calculate_merkle_root()` without its `data` argument, so it raises TypeError | `Block(1, 'h', 'x', [], 1, 0)`, or `Block.from_json` of a dict whose merkle_root is null | compute the root of the block's own data | not executed | Blocks.NewBlockWithoutMerkleRootFails | Blocks.NewBlockIntendedComputesRoot |
| backend/models/blockchain.py:53 | `add_block` adds a coinbase only when `last_block.height > 0`, so the block after genesis gets none and then fails `is_valid_block`'s missing-coinbase check (block.py:253-254) | `add_block([])` on a fresh chain | add the coinbase whenever none was kept | not executed | Chains.FirstBlockLacksCoinbase | Chains.WithCoinbaseFirstBlock |
