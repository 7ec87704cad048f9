/** The Block class of backend/models/block.py: construction and validation, the JSON forms, the
    Merkle root, difficulty adjustment, mining and is_valid_block. */
module Blocks {
  import opened Wrappers
  import opened Config
  import opened Hex
  import opened CryptoHash
  import opened Transactions

  /** An argument of crypto_hash, as the block code passes them. */
  datatype HashArg = IntArg(i: int) | StrArg(s: string) | DataArg(d: seq<TxJson>) | StrListArg(l: seq<string>)

  /** What the model does not interpret: crypto_hash on the block's arguments (a function whose
      every result is a hex digest; IsCryptoHash ties it to the CryptoHash model); json.dumps of a
      transaction dict (the form the Merkle leaves hash); the UTF-8 byte length of json.dumps(data);
      and what the transaction code leaves open, with the uuid4 the Transaction constructor draws
      for an empty id. */
  datatype BlockEnv = BlockEnv(
    hash: Digest<seq<HashArg>>,
    txText: TxJson -> string,
    dataBytes: seq<TxJson> -> nat,
    tx: TxEnv,
    freshId: string)

  function H(env: BlockEnv, args: seq<HashArg>): (r: string)
    ensures IsHexDigest(r)
  {
    env.hash(args)
  }

  /** env.hash is crypto_hash built from this SHA-256 and this json.dumps. */
  ghost predicate IsCryptoHash(env: BlockEnv, sha: Digest<string>, dumps: HashArg -> string)
  {
    forall args :: env.hash(args) == Hash(sha, dumps, args)
  }

  datatype Block = Block(
    timestamp: int,
    lastHash: string,
    hash: string,
    data: seq<TxJson>,
    difficulty: nat,
    nonce: int,
    height: nat,
    version: int,
    merkleRoot: string,
    txCount: int)

  /** What validate_block establishes for every Block object. */
  predicate Valid(b: Block)
  {
    b.difficulty >= 1 && b.txCount == |b.data|
  }

  datatype BlockError =
    | MerkleRootArgumentMissing
    | NegativeHeight
    | TxCountMismatch
    | MissingField(name: string)
    | SizeLimitExceeded
    | NonceSearchExhausted
    | LastHashMismatch
    | HashNotHex
    | ProofOfWorkNotMet
    | DifficultyJump
    | BadHeight
    | BadMerkleRoot
    | HashMismatch
    | BadTransaction(e: TxError)
    | MultipleCoinbase
    | CoinbaseExceedsReward
    | MissingCoinbase

  // ---------- the Merkle root ----------

  /** crypto_hash(json.dumps(tx, sort_keys=True, ...)). */
  function Leaf(env: BlockEnv, tx: TxJson): string
  {
    H(env, [StrArg(env.txText(tx))])
  }

  function Leaves(env: BlockEnv, data: seq<TxJson>): (r: seq<string>)
    ensures |r| == |data| && forall i :: 0 <= i < |data| ==> r[i] == Leaf(env, data[i])
  {
    seq(|data|, i requires 0 <= i < |data| => Leaf(env, data[i]))
  }

  /** crypto_hash(hashes[i] + hashes[i + 1]). */
  function Pair(env: BlockEnv): (string, string) -> string
  {
    (a: string, b: string) => H(env, [StrArg(a + b)])
  }

  /** One round of the while loop, for any pairing function: neighbours paired, an odd last hash
      carried up unchanged. */
  function Level(pair: (string, string) -> string, hs: seq<string>): (r: seq<string>)
    ensures |r| == (|hs| + 1) / 2
  {
    if |hs| <= 1 then hs else [pair(hs[0], hs[1])] + Level(pair, hs[2..])
  }

  /** Rounds until one hash is left. */
  function Fold(pair: (string, string) -> string, hs: seq<string>): string
    requires |hs| >= 1
    decreases |hs|
  {
    if |hs| == 1 then hs[0] else Fold(pair, Level(pair, hs))
  }

  /** calculate_merkle_root(data). */
  function MerkleRoot(env: BlockEnv, data: seq<TxJson>): string
  {
    if data == [] then H(env, [StrArg("")]) else Fold(Pair(env), Leaves(env, data))
  }

  /** Entry k of a round is the pair hash of positions 2k and 2k+1, or the carried hash at 2k. */
  lemma {:induction false} LevelAt(pair: (string, string) -> string, hs: seq<string>, k: nat)
    requires k < (|hs| + 1) / 2
    ensures Level(pair, hs)[k] == if 2 * k + 1 < |hs| then pair(hs[2 * k], hs[2 * k + 1]) else hs[2 * k]
  {
    if |hs| > 1 && k > 0 {
      LevelAt(pair, hs[2..], k - 1);
    }
  }

  lemma {:induction false} LevelSplit(pair: (string, string) -> string, a: seq<string>, b: seq<string>)
    requires |a| % 2 == 0
    ensures Level(pair, a + b) == Level(pair, a) + Level(pair, b)
    decreases |a|
  {
    if a == [] {
      assert a + b == b;
    } else {
      assert (a + b)[2..] == a[2..] + b;
      LevelSplit(pair, a[2..], b);
    }
  }

  /** The Merkle root of no data is crypto_hash(''); that of one transaction is its leaf hash. */
  lemma MerkleRootSmall(env: BlockEnv, tx: TxJson)
    ensures MerkleRoot(env, []) == H(env, [StrArg("")])
    ensures MerkleRoot(env, [tx]) == Leaf(env, tx)
  {
  }

  lemma {:induction false} LevelDigests(pair: (string, string) -> string, hs: seq<string>)
    requires forall a, b :: IsHexDigest(pair(a, b))
    requires forall i :: 0 <= i < |hs| ==> IsHexDigest(hs[i])
    ensures forall i :: 0 <= i < |Level(pair, hs)| ==> IsHexDigest(Level(pair, hs)[i])
  {
    forall k | 0 <= k < |Level(pair, hs)| ensures IsHexDigest(Level(pair, hs)[k]) {
      LevelAt(pair, hs, k);
    }
  }

  lemma {:induction false} FoldDigest(pair: (string, string) -> string, hs: seq<string>)
    requires forall a, b :: IsHexDigest(pair(a, b))
    requires |hs| >= 1 && forall i :: 0 <= i < |hs| ==> IsHexDigest(hs[i])
    ensures IsHexDigest(Fold(pair, hs))
    decreases |hs|
  {
    if |hs| > 1 {
      LevelDigests(pair, hs);
      FoldDigest(pair, Level(pair, hs));
    }
  }

  /** The root is always a SHA-256 hex digest. */
  lemma MerkleRootIsDigest(env: BlockEnv, data: seq<TxJson>)
    ensures IsHexDigest(MerkleRoot(env, data))
  {
    if data != [] {
      FoldDigest(Pair(env), Leaves(env, data));
    }
  }

  /** Block.calculate_merkle_root: hash the transactions, then rebuild the list level by level. */
  method CalculateMerkleRoot(data: seq<TxJson>, env: BlockEnv) returns (root: string)
    ensures root == MerkleRoot(env, data)
  {
    if data == [] {
      return H(env, [StrArg("")]);
    }
    var pair := Pair(env);
    var hashes: seq<string> := [];
    var i := 0;
    while i < |data|
      invariant 0 <= i <= |data|
      invariant |hashes| == i && forall k :: 0 <= k < i ==> hashes[k] == Leaf(env, data[k])
    {
      hashes := hashes + [Leaf(env, data[i])];
      i := i + 1;
    }
    assert hashes == Leaves(env, data);
    while |hashes| > 1
      invariant |hashes| >= 1
      invariant Fold(pair, hashes) == MerkleRoot(env, data)
      decreases |hashes|
    {
      hashes := PairUp(pair, hashes);
    }
    root := hashes[0];
  }

  /** One pass of the for loop over range(0, len(hashes), 2). */
  method PairUp(pair: (string, string) -> string, hashes: seq<string>) returns (temp: seq<string>)
    ensures temp == Level(pair, hashes)
  {
    temp := [];
    var j := 0;
    while j < |hashes|
      invariant 0 <= j <= |hashes| + 1 && j % 2 == 0
      invariant j <= |hashes| ==> temp == Level(pair, hashes[..j])
      invariant j == |hashes| + 1 ==> temp == Level(pair, hashes)
    {
      if j + 1 < |hashes| {
        assert hashes[..j + 2] == hashes[..j] + [hashes[j], hashes[j + 1]];
        LevelSplit(pair, hashes[..j], [hashes[j], hashes[j + 1]]);
        temp := temp + [pair(hashes[j], hashes[j + 1])];
      } else {
        assert hashes == hashes[..j] + [hashes[j]];
        LevelSplit(pair, hashes[..j], [hashes[j]]);
        temp := temp + [hashes[j]];
      }
      j := j + 2;
    }
    if j == |hashes| {
      assert hashes[..j] == hashes;
    }
  }

  // ---------- construction ----------

  /** Block(...) as written: a missing merkle_root calls the static calculate_merkle_root without its
      `data` argument, which raises TypeError. */
  function NewBlock(timestamp: int, lastHash: string, hash: string, data: seq<TxJson>, difficulty: int, nonce: int,
                    height: Option<int>, version: Option<int>, merkleRoot: Option<string>, txCount: Option<int>)
    : (r: Result<Block, BlockError>)
    ensures merkleRoot.None? ==> r == Err(MerkleRootArgumentMissing)
    ensures merkleRoot.Some? ==>
      r == Construct(timestamp, lastHash, hash, data, difficulty, nonce, height, version, merkleRoot.value, txCount)
  {
    if merkleRoot.None? then Err(MerkleRootArgumentMissing)
    else Construct(timestamp, lastHash, hash, data, difficulty, nonce, height, version, merkleRoot.value, txCount)
  }

  /** Block(...) as evidently intended: a missing merkle_root is computed from the data. */
  function NewBlockIntended(timestamp: int, lastHash: string, hash: string, data: seq<TxJson>, difficulty: int, nonce: int,
                            height: Option<int>, version: Option<int>, merkleRoot: Option<string>, txCount: Option<int>,
                            env: BlockEnv)
    : (r: Result<Block, BlockError>)
    ensures r.Ok? <==> GetOr(height, 0) >= 0 && GetOr(txCount, |data|) == |data|
    ensures r.Ok? ==> r.value.merkleRoot == (if merkleRoot.Some? then merkleRoot.value else MerkleRoot(env, data))
    ensures merkleRoot.Some? ==> r == NewBlock(timestamp, lastHash, hash, data, difficulty, nonce, height, version, merkleRoot, txCount)
  {
    Construct(timestamp, lastHash, hash, data, difficulty, nonce, height, version,
              if merkleRoot.Some? then merkleRoot.value else MerkleRoot(env, data), txCount)
  }

  /** The rest of the constructor and validate_block: difficulty clamped to at least 1, defaults for
      height (0), version (1) and tx_count (len(data)), then the checks. */
  function Construct(timestamp: int, lastHash: string, hash: string, data: seq<TxJson>, difficulty: int, nonce: int,
                     height: Option<int>, version: Option<int>, merkleRoot: string, txCount: Option<int>)
    : (r: Result<Block, BlockError>)
    ensures r.Ok? ==> Valid(r.value)
    ensures r.Ok? <==> GetOr(height, 0) >= 0 && GetOr(txCount, |data|) == |data|
    ensures GetOr(height, 0) < 0 ==> r == Err(NegativeHeight)
    ensures r.Ok? ==>
      r.value.difficulty == (if difficulty < 1 then 1 else difficulty)
      && r.value.height == GetOr(height, 0) && r.value.version == GetOr(version, 1)
      && r.value.merkleRoot == merkleRoot && r.value.txCount == |data|
      && r.value.timestamp == timestamp && r.value.lastHash == lastHash && r.value.hash == hash
      && r.value.data == data && r.value.nonce == nonce
  {
    var d := if difficulty < 1 then 1 else difficulty;
    var h := GetOr(height, 0);
    var v := GetOr(version, 1);
    var n := GetOr(txCount, |data|);
    if h < 0 then Err(NegativeHeight)
    else if n != |data| then Err(TxCountMismatch)
    else Ok(Block(timestamp, lastHash, hash, data, d, nonce, h, v, merkleRoot, n))
  }

  // ---------- to_json / from_json ----------

  /** A block dict. The required members (read with block_json[...]) are None when missing. */
  datatype BlockJson = BlockJson(
    timestamp: Option<int>,
    lastHash: Option<string>,
    hash: Option<string>,
    data: Option<seq<TxJson>>,
    difficulty: Option<int>,
    nonce: Option<int>,
    height: Option<int>,
    version: Option<int>,
    merkleRoot: Field<string>,
    txCount: Option<int>)

  function ToJson(b: Block): BlockJson
  {
    BlockJson(Some(b.timestamp), Some(b.lastHash), Some(b.hash), Some(b.data), Some(b.difficulty), Some(b.nonce),
              Some(b.height), Some(b.version), Present(b.merkleRoot), Some(|b.data|))
  }

  /** Block.from_json: the required members in order (a missing one raises KeyError), then the
      defaults; merkle_root defaults to 64 zeros when missing, and an explicit null reaches the
      constructor, which is taken as intended (it computes the root). */
  function FromJson(j: BlockJson, env: BlockEnv): (r: Result<Block, BlockError>)
    ensures j.timestamp.None? ==> r == Err(MissingField("timestamp"))
    ensures r.Ok? ==> Valid(r.value)
    ensures r.Ok? && j.merkleRoot.Missing? ==> r.value.merkleRoot == Zeros(64)
    ensures r.Ok? && j.merkleRoot.Null? ==> r.value.merkleRoot == MerkleRoot(env, r.value.data)
  {
    if j.timestamp.None? then Err(MissingField("timestamp"))
    else if j.lastHash.None? then Err(MissingField("last_hash"))
    else if j.hash.None? then Err(MissingField("hash"))
    else if j.data.None? then Err(MissingField("data"))
    else if j.difficulty.None? then Err(MissingField("difficulty"))
    else if j.nonce.None? then Err(MissingField("nonce"))
    else
      var merkle := match j.merkleRoot case Missing => Some(Zeros(64)) case Null => None case Present(m) => Some(m);
      NewBlockIntended(j.timestamp.value, j.lastHash.value, j.hash.value, j.data.value, j.difficulty.value, j.nonce.value,
                       Some(GetOr(j.height, 0)), Some(GetOr(j.version, 1)), merkle, Some(GetOr(j.txCount, |j.data.value|)),
                       env)
  }

  /** Every Block object survives to_json and from_json unchanged. */
  lemma JsonRoundTrip(b: Block, env: BlockEnv)
    requires Valid(b)
    ensures FromJson(ToJson(b), env) == Ok(b)
  {
  }

  /** Finding: Block(...) without merkle_root always fails, whatever the data. */
  lemma NewBlockWithoutMerkleRootFails(timestamp: int, lastHash: string, hash: string, data: seq<TxJson>, difficulty: int, nonce: int)
    ensures NewBlock(timestamp, lastHash, hash, data, difficulty, nonce, None, None, None, None).Err?
  {
  }

  /** The intended constructor fills the root in, so the block passes the Merkle check of is_valid_block. */
  lemma NewBlockIntendedComputesRoot(timestamp: int, lastHash: string, hash: string, data: seq<TxJson>, difficulty: int,
                                     nonce: int, env: BlockEnv)
    ensures NewBlockIntended(timestamp, lastHash, hash, data, difficulty, nonce, None, None, None, None, env)
      == Ok(Block(timestamp, lastHash, hash, data, if difficulty < 1 then 1 else difficulty, nonce, 0, 1,
                  MerkleRoot(env, data), |data|))
  {
  }

  // ---------- genesis ----------

  const GENESIS_TX_ID: string := "genesis_initial_tx"
  const GENESIS_ADDRESS: string := "0xb169392F5D2EbC032cF6afc4645159eE2033C397"

  const GenesisInput: Input := Input(Some(1746597308686237000), Some("coinbase"), Some("coinbase"), Some("coinbase"),
                                     None, None, Some(0.0), Some(0), Some(50), Some("Initial funding"), PrevAbsent)

  /** The transaction Block.genesis builds. */
  function GenesisTx(env: BlockEnv): (t: Tx)
    ensures t.id == GENESIS_TX_ID && t.isCoinbase && t.output == [Entry(GENESIS_ADDRESS, 50.0)]
    ensures IsValid(t, None, None, env.tx) == Pass
  {
    var r := New(TxArgs(None, None, None, None, Some(GENESIS_TX_ID), Some([Entry(GENESIS_ADDRESS, 50.0)]), Some(GenesisInput),
                        true, DEFAULT_FEE_RATE, None), env.freshId, _ => Err(InputCreationFailed), env.tx);
    r.value
  }

  /** Block.genesis(). */
  function Genesis(env: BlockEnv): (b: Block)
    ensures Valid(b) && b.height == 0 && b.data == [Transactions.ToJson(GenesisTx(env))]
  {
    var tx := GenesisTx(env);
    Block(1, "genesis_last_hash", H(env, [IntArg(1), StrArg("genesis_last_hash"), StrListArg([tx.id])]),
          [Transactions.ToJson(tx)], 3, 0, 0, 1, H(env, [StrArg(tx.id)]), 1)
  }

  // ---------- adjust_difficulty ----------

  /** (new_timestamp - last.timestamp) / 1_000_000_000, in seconds. */
  function Elapsed(last: Block, newTimestamp: int): real
  {
    (newTimestamp - last.timestamp) as real / 1000000000.0
  }

  /** Block.adjust_difficulty. */
  function AdjustDifficulty(last: Block, newTimestamp: int): (r: nat)
    ensures r == last.difficulty + 1 <==> Elapsed(last, newTimestamp) < MINRATE
    ensures r + 1 == last.difficulty <==>
      Elapsed(last, newTimestamp) >= MINRATE && last.difficulty > 1 && Elapsed(last, newTimestamp) > TARGET_BLOCK_TIME * 2.0
    ensures r == last.difficulty - 1 || r == last.difficulty || r == last.difficulty + 1
    ensures last.difficulty >= 1 ==> r >= 1
  {
    var t := Elapsed(last, newTimestamp);
    if t < MINRATE then last.difficulty + 1
    else if last.difficulty > 1 && t > TARGET_BLOCK_TIME * 2.0 then last.difficulty - 1
    else last.difficulty
  }

  // ---------- proof of work and hashing ----------

  /** hex_to_binary(hash)[:d] == '0' * d, decided digit by digit (Hex.ZeroBitsPrefixMeans). */
  predicate MeetsTarget(hash: string, d: nat)
    requires IsHex(hash)
  {
    ZeroBitsPrefix(hash, d)
  }

  /** crypto_hash over the nine header fields. */
  function HashFields(env: BlockEnv, timestamp: int, lastHash: string, data: seq<TxJson>, difficulty: int, nonce: int,
                      height: int, version: int, merkleRoot: string, txCount: int): string
  {
    H(env, HeaderArgs(timestamp, lastHash, data, difficulty, nonce, height, version, merkleRoot, txCount))
  }

  function HashOf(env: BlockEnv, b: Block): string
  {
    HashFields(env, b.timestamp, b.lastHash, b.data, b.difficulty, b.nonce, b.height, b.version, b.merkleRoot, b.txCount)
  }

  /** The arguments mine_block and is_valid_block pass to crypto_hash, in their order. */
  function HeaderArgs(timestamp: int, lastHash: string, data: seq<TxJson>, difficulty: int, nonce: int,
                      height: int, version: int, merkleRoot: string, txCount: int): (r: seq<HashArg>)
    ensures |r| == 9
  {
    [IntArg(timestamp), StrArg(lastHash), DataArg(data), IntArg(difficulty), IntArg(nonce), IntArg(height),
     IntArg(version), StrArg(merkleRoot), IntArg(txCount)]
  }

  /** crypto_hash sorts its serialised arguments, so the header hash does not tell which field
      carried which value: exchanging nonce and height, or last_hash and merkle_root, leaves it
      unchanged. */
  lemma HashIgnoresFieldRoles(sha: Digest<string>, dumps: HashArg -> string, b: Block)
    ensures Hash(sha, dumps, HeaderArgs(b.timestamp, b.lastHash, b.data, b.difficulty, b.nonce, b.height, b.version, b.merkleRoot, b.txCount))
         == Hash(sha, dumps, HeaderArgs(b.timestamp, b.merkleRoot, b.data, b.difficulty, b.height, b.nonce, b.version, b.lastHash, b.txCount))
  {
    var x := HeaderArgs(b.timestamp, b.lastHash, b.data, b.difficulty, b.nonce, b.height, b.version, b.merkleRoot, b.txCount);
    var y := HeaderArgs(b.timestamp, b.merkleRoot, b.data, b.difficulty, b.height, b.nonce, b.version, b.lastHash, b.txCount);
    var x1 := x[1 := x[7]][7 := x[1]];
    assert x1[4 := x1[5]][5 := x1[4]] == y;
    SwapMultiset(x, 1, 7);
    SwapMultiset(x1, 4, 5);
    HashOrderIndependent(sha, dumps, x, y);
  }

  lemma SwapMultiset<T>(s: seq<T>, i: nat, j: nat)
    requires i < j < |s|
    ensures multiset(s[i := s[j]][j := s[i]]) == multiset(s)
  {
    var t := s[i := s[j]][j := s[i]];
    assert s == s[..i] + [s[i]] + s[i + 1..j] + [s[j]] + s[j + 1..];
    assert t == s[..i] + [s[j]] + s[i + 1..j] + [s[i]] + s[j + 1..];
  }

  /** A transaction or its dict, as mine_block accepts them. */
  datatype DataItem = TxObject(tx: Tx) | TxDict(json: TxJson)

  function Serialize(data: seq<DataItem>): (r: seq<TxJson>)
    ensures |r| == |data|
  {
    seq(|data|, i requires 0 <= i < |data| => match data[i] case TxObject(t) => Transactions.ToJson(t) case TxDict(j) => j)
  }

  /** The block mine_block builds from the clock reading ts and the nonce. */
  function Candidate(env: BlockEnv, last: Block, data: seq<TxJson>, ts: int, nonce: int): Block
  {
    var d := AdjustDifficulty(last, ts);
    var m := MerkleRoot(env, data);
    Block(ts, last.hash, HashFields(env, ts, last.hash, data, d, nonce, last.height + 1, 1, m, |data|),
          data, d, nonce, last.height + 1, 1, m, |data|)
  }

  predicate Succeeds(env: BlockEnv, last: Block, data: seq<TxJson>, clock: seq<int>, k: nat)
    requires k < |clock|
  {
    var c := Candidate(env, last, data, clock[k], k);
    MeetsTarget(c.hash, c.difficulty)
  }

  /** Checks of is_valid_block that need no transaction: link, proof of work, difficulty step,
      height, Merkle root, size and hash, in the source's order. */
  function HeaderCheck(last: Block, b: Block, env: BlockEnv): (r: Outcome<BlockError>)
    ensures r.Pass? ==>
      b.lastHash == last.hash && IsHex(b.hash) && MeetsTarget(b.hash, b.difficulty)
      && -1 <= last.difficulty - b.difficulty <= 1 && b.height == last.height + 1
      && b.merkleRoot == MerkleRoot(env, b.data) && env.dataBytes(b.data) <= BLOCK_SIZE_LIMIT
      && b.hash == HashOf(env, b)
  {
    if b.lastHash != last.hash then Fail(LastHashMismatch)
    else if !IsHex(b.hash) then Fail(HashNotHex)
    else if !MeetsTarget(b.hash, b.difficulty) then Fail(ProofOfWorkNotMet)
    else if last.difficulty - b.difficulty > 1 || b.difficulty - last.difficulty > 1 then Fail(DifficultyJump)
    else if b.height != last.height + 1 then Fail(BadHeight)
    else if b.merkleRoot != MerkleRoot(env, b.data) then Fail(BadMerkleRoot)
    else if env.dataBytes(b.data) > BLOCK_SIZE_LIMIT then Fail(SizeLimitExceeded)
    else if HashOf(env, b) != b.hash then Fail(HashMismatch)
    else Pass
  }

  /** A candidate that meets its target passes every header check of is_valid_block against the
      block it extends, provided the data fits the size limit. */
  lemma CandidatePassesHeader(env: BlockEnv, last: Block, data: seq<TxJson>, ts: int, nonce: int)
    requires Valid(last) && env.dataBytes(data) <= BLOCK_SIZE_LIMIT
    requires var c := Candidate(env, last, data, ts, nonce); MeetsTarget(c.hash, c.difficulty)
    ensures var c := Candidate(env, last, data, ts, nonce);
      Valid(c) && HeaderCheck(last, c, env) == Pass && c.height == last.height + 1 && c.lastHash == last.hash
  {
  }

  /** The nonce search from nonce k on: the first candidate that meets its target. */
  function SearchFrom(env: BlockEnv, last: Block, data: seq<TxJson>, clock: seq<int>, k: nat): Result<Block, BlockError>
    decreases |clock| - k
  {
    if k >= |clock| then Err(NonceSearchExhausted)
    else if Succeeds(env, last, data, clock, k) then Ok(Candidate(env, last, data, clock[k], k))
    else SearchFrom(env, last, data, clock, k + 1)
  }

  /** What mine_block computes: the size check, then the search from nonce 0. */
  function Mine(env: BlockEnv, last: Block, data: seq<DataItem>, clock: seq<int>): Result<Block, BlockError>
  {
    if env.dataBytes(Serialize(data)) > BLOCK_SIZE_LIMIT then Err(SizeLimitExceeded)
    else SearchFrom(env, last, Serialize(data), clock, 0)
  }

  /** The search returns the first nonce from k on whose candidate meets the target, or reports
      that none of the remaining readings gives one. */
  lemma {:induction false} SearchFromFindsFirst(env: BlockEnv, last: Block, data: seq<TxJson>, clock: seq<int>, k: nat)
    ensures var r := SearchFrom(env, last, data, clock, k);
      (r.Ok? ==> k <= r.value.nonce < |clock| && r.value == Candidate(env, last, data, clock[r.value.nonce], r.value.nonce)
                 && Succeeds(env, last, data, clock, r.value.nonce)
                 && forall j :: k <= j < r.value.nonce ==> !Succeeds(env, last, data, clock, j))
      && (r.Err? ==> r == Err(NonceSearchExhausted) && forall j :: k <= j < |clock| ==> !Succeeds(env, last, data, clock, j))
    decreases |clock| - k
  {
    if k < |clock| && !Succeeds(env, last, data, clock, k) {
      SearchFromFindsFirst(env, last, data, clock, k + 1);
    }
  }

  /** mine_block either rejects oversized data, or runs out of clock readings having found no
      nonce, or returns the block of the first nonce that works, and that block is accepted by
      is_valid_block's header checks as the successor of the last block. */
  lemma MineMeaning(env: BlockEnv, last: Block, data: seq<DataItem>, clock: seq<int>)
    requires Valid(last)
    ensures var r := Mine(env, last, data, clock);
      (env.dataBytes(Serialize(data)) > BLOCK_SIZE_LIMIT ==> r == Err(SizeLimitExceeded))
      && (r.Err? ==> r == Err(SizeLimitExceeded) || r == Err(NonceSearchExhausted))
      && (r == Err(NonceSearchExhausted) ==> forall j :: 0 <= j < |clock| ==> !Succeeds(env, last, Serialize(data), clock, j))
      && (r.Ok? ==> (0 <= r.value.nonce < |clock|
            && r.value == Candidate(env, last, Serialize(data), clock[r.value.nonce], r.value.nonce)
            && (forall j :: 0 <= j < r.value.nonce ==> !Succeeds(env, last, Serialize(data), clock, j))
            && Valid(r.value) && HeaderCheck(last, r.value, env) == Pass && r.value.data == Serialize(data)))
  {
    if env.dataBytes(Serialize(data)) <= BLOCK_SIZE_LIMIT {
      SearchFromFindsFirst(env, last, Serialize(data), clock, 0);
      var r := Mine(env, last, data, clock);
      if r.Ok? {
        CandidatePassesHeader(env, last, Serialize(data), clock[r.value.nonce], r.value.nonce);
      }
    }
  }

  /** Block.mine_block. `clock` is the sequence of readings time.time_ns() returns: reading k is taken
      for nonce k, and the search reports NonceSearchExhausted when the readings run out. */
  method MineBlock(last: Block, data: seq<DataItem>, clock: seq<int>, env: BlockEnv) returns (r: Result<Block, BlockError>)
    requires Valid(last)
    ensures r == Mine(env, last, data, clock)
  {
    var serialized := Serialize(data);
    if env.dataBytes(serialized) > BLOCK_SIZE_LIMIT {
      return Err(SizeLimitExceeded);
    }
    if |clock| == 0 {
      return Err(NonceSearchExhausted);
    }
    var timestamp := clock[0];
    var difficulty := AdjustDifficulty(last, timestamp);
    var nonce := 0;
    var height := last.height + 1;
    var merkleRoot := CalculateMerkleRoot(serialized, env);
    var hash := HashFields(env, timestamp, last.hash, serialized, difficulty, nonce, height, 1, merkleRoot, |data|);
    while !MeetsTarget(hash, difficulty)
      invariant 0 <= nonce < |clock| && timestamp == clock[nonce]
      invariant hash == Candidate(env, last, serialized, timestamp, nonce).hash
      invariant difficulty == Candidate(env, last, serialized, timestamp, nonce).difficulty
      invariant SearchFrom(env, last, serialized, clock, nonce) == Mine(env, last, data, clock)
      decreases |clock| - nonce
    {
      if nonce + 1 == |clock| {
        return Err(NonceSearchExhausted);
      }
      nonce := nonce + 1;
      timestamp := clock[nonce];
      difficulty := AdjustDifficulty(last, timestamp);
      hash := HashFields(env, timestamp, last.hash, serialized, difficulty, nonce, height, 1, merkleRoot, |data|);
    }
    r := Ok(Block(timestamp, last.hash, hash, serialized, difficulty, nonce, height, 1, merkleRoot, |data|));
  }

  // ---------- is_valid_block ----------

  /** The loop's accumulators: coinbase_count, coinbase_tx and total_fees. */
  datatype Scan = Scan(coinbaseCount: nat, coinbase: Option<Tx>, fees: real)

  /** One iteration: parse and validate the transaction, then count a coinbase or add the fee. */
  function ScanStep(s: Scan, j: TxJson, env: BlockEnv): Result<Scan, BlockError>
  {
    match Transactions.FromJson(j, env.freshId, env.tx)
    case Err(e) => Err(BadTransaction(e))
    case Ok(tx) =>
      match IsValid(tx, None, None, env.tx)
      case Fail(e) => Err(BadTransaction(e))
      case Pass =>
        if tx.isCoinbase then
          if s.coinbaseCount + 1 > 1 then Err(MultipleCoinbase) else Ok(Scan(s.coinbaseCount + 1, Some(tx), s.fees))
        else Ok(Scan(s.coinbaseCount, s.coinbase, s.fees + tx.fee))
  }

  function ScanAll(data: seq<TxJson>, env: BlockEnv): Result<Scan, BlockError>
  {
    if data == [] then Ok(Scan(0, None, 0.0))
    else match ScanAll(data[..|data| - 1], env)
      case Err(e) => Err(e)
      case Ok(s) => ScanStep(s, data[|data| - 1], env)
  }

  predicate IsCoinbaseJson(j: TxJson, env: BlockEnv)
  {
    var t := Transactions.FromJson(j, env.freshId, env.tx);
    t.Ok? && t.value.isCoinbase
  }

  function CoinbaseCount(data: seq<TxJson>, env: BlockEnv): nat
  {
    if data == [] then 0 else CoinbaseCount(data[..|data| - 1], env) + (if IsCoinbaseJson(data[|data| - 1], env) then 1 else 0)
  }

  /** A scan that gets through has parsed and validated every transaction, and has counted the
      coinbases, of which there is at most one. */
  lemma {:induction false} ScanAllMeaning(data: seq<TxJson>, env: BlockEnv)
    requires ScanAll(data, env).Ok?
    ensures forall i :: 0 <= i < |data| ==>
      Transactions.FromJson(data[i], env.freshId, env.tx).Ok?
      && IsValid(Transactions.FromJson(data[i], env.freshId, env.tx).value, None, None, env.tx) == Pass
    ensures ScanAll(data, env).value.coinbaseCount == CoinbaseCount(data, env) <= 1
    ensures ScanAll(data, env).value.coinbase.Some? <==> CoinbaseCount(data, env) == 1
  {
    if data != [] {
      var init := data[..|data| - 1];
      ScanAllMeaning(init, env);
      forall i | 0 <= i < |data| - 1
        ensures Transactions.FromJson(data[i], env.freshId, env.tx).Ok?
          && IsValid(Transactions.FromJson(data[i], env.freshId, env.tx).value, None, None, env.tx) == Pass
      {
        assert data[i] == init[i];
      }
    }
  }

  /** is_valid_block(last_block, block): Pass where it returns, the error where it raises. */
  function BlockValidity(last: Block, b: Block, env: BlockEnv): (r: Outcome<BlockError>)
    ensures r.Pass? ==> HeaderCheck(last, b, env) == Pass && ScanAll(b.data, env).Ok?
    ensures r.Pass? ==> CoinbaseCount(b.data, env) == 1
    ensures r.Pass? ==> var s := ScanAll(b.data, env).value;
      s.coinbase.Some? && Total(s.coinbase.value.output) <= Subsidy(b.height) as real + s.fees
  {
    var header := HeaderCheck(last, b, env);
    if header.Fail? then header
    else match ScanAll(b.data, env)
      case Err(e) => Fail(e)
      case Ok(s) =>
        if s.coinbase.Some? && Total(s.coinbase.value.output) > Subsidy(b.height) as real + s.fees then
          Fail(CoinbaseExceedsReward)
        else if s.coinbaseCount == 0 && b.height > 0 then Fail(MissingCoinbase)
        else
          ScanAllMeaning(b.data, env);
          Pass
  }

  /** Block.is_valid_block: the header checks, then one pass over the transactions. */
  method IsValidBlock(last: Block, b: Block, env: BlockEnv) returns (r: Outcome<BlockError>)
    ensures r == BlockValidity(last, b, env)
  {
    r := HeaderCheck(last, b, env);
    if r.Fail? {
      return;
    }
    var scan := Scan(0, None, 0.0);
    var i := 0;
    while i < |b.data|
      invariant 0 <= i <= |b.data|
      invariant ScanAll(b.data[..i], env) == Ok(scan)
    {
      ScanAllExtend(b.data, i, env);
      var next := ScanStep(scan, b.data[i], env);
      if next.Err? {
        BadPrefix(b.data, i + 1, env);
        return Fail(next.error);
      }
      scan := next.value;
      i := i + 1;
    }
    assert b.data[..i] == b.data;
    if scan.coinbase.Some? {
      var subsidy := Subsidy(b.height) as real;
      var totalOutput := TotalOf(scan.coinbase.value.output);
      if totalOutput > subsidy + scan.fees {
        return Fail(CoinbaseExceedsReward);
      }
    }
    if scan.coinbaseCount == 0 && b.height > 0 {
      return Fail(MissingCoinbase);
    }
    return Pass;
  }

  /** sum(v for k, v in output.items()). */
  method TotalOf(out: Output) returns (total: real)
    ensures total == Total(out)
  {
    total := 0.0;
    var i := |out|;
    while i > 0
      invariant 0 <= i <= |out|
      invariant total == Total(out[i..])
    {
      i := i - 1;
      assert out[i..][1..] == out[i + 1..];
      total := out[i].amount + total;
    }
  }

  lemma ScanAllExtend(data: seq<TxJson>, i: nat, env: BlockEnv)
    requires i < |data| && ScanAll(data[..i], env).Ok?
    ensures ScanAll(data[..i + 1], env) == ScanStep(ScanAll(data[..i], env).value, data[i], env)
  {
    assert data[..i + 1][..i] == data[..i];
  }

  /** A failure in the first k transactions fails the whole scan with the same error. */
  lemma {:induction false} BadPrefix(data: seq<TxJson>, k: nat, env: BlockEnv)
    requires 0 < k <= |data| && ScanAll(data[..k], env).Err?
    ensures ScanAll(data, env) == ScanAll(data[..k], env)
    decreases |data|
  {
    if k < |data| {
      assert data[..|data| - 1][..k] == data[..k];
      BadPrefix(data[..|data| - 1], k, env);
    } else {
      assert data[..k] == data;
    }
  }
}
