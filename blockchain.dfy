/** The Blockchain class of backend/models/blockchain.py: the chain, its unspent-output set and its
    height, with add_block, update_utxo_set, rebuild_utxo_set, replace_chain, is_valid_chain,
    calculate_total_subsidy and calculate_balance. */
module Chains {
  import opened Wrappers
  import opened Config
  import opened Sums
  import opened Transactions
  import opened Utxos
  import Blocks
  import TransactionPools

  /** Why a chain operation raises. */
  datatype ChainError =
    | NotLonger                                   // replace_chain: the new chain is not longer
    | InvalidGenesis                              // is_valid_chain: empty, or another first block
    | BadBlock(index: nat, e: Blocks.BlockError)  // is_valid_block rejects block index
    | WrongHeight(index: nat)
    | BadTransaction(height: nat, fault: TxFault) // a transaction of the block at that height
    | MissingCoinbaseAt(index: nat)
    | RebuildFailed(fault: TxFault)
    | NoTransactions                              // add_block: nothing to mine above the genesis
    | MiningFailed(e: Blocks.BlockError)

  /** What the chain checks consult, kept as values: Transaction.from_json, Transaction.is_valid
      without chain or pool, Block.is_valid_block, and the JSON of Block.genesis(). */
  datatype Rules = Rules(
    parse: TxJson -> Result<Tx, TxError>,
    check: Tx -> Outcome<TxError>,
    blockCheck: (Blocks.Block, Blocks.Block) -> Outcome<Blocks.BlockError>,
    genesis: Blocks.BlockJson)

  function StandardRules(env: Blocks.BlockEnv): Rules
  {
    Rules(TransactionPools.Parser(env), tx => IsValid(tx, None, None, env.tx),
          (last, b) => Blocks.BlockValidity(last, b, env), Blocks.ToJson(Blocks.Genesis(env)))
  }

  /** is_valid_chain passes the pool to is_valid for the last block only, but without a chain
      is_valid never looks at the pool, so the rules need no pool. */
  lemma IsValidIgnoresPool(tx: Tx, pool: Option<Pool>, env: TxEnv)
    ensures IsValid(tx, None, pool, env) == IsValid(tx, None, None, env)
  {
  }

  // ---------- is_valid_chain ----------

  /** The accumulators of is_valid_chain's transaction loop: the working unspent set and
      has_coinbase. (block_total_fees and coinbase_reward feed only the dead abs(...) < 0 test.) */
  datatype ChainScan = ChainScan(utxo: Utxo, hasCoinbase: bool)

  /** One transaction of a block, as is_valid_chain checks it. */
  function ChainTxStep(s: ChainScan, j: TxJson, rules: Rules): Result<ChainScan, TxFault>
  {
    match rules.parse(j)
    case Err(e) => Err(Unparsable(e))
    case Ok(tx) =>
      match rules.check(tx)
      case Fail(e) => Err(Invalid(e))
      case Pass =>
        if tx.isCoinbase then
          if s.hasCoinbase then Err(MultipleCoinbase)
          else if tx.output == [] then Err(EmptyCoinbaseOutput)
          else Ok(ChainScan(s.utxo, true))
        else if tx.input == EmptyInput || tx.input.address.None? || tx.input.prevTxIds.PrevAbsent? then Err(BadInput)
        else if tx.input.prevTxIds.PrevNotList? then Err(BadPrevIds)
        else match StrictSpend(s.utxo, tx.input.prevTxIds.ids, tx.input.address.value)
          case Err(e) => Err(e)
          case Ok(u) => Ok(ChainScan(u, s.hasCoinbase))
  }

  function ChainTxScan(u: Utxo, data: seq<TxJson>, rules: Rules): Result<ChainScan, TxFault>
  {
    if data == [] then Ok(ChainScan(u, false))
    else match ChainTxScan(u, data[..|data| - 1], rules)
      case Err(e) => Err(e)
      case Ok(s) => ChainTxStep(s, data[|data| - 1], rules)
  }

  /** Block i of the chain: linked to block i - 1, at height i, its transactions good in turn, a
      coinbase unless it is the genesis; then its outputs join the set. */
  function BlockStep(u: Utxo, chain: seq<Blocks.Block>, i: nat, rules: Rules): Result<Utxo, ChainError>
    requires i < |chain|
  {
    var b := chain[i];
    var linked := if i > 0 then rules.blockCheck(chain[i - 1], b) else Pass;
    if linked.Fail? then Err(BadBlock(i, linked.error))
    else if b.height != i then Err(WrongHeight(i))
    else match ChainTxScan(u, b.data, rules)
      case Err(f) => Err(BadTransaction(b.height, f))
      case Ok(s) =>
        if !s.hasCoinbase && i > 0 then Err(MissingCoinbaseAt(i))
        else Ok(AddOutputs(s.utxo, b.data, rules.parse))
  }

  /** The first n blocks, in order. */
  function BlocksUpTo(chain: seq<Blocks.Block>, n: nat, rules: Rules): Result<Utxo, ChainError>
    requires n <= |chain|
  {
    if n == 0 then Ok(map[])
    else match BlocksUpTo(chain, n - 1, rules)
      case Err(e) => Err(e)
      case Ok(u) => BlockStep(u, chain, n - 1, rules)
  }

  /** is_valid_chain(chain): Pass where it returns True, the error where it raises. */
  function ChainValidity(chain: seq<Blocks.Block>, rules: Rules): Outcome<ChainError>
  {
    if chain == [] || Blocks.ToJson(chain[0]) != rules.genesis then Fail(InvalidGenesis)
    else match BlocksUpTo(chain, |chain|, rules)
      case Err(e) => Fail(e)
      case Ok(_) => Pass
  }

  /** The i-th transaction parses to a coinbase. */
  predicate CoinbaseAt(data: seq<TxJson>, parse: TxJson -> Result<Tx, TxError>, k: nat)
    requires k < |data|
  {
    parse(data[k]).Ok? && parse(data[k]).value.isCoinbase
  }

  predicate AtMostOneCoinbase(data: seq<TxJson>, parse: TxJson -> Result<Tx, TxError>)
  {
    forall k1, k2 :: 0 <= k1 < k2 < |data| ==> !(CoinbaseAt(data, parse, k1) && CoinbaseAt(data, parse, k2))
  }

  /** A block's transactions that get through the scan all parse and validate; has_coinbase says
      whether one of them is a coinbase, and there is at most one. */
  lemma {:induction false} ChainTxScanMeaning(u: Utxo, data: seq<TxJson>, rules: Rules)
    requires ChainTxScan(u, data, rules).Ok?
    ensures forall k :: 0 <= k < |data| ==> rules.parse(data[k]).Ok? && rules.check(rules.parse(data[k]).value).Pass?
    ensures ChainTxScan(u, data, rules).value.hasCoinbase <==> exists k :: 0 <= k < |data| && CoinbaseAt(data, rules.parse, k)
    ensures AtMostOneCoinbase(data, rules.parse)
  {
    if data != [] {
      var init := data[..|data| - 1];
      ChainTxScanMeaning(u, init, rules);
      assert forall k :: 0 <= k < |init| ==> init[k] == data[k];
      assert forall k :: 0 <= k < |init| ==> (CoinbaseAt(init, rules.parse, k) <==> CoinbaseAt(data, rules.parse, k));
      if !CoinbaseAt(data, rules.parse, |data| - 1) && exists k :: 0 <= k < |data| && CoinbaseAt(data, rules.parse, k) {
        var k :| 0 <= k < |data| && CoinbaseAt(data, rules.parse, k);
        assert CoinbaseAt(init, rules.parse, k);
      }
    }
  }

  /** What every block of a prefix that gets through satisfies. */
  predicate BlockAccepted(chain: seq<Blocks.Block>, i: nat, rules: Rules)
    requires i < |chain|
  {
    chain[i].height == i && (i > 0 ==> rules.blockCheck(chain[i - 1], chain[i]).Pass?)
  }

  /** What the transactions of every block of a prefix that gets through satisfy. */
  predicate BlockTxsAccepted(chain: seq<Blocks.Block>, i: nat, rules: Rules)
    requires i < |chain|
  {
    (forall k :: 0 <= k < |chain[i].data| ==> rules.parse(chain[i].data[k]).Ok?
                                                 && rules.check(rules.parse(chain[i].data[k]).value).Pass?)
    && (i > 0 ==> exists k :: 0 <= k < |chain[i].data| && CoinbaseAt(chain[i].data, rules.parse, k))
    && AtMostOneCoinbase(chain[i].data, rules.parse)
  }

  lemma {:induction false} BlocksUpToLinks(chain: seq<Blocks.Block>, n: nat, rules: Rules)
    requires n <= |chain| && BlocksUpTo(chain, n, rules).Ok?
    ensures forall i :: 0 <= i < n ==> BlockAccepted(chain, i, rules)
  {
    if n > 0 {
      BlocksUpToLinks(chain, n - 1, rules);
    }
  }

  lemma {:induction false} BlocksUpToTxs(chain: seq<Blocks.Block>, n: nat, rules: Rules)
    requires n <= |chain| && BlocksUpTo(chain, n, rules).Ok?
    ensures forall i :: 0 <= i < n ==> BlockTxsAccepted(chain, i, rules)
  {
    if n > 0 {
      BlocksUpToTxs(chain, n - 1, rules);
      var u := BlocksUpTo(chain, n - 1, rules).value;
      ChainTxScanMeaning(u, chain[n - 1].data, rules);
    }
  }

  /** Whatever the rules, a chain they accept starts with their genesis, has heights 0, 1, 2, ...,
      links every block to its predecessor, and holds in every block transactions that parse and
      validate, exactly one of them a coinbase above the genesis. */
  lemma ChainValidityMeaning(chain: seq<Blocks.Block>, rules: Rules)
    requires ChainValidity(chain, rules).Pass?
    ensures chain != [] && Blocks.ToJson(chain[0]) == rules.genesis
    ensures forall i :: 0 <= i < |chain| ==> BlockAccepted(chain, i, rules) && BlockTxsAccepted(chain, i, rules)
  {
    BlocksUpToLinks(chain, |chain|, rules);
    BlocksUpToTxs(chain, |chain|, rules);
  }

  /** A chain is_valid_chain accepts starts with the genesis block's JSON, has heights 0, 1, 2, ...,
      each block passes is_valid_block against its predecessor, and so every non-genesis block holds
      exactly one coinbase. */
  lemma ValidChainMeaning(chain: seq<Blocks.Block>, env: Blocks.BlockEnv)
    requires ChainValidity(chain, StandardRules(env)).Pass?
    ensures chain != [] && Blocks.ToJson(chain[0]) == Blocks.ToJson(Blocks.Genesis(env))
    ensures forall i :: 0 <= i < |chain| ==> chain[i].height == i
    ensures forall i :: 0 < i < |chain| ==> Blocks.BlockValidity(chain[i - 1], chain[i], env).Pass?
    ensures forall i :: 0 < i < |chain| ==> Blocks.CoinbaseCount(chain[i].data, env) == 1
  {
    var rules := StandardRules(env);
    ChainValidityLinks(chain, rules);
    forall i | 0 < i < |chain|
      ensures Blocks.BlockValidity(chain[i - 1], chain[i], env).Pass? && Blocks.CoinbaseCount(chain[i].data, env) == 1
    {
      assert BlockAccepted(chain, i, rules);
      StandardBlockCheck(env, chain[i - 1], chain[i]);
    }
    forall i | 0 <= i < |chain| ensures chain[i].height == i {
      assert BlockAccepted(chain, i, rules);
    }
  }

  lemma ChainValidityLinks(chain: seq<Blocks.Block>, rules: Rules)
    requires ChainValidity(chain, rules).Pass?
    ensures chain != [] && Blocks.ToJson(chain[0]) == rules.genesis
    ensures forall i :: 0 <= i < |chain| ==> BlockAccepted(chain, i, rules)
  {
    BlocksUpToLinks(chain, |chain|, rules);
  }

  lemma StandardBlockCheck(env: Blocks.BlockEnv, last: Blocks.Block, b: Blocks.Block)
    ensures StandardRules(env).blockCheck(last, b) == Blocks.BlockValidity(last, b, env)
  {
  }

  lemma {:induction false} BlocksUpToStops(chain: seq<Blocks.Block>, k: nat, n: nat, rules: Rules)
    requires k <= n <= |chain| && BlocksUpTo(chain, k, rules).Err?
    ensures BlocksUpTo(chain, n, rules) == BlocksUpTo(chain, k, rules)
    decreases n
  {
    if k < n {
      BlocksUpToStops(chain, k, n - 1, rules);
    }
  }

  lemma {:induction false} ChainTxScanStops(u: Utxo, data: seq<TxJson>, k: nat, rules: Rules)
    requires k <= |data| && ChainTxScan(u, data[..k], rules).Err?
    ensures ChainTxScan(u, data, rules) == ChainTxScan(u, data[..k], rules)
    decreases |data|
  {
    if k < |data| {
      var init := data[..|data| - 1];
      assert init[..k] == data[..k];
      ChainTxScanStops(u, init, k, rules);
    } else {
      assert data[..k] == data;
    }
  }

  lemma {:induction false} StrictSpendStops(u: Utxo, ids: seq<string>, k: nat, a: string)
    requires k <= |ids| && StrictSpend(u, ids[..k], a).Err?
    ensures StrictSpend(u, ids, a) == StrictSpend(u, ids[..k], a)
    decreases |ids|
  {
    if k < |ids| {
      var init := ids[..|ids| - 1];
      assert init[..k] == ids[..k];
      StrictSpendStops(u, init, k, a);
    } else {
      assert ids[..k] == ids;
    }
  }

  lemma {:induction false} RebuildStops(a: seq<TxJson>, b: seq<TxJson>, parse: TxJson -> Result<Tx, TxError>,
                                        check: Tx -> Outcome<TxError>)
    requires Rebuild(a, parse, check).Err?
    requires |a| <= |b| && b[..|a|] == a
    ensures Rebuild(b, parse, check) == Rebuild(a, parse, check)
    decreases |b|
  {
    if |b| > |a| {
      assert b[..|b| - 1][..|a|] == a;
      RebuildStops(a, b[..|b| - 1], parse, check);
    } else {
      assert b == a;
    }
  }

  /** The spending loop of rebuild_utxo_set and is_valid_chain, raising on an id that is not unspent
      or not the sender's. */
  method SpendStrictly(u: Utxo, ids: seq<string>, addr: string) returns (r: Result<Utxo, TxFault>)
    ensures r == StrictSpend(u, ids, addr)
  {
    var v := u;
    var k := 0;
    while k < |ids|
      invariant 0 <= k <= |ids|
      invariant StrictSpend(u, ids[..k], addr) == Ok(v)
    {
      assert ids[..k + 1][..k] == ids[..k];
      var id := ids[k];
      if id !in v {
        StrictSpendStops(u, ids, k + 1, addr);
        return Err(MissingUtxo(id));
      }
      if addr !in v[id] {
        StrictSpendStops(u, ids, k + 1, addr);
        return Err(NotSenders(id));
      }
      ghost var before := v;
      v := v[id := v[id] - {addr}];
      if v[id] == map[] {
        v := v - {id};
        assert v == before - {id};
      }
      assert v == SpendOne(before, id, Some(addr));
      k := k + 1;
    }
    assert ids[..k] == ids;
    return Ok(v);
  }

  /** The output loop at the end of each block: every transaction's non-empty output is recorded. */
  method RecordOutputs(u: Utxo, data: seq<TxJson>, parse: TxJson -> Result<Tx, TxError>) returns (v: Utxo)
    ensures v == AddOutputs(u, data, parse)
  {
    v := u;
    var k := 0;
    while k < |data|
      invariant 0 <= k <= |data|
      invariant v == AddOutputs(u, data[..k], parse)
    {
      assert data[..k + 1][..k] == data[..k];
      var t := parse(data[k]);
      if t.Ok? && t.value.output != [] {
        v := v[t.value.id := OutputMap(t.value.output)];
      }
      k := k + 1;
    }
    assert data[..k] == data;
  }

  /** The body of is_valid_chain's transaction loop. */
  method CheckChainTx(s: ChainScan, j: TxJson, rules: Rules) returns (r: Result<ChainScan, TxFault>)
    ensures r == ChainTxStep(s, j, rules)
  {
    var t := rules.parse(j);
    if t.Err? {
      return Err(Unparsable(t.error));
    }
    var tx := t.value;
    var v := rules.check(tx);
    if v.Fail? {
      return Err(Invalid(v.error));
    }
    if tx.isCoinbase {
      if s.hasCoinbase {
        return Err(MultipleCoinbase);
      }
      if tx.output == [] {
        return Err(EmptyCoinbaseOutput);
      }
      return Ok(ChainScan(s.utxo, true));
    }
    if tx.input == EmptyInput || tx.input.address.None? || tx.input.prevTxIds.PrevAbsent? {
      return Err(BadInput);
    }
    if tx.input.prevTxIds.PrevNotList? {
      return Err(BadPrevIds);
    }
    var spent := SpendStrictly(s.utxo, tx.input.prevTxIds.ids, tx.input.address.value);
    if spent.Err? {
      return Err(spent.error);
    }
    return Ok(ChainScan(spent.value, s.hasCoinbase));
  }

  /** is_valid_chain's transaction loop over one block. */
  method CheckBlockTxs(u: Utxo, data: seq<TxJson>, rules: Rules) returns (r: Result<ChainScan, TxFault>)
    ensures r == ChainTxScan(u, data, rules)
  {
    var s := ChainScan(u, false);
    var k := 0;
    while k < |data|
      invariant 0 <= k <= |data|
      invariant ChainTxScan(u, data[..k], rules) == Ok(s)
    {
      assert data[..k + 1][..k] == data[..k];
      var next := CheckChainTx(s, data[k], rules);
      if next.Err? {
        ChainTxScanStops(u, data, k + 1, rules);
        return next;
      }
      s := next.value;
      k := k + 1;
    }
    assert data[..k] == data;
    return Ok(s);
  }

  /** is_valid_chain's loop over the blocks. */
  method CheckBlocks(chain: seq<Blocks.Block>, rules: Rules) returns (r: Outcome<ChainError>)
    ensures r == match BlocksUpTo(chain, |chain|, rules) case Err(e) => Fail(e) case Ok(_) => Pass
  {
    var utxo: Utxo := map[];
    var i := 0;
    while i < |chain|
      invariant 0 <= i <= |chain|
      invariant BlocksUpTo(chain, i, rules) == Ok(utxo)
    {
      if i > 0 {
        var linked := rules.blockCheck(chain[i - 1], chain[i]);
        if linked.Fail? {
          BlocksUpToStops(chain, i + 1, |chain|, rules);
          return Fail(BadBlock(i, linked.error));
        }
      }
      if chain[i].height != i {
        BlocksUpToStops(chain, i + 1, |chain|, rules);
        return Fail(WrongHeight(i));
      }
      var scan := CheckBlockTxs(utxo, chain[i].data, rules);
      if scan.Err? {
        BlocksUpToStops(chain, i + 1, |chain|, rules);
        return Fail(BadTransaction(chain[i].height, scan.error));
      }
      if !scan.value.hasCoinbase && i > 0 {
        BlocksUpToStops(chain, i + 1, |chain|, rules);
        return Fail(MissingCoinbaseAt(i));
      }
      utxo := RecordOutputs(scan.value.utxo, chain[i].data, rules.parse);
      i := i + 1;
    }
    return Pass;
  }

  // ---------- rebuild_utxo_set ----------

  /** The body of rebuild_utxo_set's inner loop. */
  method RebuildTx(u: Utxo, j: TxJson, parse: TxJson -> Result<Tx, TxError>, check: Tx -> Outcome<TxError>)
    returns (r: Result<Utxo, TxFault>)
    ensures r == RebuildStep(u, j, parse, check)
  {
    var t := parse(j);
    if t.Err? {
      return Err(Unparsable(t.error));
    }
    var tx := t.value;
    var v := check(tx);
    if v.Fail? {
      return Err(Invalid(v.error));
    }
    var w := u;
    if !tx.isCoinbase {
      if tx.input == EmptyInput || tx.input.address.None? || tx.input.prevTxIds.PrevAbsent? {
        return Err(BadInput);
      }
      if tx.input.prevTxIds.PrevNotList? {
        return Err(BadPrevIds);
      }
      var spent := SpendStrictly(u, tx.input.prevTxIds.ids, tx.input.address.value);
      if spent.Err? {
        return Err(spent.error);
      }
      w := spent.value;
    }
    if tx.output != [] {
      w := w[tx.id := OutputMap(tx.output)];
    }
    return Ok(w);
  }

  /** rebuild_utxo_set's inner loop over one block, continuing the rebuild of the transactions pre. */
  method RebuildData(u: Utxo, data: seq<TxJson>, ghost pre: seq<TxJson>, parse: TxJson -> Result<Tx, TxError>,
                     check: Tx -> Outcome<TxError>) returns (r: Result<Utxo, TxFault>)
    requires Rebuild(pre, parse, check) == Ok(u)
    ensures r == Rebuild(pre + data, parse, check)
  {
    var v := u;
    var k := 0;
    assert pre + data[..0] == pre;
    while k < |data|
      invariant 0 <= k <= |data|
      invariant Rebuild(pre + data[..k], parse, check) == Ok(v)
    {
      assert (pre + data[..k + 1])[..|pre + data[..k + 1]| - 1] == pre + data[..k];
      var next := RebuildTx(v, data[k], parse, check);
      if next.Err? {
        assert (pre + data)[..|pre + data[..k + 1]|] == pre + data[..k + 1];
        RebuildStops(pre + data[..k + 1], pre + data, parse, check);
        return next;
      }
      v := next.value;
      k := k + 1;
    }
    assert data[..k] == data;
    return Ok(v);
  }

  /** rebuild_utxo_set's two loops, for any reading and validation of a transaction. */
  method RebuildWith(chain: seq<Blocks.Block>, parse: TxJson -> Result<Tx, TxError>, check: Tx -> Outcome<TxError>)
    returns (r: Result<Utxo, TxFault>)
    ensures r == Rebuild(TransactionPools.ChainData(chain), parse, check)
  {
    var temp: Utxo := map[];
    var i := 0;
    assert chain[..0] == [];
    while i < |chain|
      invariant 0 <= i <= |chain|
      invariant Rebuild(TransactionPools.ChainData(chain[..i]), parse, check) == Ok(temp)
    {
      ghost var pre := TransactionPools.ChainData(chain[..i]);
      assert TransactionPools.ChainData(chain[..i + 1]) == pre + chain[i].data by {
        assert chain[..i + 1][..i] == chain[..i];
      }
      var next := RebuildData(temp, chain[i].data, pre, parse, check);
      if next.Err? {
        assert chain[i].data[..|chain[i].data|] == chain[i].data;
        TransactionPools.ChainDataPrefix(chain, i, |chain[i].data|);
        RebuildStops(pre + chain[i].data, TransactionPools.ChainData(chain), parse, check);
        return next;
      }
      temp := next.value;
      i := i + 1;
    }
    assert chain[..|chain|] == chain;
    return Ok(temp);
  }

  // ---------- replace_chain ----------

  /** The unspent set replace_chain installs, or the error it raises: the length test, then
      is_valid_chain, then rebuild_utxo_set. */
  function Replacement(current: seq<Blocks.Block>, newChain: seq<Blocks.Block>, env: Blocks.BlockEnv): Result<Utxo, ChainError>
  {
    var rules := StandardRules(env);
    if |newChain| <= |current| then Err(NotLonger)
    else match ChainValidity(newChain, rules)
      case Fail(e) => Err(e)
      case Pass =>
        match Rebuild(TransactionPools.ChainData(newChain), rules.parse, rules.check)
        case Err(f) => Err(RebuildFailed(f))
        case Ok(u) => Ok(u)
  }

  /** A replacement happens only for a strictly longer chain that is_valid_chain accepts, and the
      set it installs is what update_utxo_set would compute from nothing over the new chain's
      transactions, with no empty entry. */
  lemma ReplacementMeaning(current: seq<Blocks.Block>, newChain: seq<Blocks.Block>, env: Blocks.BlockEnv)
    ensures |newChain| <= |current| ==> Replacement(current, newChain, env) == Err(NotLonger)
    ensures Replacement(current, newChain, env).Ok? ==>
      |newChain| > |current| && ChainValidity(newChain, StandardRules(env)).Pass?
      && Replacement(current, newChain, env).value
         == UpdateUtxo(map[], TransactionPools.ChainData(newChain), TransactionPools.Parser(env))
      && NoEmpty(Replacement(current, newChain, env).value)
  {
    var rules := StandardRules(env);
    if Replacement(current, newChain, env).Ok? {
      RebuildAgreesWithUpdate(TransactionPools.ChainData(newChain), rules.parse, rules.check);
      RebuildNoEmpty(TransactionPools.ChainData(newChain), rules.parse, rules.check);
    }
  }

  // ---------- calculate_total_subsidy ----------

  /** The subsidies of heights 0 .. n - 1. */
  function SubsidySum(n: nat): nat
  {
    if n == 0 then 0 else SubsidySum(n - 1) + Subsidy(n - 1)
  }

  /** k heights from base on that all earn s add k * s. */
  lemma MulStep(k: nat, s: nat)
    requires k > 0
    ensures (k - 1) * s + s == k * s
  {
  }

  lemma InWindow(i: nat, base: nat, h: nat)
    requires base == i * HALVING_INTERVAL && base <= h < base + HALVING_INTERVAL
    ensures Subsidy(h) == BLOCK_SUBSIDY / Pow2(i)
  {
    var m := h - base;
    SubsidyConstantInWindow(i, m);
    assert i * HALVING_INTERVAL + m == h;
  }

  lemma {:induction false} WindowSumAt(i: nat, base: nat, s: nat, k: nat)
    requires base == i * HALVING_INTERVAL && s == BLOCK_SUBSIDY / Pow2(i) && k <= HALVING_INTERVAL
    ensures SubsidySum(base + k) == SubsidySum(base) + k * s
  {
    if k > 0 {
      var h := base + (k - 1);
      WindowSumAt(i, base, s, k - 1);
      InWindow(i, base, h);
      MulStep(k, s);
      assert SubsidySum(base + k) == SubsidySum(h) + Subsidy(h);
    }
  }

  /** Inside window i every height earns BLOCK_SUBSIDY // 2 ** i, so k heights of it add k times that. */
  lemma {:induction false} WindowSum(i: nat, k: nat)
    requires k <= HALVING_INTERVAL
    ensures SubsidySum(i * HALVING_INTERVAL + k) == SubsidySum(i * HALVING_INTERVAL) + k * (BLOCK_SUBSIDY / Pow2(i))
  {
    var base, p := i * HALVING_INTERVAL, Pow2(i);
    DivAtMost(BLOCK_SUBSIDY, p);
    var s: nat := BLOCK_SUBSIDY / p;
    WindowSumAt(i, base, s, k);
  }

  /** Before the first halving every block earns the full subsidy. */
  lemma FirstWindowSum(n: nat)
    requires n <= HALVING_INTERVAL
    ensures SubsidySum(n) == BLOCK_SUBSIDY * n
  {
    WindowSum(0, n);
  }

  /** No more than BLOCK_SUBSIDY per block is ever issued. */
  lemma {:induction false} SubsidySumBound(n: nat)
    ensures SubsidySum(n) <= BLOCK_SUBSIDY * n
  {
    if n > 0 {
      SubsidySumBound(n - 1);
    }
  }

  // ---------- the Blockchain object ----------

  /** The miner address add_block gives the coinbase it adds. */
  const MINER_PLACEHOLDER: string := "miner_address_placeholder"

  /** Transaction.is_valid(tx, self, transaction_pool), as add_block calls it. */
  function AddCheck(utxo: Utxo, pool: Option<Pool>, env: TxEnv): Tx -> Outcome<TxError>
  {
    tx => IsValid(tx, Some(utxo), pool, env)
  }

  /** The transactions add_block keeps, and total_fees. */
  datatype Admitted = Admitted(txs: seq<Tx>, fees: real)

  /** One item of add_block's loop: a non-Transaction is skipped, a transaction is kept if is_valid
      passes, and a kept non-coinbase adds its fee. */
  function AdmitStep(a: Admitted, item: Blocks.DataItem, check: Tx -> Outcome<TxError>): Admitted
  {
    match item
    case TxDict(_) => a
    case TxObject(tx) =>
      if check(tx).Fail? then a
      else Admitted(a.txs + [tx], if tx.isCoinbase then a.fees else a.fees + tx.fee)
  }

  function Admit(items: seq<Blocks.DataItem>, check: Tx -> Outcome<TxError>): Admitted
  {
    if items == [] then Admitted([], 0.0)
    else AdmitStep(Admit(items[..|items| - 1], check), items[|items| - 1], check)
  }

  /** The fees of the non-coinbase transactions of txs. */
  function FeesOf(txs: seq<Tx>): real
  {
    if txs == [] then 0.0 else FeesOf(txs[..|txs| - 1]) + (if txs[|txs| - 1].isCoinbase then 0.0 else txs[|txs| - 1].fee)
  }

  /** add_block keeps exactly the transactions that pass is_valid, in their order, and total_fees is
      the sum of their fees, leaving out the coinbases. */
  lemma {:induction false} AdmitMeaning(items: seq<Blocks.DataItem>, check: Tx -> Outcome<TxError>)
    ensures var a := Admit(items, check);
      a.fees == FeesOf(a.txs) && |a.txs| <= |items|
      && (forall t :: t in a.txs ==> check(t).Pass? && Blocks.TxObject(t) in items)
      && (forall t :: Blocks.TxObject(t) in items && check(t).Pass? ==> t in a.txs)
  {
    if items != [] {
      var init := items[..|items| - 1];
      AdmitMeaning(init, check);
      assert items == init + [items[|items| - 1]];
      var a := Admit(init, check);
      var last := items[|items| - 1];
      if last.TxObject? && check(last.tx).Pass? {
        assert (a.txs + [last.tx])[..|a.txs|] == a.txs;
      }
    }
  }

  predicate HasCoinbase(txs: seq<Tx>)
  {
    exists i :: 0 <= i < |txs| && txs[i].isCoinbase
  }

  /** add_block as written: a coinbase goes in front only when none was kept and the last block is
      above the genesis. */
  function WithCoinbaseAsWritten(a: Admitted, lastHeight: nat, now: int, freshId: string, env: TxEnv): seq<Tx>
  {
    if !HasCoinbase(a.txs) && lastHeight > 0 then
      match CreateCoinbase(MINER_PLACEHOLDER, lastHeight + 1, a.fees, now, freshId, env)
      case Ok(cb) => [cb] + a.txs
      case Err(_) => a.txs
    else a.txs
  }

  /** On a fresh chain (last height 0) the as-written rule never adds a coinbase: the block mined
      holds none unless one was passed in, and is_valid_block rejects every block above the genesis
      that holds none, the empty block add_block([]) mines first among them. */
  lemma FirstBlockLacksCoinbase(a: Admitted, last: Blocks.Block, b: Blocks.Block, now: int, freshId: string,
                                env: Blocks.BlockEnv)
    requires last.height == 0 && !HasCoinbase(a.txs)
    requires b.height == last.height + 1 && b.data == []
    ensures WithCoinbaseAsWritten(a, last.height, now, freshId, env.tx) == a.txs
    ensures !HasCoinbase(WithCoinbaseAsWritten(a, last.height, now, freshId, env.tx))
    ensures WithCoinbaseAsWritten(Admitted([], 0.0), last.height, now, freshId, env.tx) == []
    ensures Blocks.BlockValidity(last, b, env).Fail?
  {
  }

  /** The corrected selection: a coinbase goes in front whenever none was kept, since the block
      being mined is never the genesis. */
  function WithCoinbase(a: Admitted, lastHeight: nat, now: int, freshId: string, env: TxEnv): (r: seq<Tx>)
    ensures HasCoinbase(a.txs) ==> r == a.txs
    ensures !HasCoinbase(a.txs) && CreateCoinbase(MINER_PLACEHOLDER, lastHeight + 1, a.fees, now, freshId, env).Ok? ==>
      |r| == |a.txs| + 1 && r[0].isCoinbase && r[1..] == a.txs
      && IsValid(r[0], None, None, env) == Pass
      && r[0].output == [Entry(MINER_PLACEHOLDER, Subsidy(lastHeight + 1) as real + a.fees)]
  {
    if !HasCoinbase(a.txs) then
      match CreateCoinbase(MINER_PLACEHOLDER, lastHeight + 1, a.fees, now, freshId, env)
      case Ok(cb) =>
        CoinbaseIsValid(MINER_PLACEHOLDER, lastHeight + 1, a.fees, now, freshId, env, None, None);
        [cb] + a.txs
      case Err(_) => a.txs
    else a.txs
  }

  /** With no transactions kept, the corrected selection gives a non-genesis block its coinbase as
      soon as the reward is positive, so the first block of a fresh chain is no longer empty. */
  lemma WithCoinbaseFirstBlock(now: int, freshId: string, env: TxEnv)
    ensures |WithCoinbase(Admitted([], 0.0), 0, now, freshId, env)| == 1
    ensures WithCoinbase(Admitted([], 0.0), 0, now, freshId, env)[0].isCoinbase
  {
    assert PySubsidy(1) == BLOCK_SUBSIDY;
  }

  /** The items mine_block receives: the kept transactions' dicts. */
  function AsDicts(txs: seq<Tx>): (r: seq<Blocks.DataItem>)
    ensures Blocks.Serialize(r) == seq(|txs|, i requires 0 <= i < |txs| => Transactions.ToJson(txs[i]))
  {
    seq(|txs|, i requires 0 <= i < |txs| => Blocks.TxDict(Transactions.ToJson(txs[i])))
  }

  /** The block add_block mines on top of last, or the error it raises. */
  function NextBlock(last: Blocks.Block, items: seq<Blocks.DataItem>, utxo: Utxo, pool: Option<Pool>, now: int,
                     clock: seq<int>, env: Blocks.BlockEnv): Result<Blocks.Block, ChainError>
  {
    var a := Admit(items, AddCheck(utxo, pool, env.tx));
    var txs := WithCoinbase(a, last.height, now, env.freshId, env.tx);
    if txs == [] && last.height > 0 then Err(NoTransactions)
    else match Blocks.Mine(env, last, AsDicts(txs), clock)
      case Err(e) => Err(MiningFailed(e))
      case Ok(b) => Ok(b)
  }

  /** A mined block extends the last one: it is a valid block one higher, linked to it, passing the
      header checks of is_valid_block, and its data are the kept transactions' dicts, led by a
      coinbase when none was kept and one could be created. */
  lemma NextBlockMeaning(last: Blocks.Block, items: seq<Blocks.DataItem>, utxo: Utxo, pool: Option<Pool>, now: int,
                         clock: seq<int>, env: Blocks.BlockEnv)
    requires Blocks.Valid(last)
    ensures var r := NextBlock(last, items, utxo, pool, now, clock, env);
      r.Ok? ==>
        var a := Admit(items, AddCheck(utxo, pool, env.tx));
        var txs := WithCoinbase(a, last.height, now, env.freshId, env.tx);
        Blocks.Valid(r.value) && r.value.height == last.height + 1 && r.value.lastHash == last.hash
        && Blocks.HeaderCheck(last, r.value, env) == Pass
        && r.value.data == seq(|txs|, i requires 0 <= i < |txs| => Transactions.ToJson(txs[i]))
  {
    var a := Admit(items, AddCheck(utxo, pool, env.tx));
    var txs := WithCoinbase(a, last.height, now, env.freshId, env.tx);
    Blocks.MineMeaning(env, last, AsDicts(txs), clock);
  }

  class Blockchain {
    var chain: seq<Blocks.Block>
    var utxoSet: Utxo
    var currentHeight: int

    /** The chain is never empty, and each of its blocks passed validate_block when it was built. */
    ghost predicate Valid()
      reads this
    {
      chain != [] && forall i :: 0 <= i < |chain| ==> Blocks.Valid(chain[i])
    }

    /** Blockchain(): the genesis block alone, its outputs unspent, height 0. */
    constructor (env: Blocks.BlockEnv)
      ensures Valid()
      ensures chain == [Blocks.Genesis(env)] && currentHeight == 0
      ensures utxoSet == AddOutputs(map[], Blocks.Genesis(env).data, TransactionPools.Parser(env))
    {
      chain := [Blocks.Genesis(env)];
      utxoSet := map[];
      currentHeight := 0;
      new;
      InitializeUtxoSet(env);
    }

    /** initialize_utxo_set: the outputs of the first block's transactions, skipping any that
        from_json rejects. */
    method InitializeUtxoSet(env: Blocks.BlockEnv)
      requires chain != []
      modifies this
      ensures chain == old(chain) && currentHeight == old(currentHeight)
      ensures utxoSet == AddOutputs(map[], chain[0].data, TransactionPools.Parser(env))
    {
      utxoSet := RecordOutputs(map[], chain[0].data, TransactionPools.Parser(env));
    }

    /** add_block(transactions, transaction_pool), with the coinbase rule corrected (see
        WithCoinbaseAsWritten). `now` is the clock reading create_coinbase takes, `clock` the
        readings mine_block takes. */
    method AddBlock(items: seq<Blocks.DataItem>, pool: Option<Pool>, now: int, clock: seq<int>, env: Blocks.BlockEnv)
      returns (r: Result<Blocks.Block, ChainError>)
      requires Valid()
      modifies this
      ensures Valid()
      ensures r == NextBlock(old(chain[|chain| - 1]), items, old(utxoSet), pool, now, clock, env)
      ensures r.Ok? ==>
        chain == old(chain) + [r.value] && currentHeight == r.value.height
        && utxoSet == UpdateUtxo(old(utxoSet), r.value.data, TransactionPools.Parser(env))
      ensures r.Err? ==> chain == old(chain) && utxoSet == old(utxoSet) && currentHeight == old(currentHeight)
    {
      var last := chain[|chain| - 1];
      var a := AdmitItems(items, AddCheck(utxoSet, pool, env.tx));
      var txs := WithCoinbase(a, last.height, now, env.freshId, env.tx);
      if txs == [] && last.height > 0 {
        return Err(NoTransactions);
      }
      var mined := Blocks.MineBlock(last, AsDicts(txs), clock, env);
      if mined.Err? {
        return Err(MiningFailed(mined.error));
      }
      var b := mined.value;
      Blocks.MineMeaning(env, last, AsDicts(txs), clock);
      chain := chain + [b];
      currentHeight := b.height;
      UpdateUtxoSet(b, env);
      return Ok(b);
    }

    /** add_block's validation loop. */
    static method AdmitItems(items: seq<Blocks.DataItem>, check: Tx -> Outcome<TxError>) returns (a: Admitted)
      ensures a == Admit(items, check)
    {
      a := Admitted([], 0.0);
      var k := 0;
      while k < |items|
        invariant 0 <= k <= |items|
        invariant a == Admit(items[..k], check)
      {
        assert items[..k + 1][..k] == items[..k];
        if items[k].TxObject? && check(items[k].tx).Pass? {
          var tx := items[k].tx;
          a := Admitted(a.txs + [tx], if tx.isCoinbase then a.fees else a.fees + tx.fee);
        }
        k := k + 1;
      }
      assert items[..k] == items;
    }

    /** update_utxo_set(block). */
    method UpdateUtxoSet(block: Blocks.Block, env: Blocks.BlockEnv)
      modifies this
      ensures chain == old(chain) && currentHeight == old(currentHeight)
      ensures utxoSet == UpdateUtxo(old(utxoSet), block.data, TransactionPools.Parser(env))
    {
      UpdateWith(block.data, TransactionPools.Parser(env));
    }

    /** update_utxo_set's loop, for any reading of a transaction. */
    method UpdateWith(data: seq<TxJson>, parse: TxJson -> Result<Tx, TxError>)
      modifies this
      ensures chain == old(chain) && currentHeight == old(currentHeight)
      ensures utxoSet == UpdateUtxo(old(utxoSet), data, parse)
    {
      var k := 0;
      while k < |data|
        invariant 0 <= k <= |data|
        invariant chain == old(chain) && currentHeight == old(currentHeight)
        invariant utxoSet == UpdateUtxo(old(utxoSet), data[..k], parse)
      {
        assert data[..k + 1][..k] == data[..k];
        var t := parse(data[k]);
        if t.Ok? {
          var tx := t.value;
          var spends := !tx.isCoinbase && tx.input != EmptyInput;
          if !(spends && tx.input.prevTxIds.PrevNotList?) {
            if spends {
              SpendIds(PrevIds(tx.input.prevTxIds), tx.input.address);
            }
            if tx.output != [] {
              utxoSet := utxoSet[tx.id := OutputMap(tx.output)];
            }
          }
        }
        k := k + 1;
      }
      assert data[..k] == data;
    }

    /** update_utxo_set's inner loop: for each id, delete the sender's entry and then an entry left
        empty, skipping what is not there. */
    method SpendIds(ids: seq<string>, addr: Option<string>)
      modifies this
      ensures chain == old(chain) && currentHeight == old(currentHeight)
      ensures utxoSet == Spend(old(utxoSet), ids, addr)
    {
      var k := 0;
      while k < |ids|
        invariant 0 <= k <= |ids|
        invariant chain == old(chain) && currentHeight == old(currentHeight)
        invariant utxoSet == Spend(old(utxoSet), ids[..k], addr)
      {
        assert ids[..k + 1][..k] == ids[..k];
        var id := ids[k];
        if id in utxoSet && addr.Some? && addr.value in utxoSet[id] {
          utxoSet := utxoSet[id := utxoSet[id] - {addr.value}];
          if utxoSet[id] == map[] {
            utxoSet := utxoSet - {id};
          }
        }
        k := k + 1;
      }
      assert ids[..k] == ids;
    }

    /** rebuild_utxo_set(chain). */
    static method RebuildUtxoSet(chain: seq<Blocks.Block>, env: Blocks.BlockEnv) returns (r: Result<Utxo, ChainError>)
      ensures var rules := StandardRules(env);
        r == match Rebuild(TransactionPools.ChainData(chain), rules.parse, rules.check)
             case Err(f) => Err(RebuildFailed(f))
             case Ok(u) => Ok(u)
    {
      var rules := StandardRules(env);
      var t := RebuildWith(chain, rules.parse, rules.check);
      if t.Err? {
        return Err(RebuildFailed(t.error));
      }
      return Ok(t.value);
    }

    /** replace_chain(chain): every failure leaves chain, utxo_set and current_height as they were. */
    method ReplaceChain(newChain: seq<Blocks.Block>, env: Blocks.BlockEnv) returns (r: Outcome<ChainError>)
      requires Valid()
      requires forall i :: 0 <= i < |newChain| ==> Blocks.Valid(newChain[i])
      modifies this
      ensures Valid()
      ensures var x := Replacement(old(chain), newChain, env);
        (x.Ok? ==> r == Pass && chain == newChain && utxoSet == x.value && currentHeight == |newChain| - 1)
        && (x.Err? ==> r == Fail(x.error) && chain == old(chain) && utxoSet == old(utxoSet)
                       && currentHeight == old(currentHeight))
    {
      if |newChain| <= |chain| {
        return Fail(NotLonger);
      }
      var valid := IsValidChain(newChain, env);
      if valid.Fail? {
        return valid;
      }
      var rebuilt := RebuildUtxoSet(newChain, env);
      if rebuilt.Err? {
        return Fail(rebuilt.error);
      }
      chain := newChain;
      utxoSet := rebuilt.value;
      currentHeight := |newChain| - 1;
      return Pass;
    }

    /** is_valid_chain(chain). */
    static method IsValidChain(chain: seq<Blocks.Block>, env: Blocks.BlockEnv) returns (r: Outcome<ChainError>)
      ensures r == ChainValidity(chain, StandardRules(env))
    {
      var rules := StandardRules(env);
      if chain == [] || Blocks.ToJson(chain[0]) != rules.genesis {
        return Fail(InvalidGenesis);
      }
      r := CheckBlocks(chain, rules);
    }

    /** calculate_total_subsidy(block_count): the subsidies of heights 0 .. block_count - 1, window
        by window; 0 for a count that is not positive. */
    static method CalculateTotalSubsidy(blockCount: int) returns (total: int)
      ensures blockCount <= 0 ==> total == 0
      ensures blockCount >= 0 ==> total == SubsidySum(blockCount)
    {
      total := 0;
      if blockCount == 0 {
        return;
      }
      var halvings := blockCount / HALVING_INTERVAL;
      var i := 0;
      while i < halvings + 1
        invariant 0 <= i
        invariant blockCount < 0 ==> i == 0 && total == 0
        invariant blockCount > 0 ==> i <= halvings + 1 && i * HALVING_INTERVAL <= blockCount + HALVING_INTERVAL
        invariant blockCount > 0 ==> total == SubsidySum(if i * HALVING_INTERVAL < blockCount then i * HALVING_INTERVAL else blockCount)
      {
        var blocksInPeriod := if HALVING_INTERVAL < blockCount - i * HALVING_INTERVAL then HALVING_INTERVAL
                              else blockCount - i * HALVING_INTERVAL;
        if blocksInPeriod <= 0 {
          break;
        }
        var subsidy := BLOCK_SUBSIDY / Pow2(i);
        WindowSum(i, blocksInPeriod);
        total := total + blocksInPeriod * subsidy;
        i := i + 1;
      }
      if blockCount > 0 {
        assert blockCount < (halvings + 1) * HALVING_INTERVAL;
      }
    }

    /** calculate_balance(address). */
    method CalculateBalance(address: string) returns (balance: real)
      ensures balance == BalanceOf(utxoSet, address)
    {
      balance := 0.0;
      var rest := utxoSet.Keys;
      while rest != {}
        invariant rest <= utxoSet.Keys
        invariant balance + SumOver(rest, Held(utxoSet, address)) == BalanceOf(utxoSet, address)
        decreases rest
      {
        var id :| id in rest;
        var held := HeldIn(utxoSet[id], address);
        SumOverRemove(rest, Held(utxoSet, address), id);
        balance := balance + held;
        rest := rest - {id};
      }
    }

    /** The inner loop of calculate_balance over one entry. */
    static method HeldIn(outputs: map<string, real>, address: string) returns (r: real)
      ensures r == if address in outputs then outputs[address] else 0.0
    {
      var f := (a: string) => if a == address && a in outputs then outputs[a] else 0.0;
      r := 0.0;
      var rest := outputs.Keys;
      while rest != {}
        invariant rest <= outputs.Keys
        invariant r + SumOver(rest, f) == SumOver(outputs.Keys, f)
        decreases rest
      {
        var a :| a in rest;
        SumOverRemove(rest, f, a);
        if a == address {
          r := r + outputs[a];
        }
        rest := rest - {a};
      }
      SumOverSingle(outputs.Keys, f, address);
    }
  }
}
