/** The TransactionPool class of backend/models/transaction_pool.py: the mempool, a dict from
    transaction id to transaction. A Python dict remembers the order in which its keys were first
    inserted, so the model keeps that order beside the map: `transaction_map.values()` is the map
    read in that order. */
module TransactionPools {
  import opened Wrappers
  import opened Sums
  import opened Transactions
  import opened Sorting
  import Blocks

  datatype PoolError =
    | Rejected(e: TxError)          // Transaction.is_valid raised
    | TimestampNotComparable        // `>` between input timestamps where one is None (TypeError)
    | BadChainTransaction(e: TxError) // Transaction.from_json raised on a block's transaction
    | DivisionByZero                // fee / size with a size of 0

  predicate Distinct(s: seq<string>)
  {
    forall i, j :: 0 <= i < j < |s| ==> s[i] != s[j]
  }

  /** A dict keyed by transaction id, with its keys in insertion order. */
  predicate IsDict(m: Pool, order: seq<string>)
  {
    KeyedById(m) && Distinct(order) && (forall k :: k in m ==> k in order) && (forall k :: k in order ==> k in m)
  }

  /** `a > b` on two input.get('timestamp') values. */
  function Later(a: Option<int>, b: Option<int>): (r: Result<bool, PoolError>)
    ensures r.Ok? <==> a.Some? && b.Some?
    ensures r.Ok? ==> (r.value <==> a.value > b.value)
  {
    if a.Some? && b.Some? then Ok(a.value > b.value) else Err(TimestampNotComparable)
  }

  // ---------- set_transaction ----------

  /** set_transaction on the dict (map and key order). */
  function SetSpec(m: Pool, order: seq<string>, tx: Tx, env: TxEnv): Result<(Pool, seq<string>), PoolError>
  {
    match IsValid(tx, None, None, env)
    case Fail(e) => Err(Rejected(e))
    case Pass =>
      if tx.id in m then
        match Later(tx.input.timestamp, m[tx.id].input.timestamp)
        case Err(e) => Err(e)
        case Ok(later) => Ok((if later then m[tx.id := tx] else m, order))
      else Ok((m[tx.id := tx], order + [tx.id]))
  }

  /** What set_transaction does: it rejects an invalid transaction and an incomparable timestamp
      before any change; it inserts an absent id at the end; it replaces a present one only by a
      strictly later timestamp; and no other entry changes. */
  lemma SetSpecMeaning(m: Pool, order: seq<string>, tx: Tx, env: TxEnv)
    ensures IsValid(tx, None, None, env).Fail? ==> SetSpec(m, order, tx, env) == Err(Rejected(IsValid(tx, None, None, env).error))
    ensures SetSpec(m, order, tx, env).Ok? <==>
      IsValid(tx, None, None, env).Pass? && (tx.id in m ==> tx.input.timestamp.Some? && m[tx.id].input.timestamp.Some?)
    ensures SetSpec(m, order, tx, env).Ok? ==>
      var (m', order') := SetSpec(m, order, tx, env).value;
      m'.Keys == m.Keys + {tx.id}
      && (forall k :: k in m && k != tx.id ==> m'[k] == m[k])
      && (tx.id !in m ==> m'[tx.id] == tx && order' == order + [tx.id])
      && (tx.id in m ==> (order' == order
          && m'[tx.id] == (if tx.input.timestamp.value > m[tx.id].input.timestamp.value then tx else m[tx.id])))
  {
  }

  lemma DistinctAppend(s: seq<string>, x: string)
    requires Distinct(s) && x !in s
    ensures Distinct(s + [x])
  {
  }

  /** set_transaction keeps the dict keyed by id, and keeps the key order in step with the keys. */
  lemma SetSpecKeepsDict(m: Pool, order: seq<string>, tx: Tx, env: TxEnv)
    requires IsDict(m, order) && SetSpec(m, order, tx, env).Ok?
    ensures IsDict(SetSpec(m, order, tx, env).value.0, SetSpec(m, order, tx, env).value.1)
  {
    if tx.id !in m {
      DistinctAppend(order, tx.id);
    }
  }

  /** Setting the same transaction twice is the same as setting it once, when it has a timestamp
      (without one, the second call compares None with None and raises). */
  lemma SetSpecIdempotent(m: Pool, order: seq<string>, tx: Tx, env: TxEnv)
    requires SetSpec(m, order, tx, env).Ok? && tx.input.timestamp.Some?
    ensures var (m', order') := SetSpec(m, order, tx, env).value;
      SetSpec(m', order', tx, env) == Ok((m', order'))
  {
    var (m', order') := SetSpec(m, order, tx, env).value;
    assert tx.id in m';
    if m'[tx.id] == tx {
      assert Later(tx.input.timestamp, tx.input.timestamp) == Ok(false);
      assert m'[tx.id := tx] == m';
    } else {
      assert tx.id in m && m' == m && order' == order;
    }
  }

  /** Only transactions that pass is_valid (without a chain or pool) ever enter the pool. */
  lemma SetSpecAdmitsOnlyValid(m: Pool, order: seq<string>, tx: Tx, env: TxEnv)
    requires forall k :: k in m ==> IsValid(m[k], None, None, env).Pass?
    requires SetSpec(m, order, tx, env).Ok?
    ensures var m' := SetSpec(m, order, tx, env).value.0;
      forall k :: k in m' ==> IsValid(m'[k], None, None, env).Pass?
  {
  }

  // ---------- clear_blockchain_transactions ----------

  /** The transactions of a chain, block by block, in order. */
  function ChainData(chain: seq<Blocks.Block>): seq<TxJson>
  {
    if chain == [] then [] else ChainData(chain[..|chain| - 1]) + chain[|chain| - 1].data
  }

  /** The ids from_json gives the transactions read so far, and the error that stopped the reading. */
  datatype Parsed = Parsed(ids: seq<string>, error: Option<TxError>)

  /** Transaction.from_json, with the uuid4 and the uninterpreted parts the environment fixes. */
  function Parser(env: Blocks.BlockEnv): TxJson -> Result<Tx, TxError>
  {
    j => FromJson(j, env.freshId, env.tx)
  }

  /** Reads one more transaction, unless an earlier one already raised. */
  function ParseStep(p: Parsed, j: TxJson, parse: TxJson -> Result<Tx, TxError>): (r: Parsed)
    ensures p.error.Some? ==> r == p
    ensures r.error.None? ==> p.error.None? && |r.ids| == |p.ids| + 1 && r.ids[..|p.ids|] == p.ids
    ensures r.error.Some? ==> r.ids == p.ids
  {
    if p.error.Some? then p
    else match parse(j)
      case Err(e) => Parsed(p.ids, Some(e))
      case Ok(tx) => Parsed(p.ids + [tx.id], None)
  }

  function ParseIds(js: seq<TxJson>, parse: TxJson -> Result<Tx, TxError>): Parsed
  {
    if js == [] then Parsed([], None) else ParseStep(ParseIds(js[..|js| - 1], parse), js[|js| - 1], parse)
  }

  /** Reading stops at the first transaction from_json rejects; up to it, each id is from_json's. */
  lemma {:induction false} ParseIdsMeaning(js: seq<TxJson>, parse: TxJson -> Result<Tx, TxError>)
    ensures var p := ParseIds(js, parse);
      (p.error.None? <==> forall i :: 0 <= i < |js| ==> parse(js[i]).Ok?)
      && (p.error.None? ==> |p.ids| == |js|)
      && |p.ids| <= |js|
      && (forall i :: 0 <= i < |p.ids| ==> parse(js[i]).Ok? && p.ids[i] == parse(js[i]).value.id)
      && (p.error.Some? ==> parse(js[|p.ids|]).Err?)
  {
    if js != [] {
      var init := js[..|js| - 1];
      var last := js[|js| - 1];
      ParseIdsMeaning(init, parse);
      var q := ParseIds(init, parse);
      var p := ParseIds(js, parse);
      assert p == ParseStep(q, last, parse);
      assert forall i :: 0 <= i < |init| ==> js[i] == init[i];
      if q.error.Some? {
        assert p == q;
        var k :| 0 <= k < |init| && parse(init[k]).Err?;
        assert parse(js[k]).Err?;
      } else if parse(last).Err? {
        assert p.ids == q.ids && |q.ids| == |init|;
      } else {
        assert p.ids == q.ids + [parse(last).value.id];
      }
    }
  }

  function IdSet(ids: seq<string>): set<string>
  {
    set k | k in ids
  }

  /** The keys in order, less those in s. */
  function Without(order: seq<string>, s: set<string>): (r: seq<string>)
    ensures forall k :: k in r <==> k in order && k !in s
  {
    if order == [] then []
    else (if order[0] in s then [] else [order[0]]) + Without(order[1..], s)
  }

  lemma {:induction false} WithoutDistinct(order: seq<string>, s: set<string>)
    requires Distinct(order)
    ensures Distinct(Without(order, s))
  {
    if order != [] {
      WithoutDistinct(order[1..], s);
    }
  }

  lemma {:induction false} WithoutTwice(order: seq<string>, s: set<string>, k: string)
    ensures Without(Without(order, s), {k}) == Without(order, s + {k})
  {
    if order != [] {
      WithoutTwice(order[1..], s, k);
      var w := Without(order, s);
      if order[0] !in s {
        assert w[0] == order[0] && w[1..] == Without(order[1..], s);
      } else {
        assert w == Without(order[1..], s);
      }
    }
  }

  lemma {:induction false} WithoutAbsent(order: seq<string>, s: set<string>)
    requires forall k :: k in order ==> k !in s
    ensures Without(order, s) == order
  {
    if order != [] {
      WithoutAbsent(order[1..], s);
    }
  }

  /** After clear_blockchain_transactions no id that was read from the chain remains, and nothing
      else changed. */
  lemma ClearedMeaning(m: Pool, order: seq<string>, ids: seq<string>)
    requires IsDict(m, order)
    ensures IsDict(m - IdSet(ids), Without(order, IdSet(ids)))
    ensures forall k :: k in ids ==> k !in m - IdSet(ids)
    ensures forall k :: k in m && k !in ids ==> k in m - IdSet(ids) && (m - IdSet(ids))[k] == m[k]
  {
    WithoutDistinct(order, IdSet(ids));
  }

  // ---------- get_priority_transactions ----------

  /** The sort key fee / size; sorted() computes it for every transaction before it orders any. */
  function Rate(tx: Tx): real
  {
    if tx.size == 0 then 0.0 else tx.fee / tx.size as real
  }

  function PriorityOrder(txs: seq<Tx>): (r: Result<seq<Tx>, PoolError>)
    ensures r.Err? <==> exists i :: 0 <= i < |txs| && txs[i].size == 0
  {
    if exists i :: 0 <= i < |txs| && txs[i].size == 0 then Err(DivisionByZero) else Ok(SortDesc(Rate, txs))
  }

  /** get_priority_transactions is a stable permutation of the pool in non-increasing fee / size
      order, unless some size is 0. */
  lemma PriorityMeaning(txs: seq<Tx>)
    requires forall i :: 0 <= i < |txs| ==> txs[i].size > 0
    ensures PriorityOrder(txs).Ok?
    ensures NonIncreasing(Rate, PriorityOrder(txs).value)
    ensures multiset(PriorityOrder(txs).value) == multiset(txs)
    ensures forall v :: WithKey(Rate, v, PriorityOrder(txs).value) == WithKey(Rate, v, txs)
  {
    SortDescSorts(Rate, txs);
    forall v ensures WithKey(Rate, v, PriorityOrder(txs).value) == WithKey(Rate, v, txs) {
      SortDescStable(Rate, v, txs);
    }
  }

  /** The values of the dict, in key order. */
  function ValuesOf(m: Pool, order: seq<string>): (r: seq<Tx>)
    requires forall k :: k in order ==> k in m
    ensures |r| == |order| && forall i :: 0 <= i < |order| ==> r[i] == m[order[i]]
  {
    if order == [] then [] else [m[order[0]]] + ValuesOf(m, order[1..])
  }

  // ---------- to_json ----------

  datatype PoolJson = PoolJson(transactions: seq<TxJson>, count: nat)

  function MapToJson(txs: seq<Tx>): (r: seq<TxJson>)
    ensures |r| == |txs| && forall i :: 0 <= i < |txs| ==> r[i] == Transactions.ToJson(txs[i])
  {
    if txs == [] then [] else [Transactions.ToJson(txs[0])] + MapToJson(txs[1..])
  }

  /** A list without repeats has as many elements as its set of elements. */
  lemma {:induction false} DistinctCard(order: seq<string>)
    requires Distinct(order)
    ensures |IdSet(order)| == |order|
  {
    if order != [] {
      DistinctCard(order[1..]);
      assert IdSet(order) == IdSet(order[1..]) + {order[0]};
      assert order[0] !in IdSet(order[1..]);
    }
  }

  lemma DictSize(m: Pool, order: seq<string>)
    requires IsDict(m, order)
    ensures |m| == |order|
  {
    DistinctCard(order);
    assert m.Keys == IdSet(order);
  }

  // ---------- the pool ----------

  /** The argument of existing_transaction: a Transaction object, or anything else (an address
      string, say). */
  datatype Candidate = TxObject(tx: Tx) | NotTransaction

  class TransactionPool {
    var transactionMap: Pool
    var order: seq<string>

    ghost predicate Valid()
      reads this
    {
      IsDict(transactionMap, order)
    }

    constructor()
      ensures Valid() && transactionMap == map[] && order == []
    {
      transactionMap := map[];
      order := [];
    }

    /** set_transaction(transaction). */
    method SetTransaction(tx: Tx, env: TxEnv) returns (r: Outcome<PoolError>)
      requires Valid()
      modifies this
      ensures Valid()
      ensures match SetSpec(old(transactionMap), old(order), tx, env)
        case Err(e) => r == Fail(e) && transactionMap == old(transactionMap) && order == old(order)
        case Ok(p) => r == Pass && transactionMap == p.0 && order == p.1
    {
      var v := IsValid(tx, None, None, env);
      if v.Fail? {
        return Fail(Rejected(v.error));
      }
      if tx.id in transactionMap {
        var later := Later(tx.input.timestamp, transactionMap[tx.id].input.timestamp);
        if later.Err? {
          return Fail(later.error);
        }
        if later.value {
          transactionMap := transactionMap[tx.id := tx];
        }
        SetSpecKeepsDict(old(transactionMap), old(order), tx, env);
        return Pass;
      }
      transactionMap := transactionMap[tx.id := tx];
      order := order + [tx.id];
      SetSpecKeepsDict(old(transactionMap), old(order), tx, env);
      return Pass;
    }

    /** existing_transaction(transaction): only a Transaction object can be found. */
    function Existing(x: Candidate): (b: bool)
      reads this
      ensures b <==> x.TxObject? && x.tx.id in transactionMap
      ensures x.NotTransaction? ==> !b
    {
      match x
      case NotTransaction => false
      case TxObject(tx) => tx.id in transactionMap
    }

    /** transaction_map.values(), in insertion order. */
    function Values(): (r: seq<Tx>)
      reads this
      requires Valid()
      ensures |r| == |transactionMap| == |order|
      ensures forall i :: 0 <= i < |r| ==> r[i] in transactionMap.Values && r[i] == transactionMap[order[i]]
    {
      DictSize(transactionMap, order);
      ValuesOf(transactionMap, order)
    }

    /** transaction_data(). */
    function TransactionData(): (r: seq<TxJson>)
      reads this
      requires Valid()
      ensures |r| == |transactionMap| == |order|
      ensures forall i :: 0 <= i < |r| ==> r[i] == Transactions.ToJson(transactionMap[order[i]])
    {
      MapToJson(Values())
    }

    /** to_json(): the count is the number of transactions listed. */
    function ToJson(): (r: PoolJson)
      reads this
      requires Valid()
      ensures r.count == |r.transactions| == |transactionMap|
    {
      PoolJson(TransactionData(), |transactionMap|)
    }

    /** get_priority_transactions(). */
    function PriorityTransactions(): Result<seq<Tx>, PoolError>
      reads this
      requires Valid()
    {
      PriorityOrder(Values())
    }

    /** clear_blockchain_transactions(blockchain), given the blockchain's chain. A transaction that
        from_json rejects raises there, after the removals before it. */
    method ClearBlockchainTransactions(chain: seq<Blocks.Block>, env: Blocks.BlockEnv) returns (r: Outcome<PoolError>)
      requires Valid()
      modifies this
      ensures Valid()
      ensures var p := ParseIds(ChainData(chain), Parser(env));
        transactionMap == old(transactionMap) - IdSet(p.ids)
        && order == Without(old(order), IdSet(p.ids))
        && r == (if p.error.Some? then Fail(BadChainTransaction(p.error.value)) else Pass)
    {
      r := ClearParsed(chain, Parser(env));
    }

    /** The two loops of clear_blockchain_transactions, for any reading of a transaction. */
    method ClearParsed(chain: seq<Blocks.Block>, parse: TxJson -> Result<Tx, TxError>) returns (r: Outcome<PoolError>)
      requires Valid()
      modifies this
      ensures Valid()
      ensures var p := ParseIds(ChainData(chain), parse);
        transactionMap == old(transactionMap) - IdSet(p.ids)
        && order == Without(old(order), IdSet(p.ids))
        && r == (if p.error.Some? then Fail(BadChainTransaction(p.error.value)) else Pass)
    {
      ghost var m0, order0 := transactionMap, order;
      var p := Parsed([], None);
      var i := 0;
      assert chain[..0] == [];
      assert IdSet([]) == {};
      WithoutAbsent(order0, {});
      while i < |chain|
        invariant 0 <= i <= |chain|
        invariant p.error.None? && p == ParseIds(ChainData(chain[..i]), parse)
        invariant transactionMap == m0 - IdSet(p.ids) && order == Without(order0, IdSet(p.ids))
        invariant Valid()
      {
        ghost var pre := ChainData(chain[..i]);
        assert ChainData(chain[..i + 1]) == pre + chain[i].data by {
          assert chain[..i + 1][..i] == chain[..i];
        }
        p := ClearData(chain[i].data, parse, p, pre, m0, order0);
        if p.error.Some? {
          assert chain[i].data[..|chain[i].data|] == chain[i].data;
          StopsAt(chain, i, |chain[i].data|, parse);
          return Fail(BadChainTransaction(p.error.value));
        }
        i := i + 1;
      }
      assert chain[..|chain|] == chain;
      return Pass;
    }

    /** The inner loop, over one block's data, continuing the reading p of the transactions pre. */
    method ClearData(data: seq<TxJson>, parse: TxJson -> Result<Tx, TxError>, p: Parsed,
                     ghost pre: seq<TxJson>, ghost m0: Pool, ghost order0: seq<string>) returns (p': Parsed)
      requires Valid() && IsDict(m0, order0)
      requires p.error.None? && p == ParseIds(pre, parse)
      requires transactionMap == m0 - IdSet(p.ids) && order == Without(order0, IdSet(p.ids))
      modifies this
      ensures Valid()
      ensures p' == ParseIds(pre + data, parse)
      ensures transactionMap == m0 - IdSet(p'.ids) && order == Without(order0, IdSet(p'.ids))
    {
      p' := p;
      var j := 0;
      assert pre + data[..0] == pre;
      while j < |data|
        invariant 0 <= j <= |data|
        invariant p' == ParseIds(pre + data[..j], parse)
        invariant transactionMap == m0 - IdSet(p'.ids) && order == Without(order0, IdSet(p'.ids))
        invariant Valid()
        invariant p'.error.Some? ==> p' == ParseIds(pre + data, parse)
      {
        ParseSnoc(pre, data, j, parse);
        var next := ParseStep(p', data[j], parse);
        if next.error.Some? {
          if p'.error.None? {
            BadRest(pre + data[..j + 1], pre + data, parse);
          }
          return next;
        }
        var id := next.ids[|next.ids| - 1];
        assert next.ids == p'.ids + [id];
        RemoveStep(m0, order0, p'.ids, id);
        if id in transactionMap {
          transactionMap := transactionMap - {id};
          order := Without(order, {id});
        }
        p' := next;
        j := j + 1;
      }
      assert data[..|data|] == data;
    }
  }

  /** Popping one more id read from the chain, if present, is removing the ids read so far. */
  lemma RemoveStep(m: Pool, order: seq<string>, ids: seq<string>, id: string)
    requires IsDict(m, order)
    ensures var s, s' := IdSet(ids), IdSet(ids + [id]);
      (id in m - s ==> m - s - {id} == m - s' && Without(Without(order, s), {id}) == Without(order, s'))
      && (id !in m - s ==> m - s == m - s' && Without(order, s) == Without(order, s'))
      && IsDict(m - s', Without(order, s'))
  {
    var s, s' := IdSet(ids), IdSet(ids + [id]);
    assert s' == s + {id};
    MinusOneMore(m, s, id);
    WithoutTwice(order, s, id);
    if id !in m - s {
      WithoutAbsent(Without(order, s), {id});
    }
    ClearedMeaning(m, order, ids + [id]);
  }

  lemma MinusOneMore(m: Pool, s: set<string>, k: string)
    ensures (m - s) - {k} == m - (s + {k})
    ensures k !in m - s ==> m - s == m - (s + {k})
  {
  }

  lemma ParseSnoc(pre: seq<TxJson>, data: seq<TxJson>, j: nat, parse: TxJson -> Result<Tx, TxError>)
    requires j < |data|
    ensures ParseIds(pre + data[..j + 1], parse) == ParseStep(ParseIds(pre + data[..j], parse), data[j], parse)
  {
    var a := pre + data[..j + 1];
    assert a[..|a| - 1] == pre + data[..j];
  }

  /** A transaction that raises ends the reading of the whole chain there. */
  lemma StopsAt(chain: seq<Blocks.Block>, i: nat, j: nat, parse: TxJson -> Result<Tx, TxError>)
    requires i < |chain| && j <= |chain[i].data|
    requires ParseIds(ChainData(chain[..i]) + chain[i].data[..j], parse).error.Some?
    ensures ParseIds(ChainData(chain), parse) == ParseIds(ChainData(chain[..i]) + chain[i].data[..j], parse)
  {
    ChainDataPrefix(chain, i, j);
    BadRest(ChainData(chain[..i]) + chain[i].data[..j], ChainData(chain), parse);
  }

  /** Once reading has raised, reading more transactions after them changes nothing. */
  lemma {:induction false} BadRest(a: seq<TxJson>, b: seq<TxJson>, parse: TxJson -> Result<Tx, TxError>)
    requires ParseIds(a, parse).error.Some?
    requires |a| <= |b| && b[..|a|] == a
    ensures ParseIds(b, parse) == ParseIds(a, parse)
    decreases |b|
  {
    if |b| > |a| {
      assert b[..|b| - 1][..|a|] == a;
      BadRest(a, b[..|b| - 1], parse);
    } else {
      assert b == a;
    }
  }

  /** The transactions of the first i blocks and the first j of block i begin the chain's transactions. */
  lemma {:induction false} ChainDataPrefix(chain: seq<Blocks.Block>, i: nat, j: nat)
    requires i < |chain| && j <= |chain[i].data|
    ensures var pre := ChainData(chain[..i]) + chain[i].data[..j];
      |pre| <= |ChainData(chain)| && ChainData(chain)[..|pre|] == pre
    decreases |chain|
  {
    if i < |chain| - 1 {
      var init := chain[..|chain| - 1];
      assert init[..i] == chain[..i] && init[i] == chain[i];
      ChainDataPrefix(init, i, j);
    } else {
      assert chain[..i] == chain[..|chain| - 1];
    }
  }

  // ---------- the static pending_spends ----------

  /** TransactionPool.pending_spends(transaction_map, address): what address sends to others from the
      pool, without fees. */
  method PendingSpends(pool: Pool, address: string) returns (amount: real)
    ensures amount == PendingSpendsOf(pool, address, false)
  {
    amount := 0.0;
    var rest := pool.Keys;
    ghost var f := SpentIn(pool, address, false);
    while rest != {}
      invariant rest <= pool.Keys
      invariant amount + SumOver(rest, f) == SumOver(pool.Keys, f)
      decreases |rest|
    {
      var id :| id in rest;
      var tx := pool[id];
      ghost var before := amount;
      if tx.input.address == Some(address) {
        var i := 0;
        while i < |tx.output|
          invariant 0 <= i <= |tx.output|
          invariant amount == before + OthersTotal(tx.output[..i], address, 0.0)
        {
          assert tx.output[..i + 1][..i] == tx.output[..i];
          if tx.output[i].addr != address {
            amount := amount + tx.output[i].amount;
          }
          i := i + 1;
        }
        assert tx.output[..|tx.output|] == tx.output;
      }
      SumOverRemove(rest, f, id);
      rest := rest - {id};
    }
  }

  /** The pool's sum never exceeds Transaction.pending_spends, which adds the fees, when no fee is
      negative. */
  lemma PoolPendingAtMostTransactions(pool: Pool, address: string)
    requires forall k :: k in pool ==> pool[k].fee >= 0.0
    ensures PendingSpendsOf(pool, address, false) <= PendingSpendsOf(pool, address, true)
  {
    PendingWithFees(pool, address);
    SumOverNonNegative(pool.Keys, k => if k in pool && pool[k].input != EmptyInput && pool[k].input.address == Some(address)
                                       then pool[k].fee * CountOthers(pool[k].output, address) as real else 0.0);
  }
}
