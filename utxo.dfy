/** The unspent-output set of backend/models/blockchain.py: a dict from transaction id to that
    transaction's output dict (address to amount), and the three ways the source changes it:
    update_utxo_set (spends what it finds and skips the rest), rebuild_utxo_set (raises on a spend
    it cannot find) and the output loop of is_valid_chain. A transaction is read through `parse`,
    Transaction.from_json in the source. */
module Utxos {
  import opened Wrappers
  import opened Sums
  import opened Transactions

  /** The dict an output becomes; a later entry for an address wins, as in a dict display. */
  function OutputMap(out: Output): (r: map<string, real>)
    ensures forall a :: a in r <==> exists i :: 0 <= i < |out| && out[i].addr == a
  {
    if out == [] then map[]
    else
      var r := OutputMap(out[..|out| - 1])[out[|out| - 1].addr := out[|out| - 1].amount];
      assert forall i :: 0 <= i < |out| - 1 ==> out[..|out| - 1][i] == out[i];
      r
  }

  lemma OutputMapNonEmpty(out: Output)
    requires out != []
    ensures OutputMap(out) != map[]
  {
    assert out[0].addr in OutputMap(out);
  }

  /** No entry is an empty dict: each spend that empties an entry deletes it. */
  predicate NoEmpty(u: Utxo)
  {
    forall k :: k in u ==> u[k] != map[]
  }

  /** input.get('prev_tx_ids', []): the list, or [] when the key is missing. */
  function PrevIds(p: PrevTxIds): seq<string>
  {
    if p.PrevList? then p.ids else []
  }

  // ---------- spending in update_utxo_set: skip what is not there ----------

  /** One id of update_utxo_set's inner loop: delete the sender's entry if both are there, then the
      id's entry if that left it empty. The sender may be None, which no dict holds. */
  function SpendOne(u: Utxo, id: string, addr: Option<string>): Utxo
  {
    if id in u && addr.Some? && addr.value in u[id] then
      var rest := u[id] - {addr.value};
      if rest == map[] then u - {id} else u[id := rest]
    else u
  }

  function Spend(u: Utxo, ids: seq<string>, addr: Option<string>): Utxo
  {
    if ids == [] then u else SpendOne(Spend(u, ids[..|ids| - 1], addr), ids[|ids| - 1], addr)
  }

  /** Spending never adds: every entry left was there before, with a subset of its holders and
      their amounts unchanged; and no entry is left empty. */
  lemma {:induction false} SpendShrinks(u: Utxo, ids: seq<string>, addr: Option<string>)
    ensures var r := Spend(u, ids, addr);
      forall k :: k in r ==> k in u && r[k].Keys <= u[k].Keys && forall b :: b in r[k] ==> r[k][b] == u[k][b]
    ensures NoEmpty(u) ==> NoEmpty(Spend(u, ids, addr))
  {
    if ids != [] {
      SpendShrinks(u, ids[..|ids| - 1], addr);
    }
  }

  lemma LastOrInit(ids: seq<string>, k: string)
    requires ids != []
    ensures k in ids <==> k in ids[..|ids| - 1] || k == ids[|ids| - 1]
  {
    assert ids == ids[..|ids| - 1] + [ids[|ids| - 1]];
  }

  /** Entries of ids not listed are untouched. */
  lemma {:induction false} SpendKeepsOthers(u: Utxo, ids: seq<string>, addr: Option<string>, k: string)
    requires k in u && k !in ids
    ensures k in Spend(u, ids, addr) && Spend(u, ids, addr)[k] == u[k]
  {
    if ids != [] {
      LastOrInit(ids, k);
      SpendKeepsOthers(u, ids[..|ids| - 1], addr, k);
    }
  }

  /** After spending, the sender holds nothing under a listed id. */
  lemma {:induction false} SpendRemovesSender(u: Utxo, ids: seq<string>, a: string, k: string)
    requires k in ids
    ensures k !in Spend(u, ids, Some(a)) || a !in Spend(u, ids, Some(a))[k]
  {
    var init := ids[..|ids| - 1];
    LastOrInit(ids, k);
    if k in init {
      SpendRemovesSender(u, init, a, k);
    }
  }

  /** Other holders of a listed id keep their entries. */
  lemma {:induction false} SpendKeepsCoholders(u: Utxo, ids: seq<string>, addr: Option<string>, k: string, b: string)
    requires k in u && b in u[k] && Some(b) != addr
    ensures k in Spend(u, ids, addr) && b in Spend(u, ids, addr)[k]
  {
    if ids != [] {
      var v := Spend(u, ids[..|ids| - 1], addr);
      SpendKeepsCoholders(u, ids[..|ids| - 1], addr, k, b);
      var id := ids[|ids| - 1];
      if id == k && addr.Some? && addr.value in v[k] {
        assert b in v[k] - {addr.value};
      }
    }
  }

  // ---------- spending in rebuild_utxo_set and is_valid_chain: raise on what is not there ----------

  /** Why a transaction of a chain is refused while the unspent set is recomputed or checked. */
  datatype TxFault =
    | Unparsable(e: TxError)       // Transaction.from_json raised
    | Invalid(e: TxError)          // Transaction.is_valid raised
    | BadInput                     // no address or no prev_tx_ids in the input
    | BadPrevIds                   // prev_tx_ids is not a list
    | MissingUtxo(id: string)      // the id is not unspent
    | NotSenders(id: string)       // the id is unspent but holds nothing for the sender
    | MultipleCoinbase
    | EmptyCoinbaseOutput

  /** The spend loop that raises: each id must be unspent and hold the sender's entry. */
  function StrictSpend(u: Utxo, ids: seq<string>, addr: string): Result<Utxo, TxFault>
  {
    if ids == [] then Ok(u)
    else match StrictSpend(u, ids[..|ids| - 1], addr)
      case Err(e) => Err(e)
      case Ok(v) =>
        var id := ids[|ids| - 1];
        if id !in v then Err(MissingUtxo(id))
        else if addr !in v[id] then Err(NotSenders(id))
        else Ok(SpendOne(v, id, Some(addr)))
  }

  /** The i-th id, in its turn, is unspent and holds the sender's entry. */
  predicate UnspentAt(u: Utxo, ids: seq<string>, a: string, i: nat)
    requires i < |ids|
  {
    var v := Spend(u, ids[..i], Some(a));
    ids[i] in v && a in v[ids[i]]
  }

  predicate SpendsUnspent(u: Utxo, ids: seq<string>, a: string)
  {
    forall i :: 0 <= i < |ids| ==> UnspentAt(u, ids, a, i)
  }

  lemma UnspentAtPrefix(u: Utxo, ids: seq<string>, a: string, i: nat, n: nat)
    requires i < n <= |ids|
    ensures UnspentAt(u, ids[..n], a, i) == UnspentAt(u, ids, a, i)
  {
    assert ids[..n][..i] == ids[..i];
  }

  lemma SpendsUnspentSnoc(u: Utxo, ids: seq<string>, a: string)
    requires ids != []
    ensures SpendsUnspent(u, ids, a) <==> SpendsUnspent(u, ids[..|ids| - 1], a) && UnspentAt(u, ids, a, |ids| - 1)
  {
    var n := |ids| - 1;
    forall i | 0 <= i < n ensures UnspentAt(u, ids[..n], a, i) == UnspentAt(u, ids, a, i) {
      UnspentAtPrefix(u, ids, a, i, n);
    }
  }

  /** The strict loop succeeds exactly when each id is unspent in its turn, and then leaves what the
      lenient loop of update_utxo_set leaves. */
  lemma {:induction false} StrictSpendMeaning(u: Utxo, ids: seq<string>, a: string)
    ensures StrictSpend(u, ids, a).Ok? <==> SpendsUnspent(u, ids, a)
    ensures StrictSpend(u, ids, a).Ok? ==> StrictSpend(u, ids, a).value == Spend(u, ids, Some(a))
  {
    if ids != [] {
      StrictSpendMeaning(u, ids[..|ids| - 1], a);
      SpendsUnspentSnoc(u, ids, a);
    }
  }

  /** No double spend: a transaction the strict loop accepts lists no id twice. */
  lemma StrictSpendDistinct(u: Utxo, ids: seq<string>, addr: string)
    requires StrictSpend(u, ids, addr).Ok?
    ensures forall i, j :: 0 <= i < j < |ids| ==> ids[i] != ids[j]
  {
    StrictSpendMeaning(u, ids, addr);
    forall i, j | 0 <= i < j < |ids| ensures ids[i] != ids[j] {
      assert ids[..j][i] == ids[i];
      SpendRemovesSender(u, ids[..j], addr, ids[i]);
      assert UnspentAt(u, ids, addr, j);
    }
  }

  // ---------- update_utxo_set ----------

  /** One transaction of update_utxo_set: a parse error skips the transaction, and so does a
      prev_tx_ids that is not a list, which is what the for loop's TypeError does for a number or
      null (a string or dict would be iterated instead; is_valid rejects every such input, and the
      model keeps no contents for it); otherwise a non-coinbase with an input spends, and a
      non-empty output becomes the entry of the transaction's id. */
  function ApplyJson(u: Utxo, j: TxJson, parse: TxJson -> Result<Tx, TxError>): Utxo
  {
    match parse(j)
    case Err(_) => u
    case Ok(tx) =>
      var spends := !tx.isCoinbase && tx.input != EmptyInput;
      if spends && tx.input.prevTxIds.PrevNotList? then u
      else
        var spent := if spends then Spend(u, PrevIds(tx.input.prevTxIds), tx.input.address) else u;
        if tx.output != [] then spent[tx.id := OutputMap(tx.output)] else spent
  }

  function UpdateUtxo(u: Utxo, data: seq<TxJson>, parse: TxJson -> Result<Tx, TxError>): Utxo
  {
    if data == [] then u else ApplyJson(UpdateUtxo(u, data[..|data| - 1], parse), data[|data| - 1], parse)
  }

  /** update_utxo_set never leaves an empty entry behind. */
  lemma {:induction false} UpdateKeepsNoEmpty(u: Utxo, data: seq<TxJson>, parse: TxJson -> Result<Tx, TxError>)
    requires NoEmpty(u)
    ensures NoEmpty(UpdateUtxo(u, data, parse))
  {
    if data != [] {
      var v := UpdateUtxo(u, data[..|data| - 1], parse);
      UpdateKeepsNoEmpty(u, data[..|data| - 1], parse);
      match parse(data[|data| - 1])
      case Err(_) =>
      case Ok(tx) =>
        if !tx.isCoinbase && tx.input != EmptyInput {
          SpendShrinks(v, PrevIds(tx.input.prevTxIds), tx.input.address);
        }
        if tx.output != [] {
          OutputMapNonEmpty(tx.output);
        }
    }
  }

  /** A transaction that update_utxo_set reads is recorded under its id with its own output. */
  lemma ApplyRecordsOutput(u: Utxo, j: TxJson, parse: TxJson -> Result<Tx, TxError>)
    requires parse(j).Ok? && parse(j).value.output != []
    requires parse(j).value.isCoinbase || parse(j).value.input == EmptyInput || !parse(j).value.input.prevTxIds.PrevNotList?
    ensures var tx := parse(j).value;
      tx.id in ApplyJson(u, j, parse) && ApplyJson(u, j, parse)[tx.id] == OutputMap(tx.output)
  {
  }

  // ---------- rebuild_utxo_set ----------

  /** One transaction of rebuild_utxo_set: parse, validate, check the input's shape, spend strictly,
      record the output. */
  function RebuildStep(u: Utxo, j: TxJson, parse: TxJson -> Result<Tx, TxError>, check: Tx -> Outcome<TxError>)
    : Result<Utxo, TxFault>
  {
    match parse(j)
    case Err(e) => Err(Unparsable(e))
    case Ok(tx) =>
      match check(tx)
      case Fail(e) => Err(Invalid(e))
      case Pass =>
        var spent :=
          if tx.isCoinbase then Ok(u)
          else if tx.input == EmptyInput || tx.input.address.None? || tx.input.prevTxIds.PrevAbsent? then Err(BadInput)
          else if tx.input.prevTxIds.PrevNotList? then Err(BadPrevIds)
          else StrictSpend(u, tx.input.prevTxIds.ids, tx.input.address.value);
        match spent
        case Err(e) => Err(e)
        case Ok(v) => Ok(if tx.output != [] then v[tx.id := OutputMap(tx.output)] else v)
  }

  function Rebuild(data: seq<TxJson>, parse: TxJson -> Result<Tx, TxError>, check: Tx -> Outcome<TxError>)
    : Result<Utxo, TxFault>
  {
    if data == [] then Ok(map[])
    else match Rebuild(data[..|data| - 1], parse, check)
      case Err(e) => Err(e)
      case Ok(u) => RebuildStep(u, data[|data| - 1], parse, check)
  }

  /** When the rebuild succeeds, it computes what update_utxo_set computes from an empty set over the
      same transactions: every spend it insists on is one the lenient loop performs. */
  lemma {:induction false} RebuildAgreesWithUpdate(data: seq<TxJson>, parse: TxJson -> Result<Tx, TxError>,
                                                  check: Tx -> Outcome<TxError>)
    requires Rebuild(data, parse, check).Ok?
    ensures Rebuild(data, parse, check).value == UpdateUtxo(map[], data, parse)
  {
    if data != [] {
      var init := data[..|data| - 1];
      RebuildAgreesWithUpdate(init, parse, check);
      var u := Rebuild(init, parse, check).value;
      var tx := parse(data[|data| - 1]).value;
      if !tx.isCoinbase {
        StrictSpendMeaning(u, tx.input.prevTxIds.ids, tx.input.address.value);
      }
    }
  }

  /** The rebuilt set never holds an empty entry. */
  lemma RebuildNoEmpty(data: seq<TxJson>, parse: TxJson -> Result<Tx, TxError>, check: Tx -> Outcome<TxError>)
    requires Rebuild(data, parse, check).Ok?
    ensures NoEmpty(Rebuild(data, parse, check).value)
  {
    RebuildAgreesWithUpdate(data, parse, check);
    UpdateKeepsNoEmpty(map[], data, parse);
  }

  /** A transaction the rebuild accepts spends, in order, ids that were unspent and held its sender's
      entry, and no id twice. */
  lemma RebuildStepSpendsUnspent(u: Utxo, j: TxJson, parse: TxJson -> Result<Tx, TxError>, check: Tx -> Outcome<TxError>)
    requires RebuildStep(u, j, parse, check).Ok?
    ensures var tx := parse(j).value;
      !tx.isCoinbase ==>
        var ids, a := tx.input.prevTxIds.ids, tx.input.address.value;
        SpendsUnspent(u, ids, a) && (forall i, k :: 0 <= i < k < |ids| ==> ids[i] != ids[k])
  {
    var tx := parse(j).value;
    if !tx.isCoinbase {
      StrictSpendMeaning(u, tx.input.prevTxIds.ids, tx.input.address.value);
      StrictSpendDistinct(u, tx.input.prevTxIds.ids, tx.input.address.value);
    }
  }

  // ---------- the output loop of is_valid_chain and initialize_utxo_set ----------

  /** Records the non-empty output of every transaction that parses, under its id. */
  function AddOutputs(u: Utxo, data: seq<TxJson>, parse: TxJson -> Result<Tx, TxError>): Utxo
  {
    if data == [] then u
    else
      var v := AddOutputs(u, data[..|data| - 1], parse);
      var t := parse(data[|data| - 1]);
      if t.Ok? && t.value.output != [] then v[t.value.id := OutputMap(t.value.output)] else v
  }

  /** Recording outputs only adds or overwrites entries, each with a transaction's non-empty output. */
  lemma {:induction false} AddOutputsMeaning(u: Utxo, data: seq<TxJson>, parse: TxJson -> Result<Tx, TxError>)
    ensures var r := AddOutputs(u, data, parse);
      u.Keys <= r.Keys
      && (forall k :: k in r && k !in u ==> exists i :: 0 <= i < |data| && parse(data[i]).Ok?
                                             && parse(data[i]).value.id == k && parse(data[i]).value.output != [])
      && (NoEmpty(u) ==> NoEmpty(r))
  {
    if data != [] {
      var init := data[..|data| - 1];
      AddOutputsMeaning(u, init, parse);
      assert forall i :: 0 <= i < |init| ==> init[i] == data[i];
      var t := parse(data[|data| - 1]);
      if t.Ok? && t.value.output != [] {
        OutputMapNonEmpty(t.value.output);
      }
    }
  }

  // ---------- calculate_balance ----------

  /** What address holds in one entry. */
  function Held(u: Utxo, address: string): string -> real
  {
    k => if k in u && address in u[k] then u[k][address] else 0.0
  }

  /** The sum, over the unspent entries, of the amount each holds for address. */
  ghost function BalanceOf(u: Utxo, address: string): real
  {
    SumOver(u.Keys, Held(u, address))
  }

  /** An address that holds nothing has balance 0. */
  lemma BalanceOfStranger(u: Utxo, address: string)
    requires forall k :: k in u ==> address !in u[k]
    ensures BalanceOf(u, address) == 0.0
  {
    SumOverZero(u.Keys, Held(u, address));
  }

  /** With no negative amount, the balance is never negative. */
  lemma BalanceNonNegative(u: Utxo, address: string)
    requires forall k, a :: k in u && a in u[k] ==> u[k][a] >= 0.0
    ensures BalanceOf(u, address) >= 0.0
  {
    SumOverNonNegative(u.Keys, Held(u, address));
  }

  /** A sum over a set of a function that is 0 but at x is its value at x. */
  lemma SumOverSingle<K>(keys: set<K>, f: K -> real, x: K)
    requires forall k :: k in keys && k != x ==> f(k) == 0.0
    ensures SumOver(keys, f) == if x in keys then f(x) else 0.0
  {
    if x in keys {
      SumOverRemove(keys, f, x);
      SumOverZero(keys - {x}, f);
    } else {
      SumOverZero(keys, f);
    }
  }
}
