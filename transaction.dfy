/** The Transaction class of backend/models/transaction.py: the constructor's checks, the size
    estimate, validation, the coinbase, the JSON forms and the pending-spend sum. A transaction is a
    value here: once built, the source never updates it. */
module Transactions {
  import opened Wrappers
  import opened Config
  import opened Sums

  /** The tolerance 1e-9 the source uses when comparing amounts. */
  const TOLERANCE: real := 0.000000001

  function Abs(x: real): real { if x < 0.0 then -x else x }
  function Max(x: real, y: real): real { if x < y then y else x }

  // ---------- the dictionaries a transaction carries ----------

  /** One `address: amount` item of an output dict. Order matters: the source picks the recipient and
      the coinbase reward by position, so an output is a sequence of entries. */
  datatype Entry = Entry(addr: string, amount: real)
  type Output = seq<Entry>

  /** The value under 'prev_tx_ids': missing, a list, or something else. */
  datatype PrevTxIds = PrevAbsent | PrevList(ids: seq<string>) | PrevNotList

  /** The input dict; each key is present (Some) or absent (None). */
  datatype Input = Input(
    timestamp: Option<int>,
    address: Option<string>,
    publicKey: Option<string>,
    signature: Option<string>,
    amount: Option<real>,
    fee: Option<real>,
    fees: Option<real>,
    blockHeight: Option<int>,
    subsidy: Option<int>,
    coinbaseData: Option<string>,
    prevTxIds: PrevTxIds)

  const EmptyInput: Input := Input(None, None, None, None, None, None, None, None, None, None, PrevAbsent)

  /** Python's truth value of an optional string: present and non-empty. */
  predicate Truthy(s: Option<string>)
  {
    s.Some? && s.value != ""
  }

  /** The Python value a dict holds under a key, as str() shows it. */
  function OrNone(s: Option<string>): string
  {
    match s case Some(v) => v case None => "None"
  }

  function Lookup(out: Output, addr: string): Option<real>
  {
    if out == [] then None
    else if out[0].addr == addr then Some(out[0].amount)
    else Lookup(out[1..], addr)
  }

  /** `output[addr] = amount`: overwrite the entry for addr in place, or append a new one. */
  function SetEntry(out: Output, addr: string, amount: real): (r: Output)
    ensures Lookup(r, addr) == Some(amount)
    ensures forall a :: a != addr ==> Lookup(r, a) == Lookup(out, a)
  {
    if out == [] then [Entry(addr, amount)]
    else if out[0].addr == addr then [Entry(addr, amount)] + out[1..]
    else [out[0]] + SetEntry(out[1..], addr, amount)
  }

  /** sum(output.values()). */
  function Total(out: Output): real
  {
    if out == [] then 0.0 else out[0].amount + Total(out[1..])
  }

  /** The sum, over the entries not addressed to a, of the amount plus perEntry. */
  function OthersTotal(out: Output, a: string, perEntry: real): real
  {
    if out == [] then 0.0
    else
      var last := out[|out| - 1];
      OthersTotal(out[..|out| - 1], a, perEntry) + (if last.addr != a then last.amount + perEntry else 0.0)
  }

  function CountOthers(out: Output, a: string): nat
  {
    if out == [] then 0 else CountOthers(out[..|out| - 1], a) + (if out[|out| - 1].addr != a then 1 else 0)
  }

  /** The first entry not addressed to a. */
  function FirstOther(out: Output, a: string): (r: Option<Entry>)
    ensures r.Some? <==> exists i :: 0 <= i < |out| && out[i].addr != a
    ensures r.Some? ==> exists i :: (0 <= i < |out| && out[i] == r.value && out[i].addr != a
      && forall j :: 0 <= j < i ==> out[j].addr == a)
  {
    if out == [] then None
    else if out[0].addr != a then Some(out[0])
    else
      var r := FirstOther(out[1..], a);
      if r.Some? then
        var i :| 0 <= i < |out[1..]| && out[1..][i] == r.value && out[1..][i].addr != a
          && forall j :: 0 <= j < i ==> out[1..][j].addr == a;
        assert out[i + 1] == r.value && forall j :: 0 <= j < i + 1 ==> out[j].addr == a;
        r
      else
        assert forall i :: 0 <= i < |out| ==> out[i].addr == a by {
          forall i | 0 <= i < |out| ensures out[i].addr == a {
            if i > 0 { assert out[i] == out[1..][i - 1]; }
          }
        }
        r
  }

  function AddrLengths(out: Output): nat
  {
    if out == [] then 0 else |out[0].addr| + AddrLengths(out[1..])
  }

  // ---------- the Transaction object ----------

  datatype Tx = Tx(
    id: string,
    isCoinbase: bool,
    fee: real,
    feeRate: real,
    recipient: Option<string>,
    amount: Option<real>,
    sender: Option<string>,
    publicKey: Option<string>,
    signature: Option<string>,
    output: Output,
    input: Input,
    size: nat)

  /** The ValueErrors the constructor, is_valid, create_coinbase and from_json raise. */
  datatype TxError =
    | CoinbaseNeedsInputAndOutput
    | BadParameters
    | MissingCredentials
    | BadSignatureFormat
    | BadPublicKeyFormat
    | InputCreationFailed
    | NegativeChange
    | BadCoinbaseOutput
    | CoinbaseRewardMismatch
    | RewardOutsideCoinbase
    | MissingInputOrOutput
    | MissingInputCredentials
    | InvalidValues
    | BadPrevTxIdsFormat
    | MissingPrevTxIds
    | UnknownUtxo(id: string)
    | NotSendersUtxo(id: string)
    | InconsistentUtxo(id: string)
    | NoTransactionPool
    | NoRecipient
    | SignatureVerificationFailed
    | InvalidSignature
    | NonPositiveReward
    | NoMinerAddress
    | BadOutputFormat
    | BadAmountFormat(addr: string)
    | BadFeeFormat
    | MissingId

  /** What the model does not interpret: the lengths of str() of the input, of its prev_tx_ids and
      of the output; formatting with '.5f'; and Web3's recover_message (None where it raises). */
  datatype TxEnv = TxEnv(
    inputText: Input -> nat,
    prevText: PrevTxIds -> nat,
    outputText: Output -> nat,
    fixed5: real -> string,
    recover: (string, string) -> Option<string>)

  /** _calculate_size: a floor of BASE_TX_SIZE under a weighted length of the dicts' text. */
  function Size(input: Input, output: Output, env: TxEnv): (r: nat)
    ensures r >= BASE_TX_SIZE
    ensures r >= Payload(input, output, env)
    ensures r == BASE_TX_SIZE || r == Payload(input, output, env)
  {
    var p := Payload(input, output, env);
    if p < BASE_TX_SIZE then BASE_TX_SIZE else p
  }

  function Payload(input: Input, output: Output, env: TxEnv): nat
  {
    (if input == EmptyInput then 0 else env.prevText(input.prevTxIds) * 50 + env.inputText(input))
    + (if output == [] then 0 else env.outputText(output) + AddrLengths(output) * 20)
  }

  /** Before any dict is set the estimate is exactly the base size. */
  lemma SizeOfNothing(env: TxEnv)
    ensures Size(EmptyInput, [], env) == BASE_TX_SIZE
  {
  }

  /** The fee_rate floor MIN_FEE / BASE_TX_SIZE. */
  const MIN_FEE_RATE: real := MIN_FEE / BASE_TX_SIZE as real

  // ---------- the constructor ----------

  /** The constructor's keyword arguments that affect the object (`fee` and `size` are always
      overwritten, `blockchain` and `transaction_pool` only reach _create_input). */
  datatype TxArgs = TxArgs(
    sender: Option<string>,
    publicKey: Option<string>,
    recipient: Option<string>,
    amount: Option<real>,
    id: Option<string>,
    output: Option<Output>,
    input: Option<Input>,
    isCoinbase: bool,
    feeRate: real,
    signature: Option<string>)

  /** The characters the format check admits after '0x' is removed. */
  predicate HexOrX(c: char)
  {
    '0' <= c <= '9' || 'a' <= c <= 'f' || 'A' <= c <= 'F' || c == 'x'
  }

  /** str.replace("0x", ""): every non-overlapping "0x", from the left. */
  function Remove0x(s: string): string
  {
    if |s| >= 2 && s[0] == '0' && s[1] == 'x' then Remove0x(s[2..])
    else if s == [] then s
    else [s[0]] + Remove0x(s[1..])
  }

  /** The signature / public key format check of the creation path. */
  predicate HexFormat(s: string)
  {
    forall c :: c in Remove0x(s) ==> HexOrX(c)
  }

  /** Removing "0x" only removes admitted characters, so the check is the same on the raw string. */
  lemma {:induction false} HexFormatIgnoresPrefix(s: string)
    ensures HexFormat(s) <==> forall i :: 0 <= i < |s| ==> HexOrX(s[i])
  {
    if |s| >= 2 && s[0] == '0' && s[1] == 'x' {
      HexFormatIgnoresPrefix(s[2..]);
      if forall i :: 0 <= i < |s[2..]| ==> HexOrX(s[2..][i]) {
        forall i | 0 <= i < |s| ensures HexOrX(s[i]) {
          if i >= 2 { assert s[i] == s[2..][i - 2]; }
        }
      }
    } else if s != [] {
      HexFormatIgnoresPrefix(s[1..]);
      assert Remove0x(s) == [s[0]] + Remove0x(s[1..]);
      if forall i :: 0 <= i < |s[1..]| ==> HexOrX(s[1..][i]) {
        if HexOrX(s[0]) {
          forall i | 0 <= i < |s| ensures HexOrX(s[i]) {
            if i >= 1 { assert s[i] == s[1..][i - 1]; }
          }
        }
      }
      if forall i :: 0 <= i < |s| ==> HexOrX(s[i]) {
        assert HexOrX(s[0]);
        forall i | 0 <= i < |s[1..]| ensures HexOrX(s[1..][i]) {
          assert s[1..][i] == s[i + 1];
        }
      }
    }
  }

  /** The id: the given one when non-empty, else a fresh uuid4 (prefixed for a coinbase). */
  function ChooseId(id: Option<string>, isCoinbase: bool, freshId: string): string
  {
    if Truthy(id) then id.value else if isCoinbase then "coinbase_" + freshId else freshId
  }

  /** Transaction(...): `createInput` stands for _create_input, which draws on the wallet's UTXOs,
      and is consulted only on the creation path (no input or output supplied). */
  function New(a: TxArgs, freshId: string, createInput: real -> Result<Input, TxError>, env: TxEnv)
    : (r: Result<Tx, TxError>)
    ensures r.Ok? ==> r.value.isCoinbase == a.isCoinbase && r.value.size >= BASE_TX_SIZE
    ensures r.Ok? && Truthy(a.id) ==> r.value.id == a.id.value
    ensures r.Ok? ==> r.value.id == ChooseId(a.id, a.isCoinbase, freshId)
    // the recipient, amount, sender, key and signature are kept as given
    ensures r.Ok? ==> r.value.recipient == a.recipient && r.value.amount == a.amount
    ensures r.Ok? ==> r.value.sender == a.sender && r.value.publicKey == a.publicKey && r.value.signature == a.signature
    // a coinbase needs both dicts, and carries no fee
    ensures a.isCoinbase ==> (r.Ok? <==> a.output.Some? && a.input.Some?)
    ensures a.isCoinbase && r.Ok? ==>
      r.value.fee == 0.0 && r.value.feeRate == 0.0 && r.value.output == a.output.value && r.value.input == a.input.value
    // anything else needs a recipient and a positive amount, and pays a fee
    ensures !a.isCoinbase && (!Truthy(a.recipient) || a.amount.None? || a.amount.value <= 0.0) ==> r == Err(BadParameters)
    ensures !a.isCoinbase && r.Ok? ==>
      r.value.feeRate == Max(a.feeRate, MIN_FEE_RATE) && r.value.feeRate >= MIN_FEE_RATE
    ensures !a.isCoinbase && r.Ok? && (a.output.None? || a.input.None? || a.input.value.fees.None? || a.input.value.fees.value == 0.0) ==>
      r.value.fee >= MIN_FEE
    // with both dicts supplied, they are kept and the fee comes from input['fees'] or the rate floor
    ensures !a.isCoinbase && a.output.Some? && a.input.Some? && Truthy(a.recipient) && a.amount.Some? && a.amount.value > 0.0 ==>
      r.Ok? && r.value.output == a.output.value && r.value.input == a.input.value
      && r.value.fee == (if a.input.value.fees.Some? && a.input.value.fees.value != 0.0 then a.input.value.fees.value
                         else Max(BASE_TX_SIZE as real * r.value.feeRate, MIN_FEE))
    // on the creation path the outputs spend the input less the fee, up to the tolerance
    ensures !a.isCoinbase && (a.output.None? || a.input.None?) && r.Ok? ==>
      Truthy(a.sender) && Truthy(a.publicKey) && Truthy(a.signature)
      && HexFormat(a.signature.value) && HexFormat(a.publicKey.value)
      && Lookup(r.value.output, a.recipient.value) == (if a.sender.value == a.recipient.value then Lookup(r.value.output, a.sender.value) else a.amount)
      && (a.sender.value != a.recipient.value ==>
            Abs(Total(r.value.output) - (GetOr(r.value.input.amount, 0.0) - r.value.fee)) <= TOLERANCE)
  {
    var id := ChooseId(a.id, a.isCoinbase, freshId);
    if a.isCoinbase then
      if a.output.None? || a.input.None? then Err(CoinbaseNeedsInputAndOutput)
      else
        Ok(Tx(id, true, 0.0, 0.0, a.recipient, a.amount, a.sender, a.publicKey, a.signature,
              a.output.value, a.input.value, Size(a.input.value, a.output.value, env)))
    else
      var feeRate := Max(a.feeRate, MIN_FEE_RATE);
      if !Truthy(a.recipient) || a.amount.None? || a.amount.value <= 0.0 then Err(BadParameters)
      else if a.input.None? || a.output.None? then
        if !Truthy(a.sender) || !Truthy(a.publicKey) || !Truthy(a.signature) then Err(MissingCredentials)
        else if !HexFormat(a.signature.value) then Err(BadSignatureFormat)
        else if !HexFormat(a.publicKey.value) then Err(BadPublicKeyFormat)
        else
          // the size estimate before either dict exists is the base size
          var fee := Max(Size(EmptyInput, [], env) as real * feeRate, MIN_FEE);
          var required := a.amount.value + fee;
          match createInput(required)
          case Err(e) => Err(e)
          case Ok(input) =>
            var change := GetOr(input.amount, 0.0) - required;
            if change < -TOLERANCE then Err(NegativeChange)
            else
              var change := Max(0.0, change);
              var out := ChangeOutput(a.recipient.value, a.amount.value, a.sender.value, change);
              Ok(Tx(id, false, fee, feeRate, a.recipient, a.amount, a.sender, a.publicKey, a.signature,
                    out, input, Size(input, out, env)))
      else
        var input := a.input.value;
        var fee := if input.fees.Some? && input.fees.value != 0.0 then input.fees.value
                   else Max(BASE_TX_SIZE as real * feeRate, MIN_FEE);
        Ok(Tx(id, false, fee, feeRate, a.recipient, a.amount, a.sender, a.publicKey, a.signature,
              a.output.value, input, Size(input, a.output.value, env)))
  }

  /** The output the constructor builds: the amount to the recipient, then the change back to the
      sender when it exceeds the tolerance (overwriting the recipient's entry when they coincide). */
  function ChangeOutput(recipient: string, amount: real, sender: string, change: real): (out: Output)
    ensures Lookup(out, recipient) == (if sender == recipient && change > TOLERANCE then Some(change) else Some(amount))
    ensures change > TOLERANCE ==> Lookup(out, sender) == Some(change)
    ensures sender != recipient ==> Total(out) == amount + (if change > TOLERANCE then change else 0.0)
  {
    var one := [Entry(recipient, amount)];
    assert one[1..] == [];
    assert Total(one) == amount by { assert Total(one[1..]) == 0.0; }
    if change > TOLERANCE then
      assert sender != recipient ==> Total(SetEntry(one, sender, change)) == amount + change by {
        if sender != recipient {
          var two := [Entry(recipient, amount), Entry(sender, change)];
          assert SetEntry(one[1..], sender, change) == [Entry(sender, change)];
          assert SetEntry(one, sender, change) == two;
          assert two[1..][1..] == [];
          assert Total(two) == amount + change;
        }
      }
      SetEntry(one, sender, change)
    else one
  }

  // ---------- is_valid ----------

  /** BLOCK_SUBSIDY // 2 ** (block_height // HALVING_INTERVAL) with Python's floor division and
      float power: a negative height gives a negative exponent, which multiplies the subsidy. */
  function PySubsidy(height: int): (r: int)
    ensures height >= 0 ==> r == Subsidy(height)
    ensures height < 0 ==> r >= 2 * BLOCK_SUBSIDY
  {
    if height >= 0 then Subsidy(height)
    else
      var k := -(height / HALVING_INTERVAL);
      assert k >= 1;
      BLOCK_SUBSIDY * Pow2(k)
  }

  /** The PRIORITY_MULTIPLIERS entry the fee rate matches, in the dict's order; "medium" otherwise. */
  function Priority(feeRate: real): (r: string)
    ensures r == "low" || r == "medium" || r == "high"
  {
    if Abs(feeRate - DEFAULT_FEE_RATE * 0.8) < TOLERANCE then "low"
    else if Abs(feeRate - DEFAULT_FEE_RATE * 1.0) < TOLERANCE then "medium"
    else if Abs(feeRate - DEFAULT_FEE_RATE * 1.5) < TOLERANCE then "high"
    else "medium"
  }

  function LowerChar(c: char): char
  {
    if 'A' <= c <= 'Z' then (c as int + 32) as char else c
  }

  /** str.lower() on ASCII letters. */
  function Lower(s: string): (r: string)
    ensures |r| == |s|
  {
    seq(|s|, i requires 0 <= i < |s| => LowerChar(s[i]))
  }

  type Utxo = map<string, map<string, real>>
  type Pool = map<string, Tx>

  /** The first loop over prev_tx_ids when a blockchain is given: each id is unspent and the sender's,
      or (skipping the owner check) the id of a pooled transaction. */
  function OwnershipCheck(ids: seq<string>, sender: string, utxo: Utxo, pool: Option<Pool>): Outcome<TxError>
  {
    if ids == [] then Pass
    else if ids[0] !in utxo then
      if pool.Some? && exists k :: k in pool.value && pool.value[k].id == ids[0] then
        OwnershipCheck(ids[1..], sender, utxo, pool)
      else Fail(UnknownUtxo(ids[0]))
    else if sender !in utxo[ids[0]] then Fail(NotSendersUtxo(ids[0]))
    else OwnershipCheck(ids[1..], sender, utxo, pool)
  }

  /** The second loop: ids that are pool keys are skipped, the others must be the sender's unspent
      outputs. It reads transaction_pool.transaction_map, so a missing pool raises. */
  function TotalCheck(ids: seq<string>, sender: string, utxo: Utxo, pool: Option<Pool>): Outcome<TxError>
  {
    if ids == [] then Pass
    else if pool.None? then Fail(NoTransactionPool)
    else if ids[0] in pool.value then TotalCheck(ids[1..], sender, utxo, pool)
    else if ids[0] in utxo && sender in utxo[ids[0]] then TotalCheck(ids[1..], sender, utxo, pool)
    else Fail(InconsistentUtxo(ids[0]))
  }

  /** Every id is the sender's unspent output or a pooled transaction's id. */
  predicate SpendsKnown(ids: seq<string>, sender: string, utxo: Utxo, pool: Pool)
  {
    forall i :: 0 <= i < |ids| ==> (ids[i] in utxo && sender in utxo[ids[i]]) || (ids[i] !in utxo && ids[i] in pool)
  }

  /** A pool is keyed by the ids of its transactions. */
  predicate KeyedById(pool: Pool)
  {
    forall k :: k in pool ==> pool[k].id == k
  }

  /** With a blockchain, a transaction passes both loops iff a pool is given and every id it spends is
      the sender's unspent output or a pooled transaction (for a pool keyed by id). */
  lemma {:induction false} ChainChecksPass(ids: seq<string>, sender: string, utxo: Utxo, pool: Option<Pool>)
    requires ids != []
    requires pool.Some? ==> KeyedById(pool.value)
    ensures (OwnershipCheck(ids, sender, utxo, pool).Pass? && TotalCheck(ids, sender, utxo, pool).Pass?)
        <==> pool.Some? && SpendsKnown(ids, sender, utxo, pool.value)
  {
    if pool.Some? {
      ChecksPassSome(ids, sender, utxo, pool.value);
    }
  }

  lemma {:induction false} ChecksPassSome(ids: seq<string>, sender: string, utxo: Utxo, pool: Pool)
    requires KeyedById(pool)
    ensures (OwnershipCheck(ids, sender, utxo, Some(pool)).Pass? && TotalCheck(ids, sender, utxo, Some(pool)).Pass?)
        <==> SpendsKnown(ids, sender, utxo, pool)
  {
    if ids != [] {
      ChecksPassSome(ids[1..], sender, utxo, pool);
      var id := ids[0];
      assert SpendsKnown(ids, sender, utxo, pool) <==>
        ((id in utxo && sender in utxo[id]) || (id !in utxo && id in pool)) && SpendsKnown(ids[1..], sender, utxo, pool) by {
        if SpendsKnown(ids[1..], sender, utxo, pool) && ((id in utxo && sender in utxo[id]) || (id !in utxo && id in pool)) {
          forall i | 0 <= i < |ids| ensures (ids[i] in utxo && sender in utxo[ids[i]]) || (ids[i] !in utxo && ids[i] in pool) {
            if i > 0 { assert ids[i] == ids[1..][i - 1]; }
          }
        }
      }
      if id !in utxo && id in pool {
        assert pool[id].id == id;
      }
      if id !in utxo && exists k :: k in pool && pool[k].id == id {
        var k :| k in pool && pool[k].id == id;
        assert k == id;
      }
    }
  }

  /** Recipient and amount for the signed message: the first output not back to the sender. */
  function SignedMessage(recipient: Entry, tx: Tx, env: TxEnv): string
  {
    recipient.addr + ":" + env.fixed5(recipient.amount + 0.00001) + ":" + Priority(tx.feeRate) + ":" + OrNone(tx.publicKey)
  }

  /** Transaction.is_valid(transaction, blockchain, transaction_pool): Pass where it returns True, the
      error where it raises. A blockchain is seen through its utxo_set, a pool through its map. */
  function IsValid(tx: Tx, chain: Option<Utxo>, pool: Option<Pool>, env: TxEnv): (r: Outcome<TxError>)
    // a coinbase: a single positive output worth the subsidy at its height plus the fees
    ensures tx.isCoinbase ==> (r.Pass? <==>
      |tx.output| == 1 && tx.output[0].amount > 0.0
      && Abs(tx.output[0].amount - (PySubsidy(GetOr(tx.input.blockHeight, 0)) as real + GetOr(tx.input.fees, 0.0))) <= TOLERANCE)
    // anything else: not from the reward address, both dicts, credentials, a fee, a non-empty id list
    ensures !tx.isCoinbase && r.Pass? ==>
      tx.input.address != Some(MINING_REWARD_ADDRESS) && tx.input != EmptyInput && tx.output != []
      && Truthy(tx.input.address) && Truthy(tx.input.publicKey) && Truthy(tx.input.signature)
      && tx.fee >= MIN_FEE && GetOr(tx.input.amount, 0.0) >= 0.0
      && tx.input.prevTxIds.PrevList? && tx.input.prevTxIds.ids != []
      && FirstOther(tx.output, tx.input.address.value).Some?
      && env.recover(SignedMessage(FirstOther(tx.output, tx.input.address.value).value, tx, env), tx.input.signature.value)
         .Some?
    ensures !tx.isCoinbase && tx.input.prevTxIds.PrevNotList? ==> r.Fail?
    ensures !tx.isCoinbase && r.Pass? && chain.Some? ==>
      pool.Some? && OwnershipCheck(tx.input.prevTxIds.ids, tx.input.address.value, chain.value, pool).Pass?
      && TotalCheck(tx.input.prevTxIds.ids, tx.input.address.value, chain.value, pool).Pass?
  {
    var input := tx.input;
    if tx.isCoinbase then
      var subsidy := PySubsidy(GetOr(input.blockHeight, 0)) as real;
      var fees := GetOr(input.fees, 0.0);
      if |tx.output| != 1 || tx.output[0].amount <= 0.0 then Fail(BadCoinbaseOutput)
      else if Abs(tx.output[0].amount - (subsidy + fees)) > TOLERANCE then Fail(CoinbaseRewardMismatch)
      else Pass
    else if input != EmptyInput && input.address == Some(MINING_REWARD_ADDRESS) then Fail(RewardOutsideCoinbase)
    else if input == EmptyInput || tx.output == [] then Fail(MissingInputOrOutput)
    else if !Truthy(input.address) || !Truthy(input.publicKey) || !Truthy(input.signature) then Fail(MissingInputCredentials)
    else
      var sender := input.address.value;
      if OthersTotal(tx.output, sender, 0.0) < 0.0 || GetOr(input.amount, 0.0) < 0.0 || tx.fee < MIN_FEE then Fail(InvalidValues)
      else if input.prevTxIds.PrevNotList? then Fail(BadPrevTxIdsFormat)
      else if input.prevTxIds.PrevAbsent? || input.prevTxIds.ids == [] then Fail(MissingPrevTxIds)
      else
        var ids := input.prevTxIds.ids;
        var owned := if chain.Some? then OwnershipCheck(ids, sender, chain.value, pool) else Pass;
        var totals := if chain.Some? then TotalCheck(ids, sender, chain.value, pool) else Pass;
        if owned.Fail? then owned
        else if totals.Fail? then totals
        else match FirstOther(tx.output, sender)
          case None => Fail(NoRecipient)
          case Some(recipient) =>
            match env.recover(SignedMessage(recipient, tx, env), input.signature.value)
            case None => Fail(SignatureVerificationFailed)
            case Some(recovered) =>
              if Lower(recovered) != Lower(sender) then Fail(InvalidSignature) else Pass
  }

  /** The signature check ignores letter case in the recovered address. */
  lemma SignatureCaseInsensitive(tx: Tx, env: TxEnv, recovered: string)
    requires !tx.isCoinbase && Truthy(tx.input.address) && Truthy(tx.input.signature)
    requires FirstOther(tx.output, tx.input.address.value).Some?
    requires env.recover(SignedMessage(FirstOther(tx.output, tx.input.address.value).value, tx, env), tx.input.signature.value)
      == Some(recovered)
    requires IsValid(tx, None, None, env).Pass?
    ensures Lower(recovered) == Lower(tx.input.address.value)
  {
  }

  // ---------- create_coinbase ----------

  function ShowNat(n: nat): string
  {
    var d := ['0', '1', '2', '3', '4', '5', '6', '7', '8', '9'][n % 10];
    if n < 10 then [d] else ShowNat(n / 10) + [d]
  }

  /** f'{n}' for an int. */
  function ShowInt(n: int): string
  {
    if n < 0 then "-" + ShowNat(-n) else ShowNat(n)
  }

  /** Transaction.create_coinbase(miner_address, block_height, total_fees); `now` is time.time_ns()
      and `freshId` the uuid4 the constructor draws. */
  function CreateCoinbase(miner: string, height: int, fees: real, now: int, freshId: string, env: TxEnv)
    : (r: Result<Tx, TxError>)
    ensures r.Ok? <==> PySubsidy(height) as real + fees > 0.0 && miner != ""
    ensures PySubsidy(height) as real + fees <= 0.0 ==> r == Err(NonPositiveReward)
    ensures r.Ok? ==>
      r.value.isCoinbase && r.value.fee == 0.0 && r.value.id == "coinbase_" + freshId
      && r.value.output == [Entry(miner, PySubsidy(height) as real + fees)]
      && r.value.input.blockHeight == Some(height) && r.value.input.fees == Some(fees)
      && r.value.input.address == Some(MINING_REWARD_ADDRESS) && r.value.size >= BASE_TX_SIZE
  {
    var subsidy := PySubsidy(height);
    var reward := subsidy as real + fees;
    if reward <= 0.0 then Err(NonPositiveReward)
    else
      var input := Input(Some(now), Some("coinbase"), Some("coinbase"), Some("coinbase"), None, None,
                         Some(fees), Some(height), Some(subsidy), Some("Height:" + ShowInt(height)), PrevAbsent);
      if miner == "" then Err(NoMinerAddress)
      else
        New(TxArgs(None, None, None, None, None, Some([Entry(miner, reward)]), Some(input), true, DEFAULT_FEE_RATE, None),
            freshId, _ => Err(InputCreationFailed), env)
  }

  /** Every coinbase create_coinbase makes passes is_valid, against any chain and pool. */
  lemma CoinbaseIsValid(miner: string, height: int, fees: real, now: int, freshId: string, env: TxEnv,
                        chain: Option<Utxo>, pool: Option<Pool>)
    requires CreateCoinbase(miner, height, fees, now, freshId, env).Ok?
    ensures IsValid(CreateCoinbase(miner, height, fees, now, freshId, env).value, chain, pool, env) == Pass
  {
  }

  /** The subsidy a coinbase must carry is constant within a halving window and never grows. */
  lemma CoinbaseSubsidySchedule(h1: nat, h2: nat)
    requires h1 <= h2
    ensures PySubsidy(h2) <= PySubsidy(h1)
    ensures h1 / HALVING_INTERVAL == h2 / HALVING_INTERVAL ==> PySubsidy(h1) == PySubsidy(h2)
  {
    SubsidyNonIncreasing(h1, h2);
  }

  // ---------- to_json / from_json ----------

  /** A JSON value where the source calls float(): a number, or anything float() rejects. */
  datatype RawNum = Number(v: real) | NotNumber
  datatype RawEntry = RawEntry(addr: string, value: RawNum)
  /** The 'input' member: a dict, or anything else (absent, null, a list), which becomes {}. */
  datatype RawInput = InputDict(dict: Input) | InputNotDict
  /** The 'output' member: absent (read as {}), a dict, or anything else. */
  datatype RawOutput = OutputAbsent | OutputDict(entries: seq<RawEntry>) | OutputNotDict

  /** A member that may be missing, present as null, or present with a value. */
  datatype Field<T> = Missing | Null | Present(value: T)

  /** A transaction dict. `isCoinbase` holds the truth value of the member when it is present. */
  datatype TxJson = TxJson(
    id: Field<string>,
    input: RawInput,
    output: RawOutput,
    fee: Option<RawNum>,
    size: Option<int>,
    isCoinbase: Field<bool>)

  /** Transaction.to_json. */
  function ToJson(tx: Tx): TxJson
  {
    TxJson(Present(tx.id), InputDict(tx.input), OutputDict(Raw(tx.output)), Some(Number(tx.fee)), Some(tx.size),
           Present(tx.isCoinbase))
  }

  function Raw(out: Output): (r: seq<RawEntry>)
    ensures |r| == |out|
  {
    if out == [] then [] else [RawEntry(out[0].addr, Number(out[0].amount))] + Raw(out[1..])
  }

  /** float() of every output value, in order; the first value it rejects raises. */
  function ParseEntries(es: seq<RawEntry>): (r: Result<Output, TxError>)
    ensures r.Ok? <==> forall i :: 0 <= i < |es| ==> es[i].value.Number?
    ensures r.Ok? ==> (|r.value| == |es|
      && forall i :: 0 <= i < |es| ==> r.value[i] == Entry(es[i].addr, es[i].value.v))
  {
    if es == [] then Ok([])
    else match es[0].value
      case NotNumber => Err(BadAmountFormat(es[0].addr))
      case Number(v) =>
        match ParseEntries(es[1..])
        case Err(e) =>
          assert exists i :: 0 <= i < |es| && !es[i].value.Number? by {
            var j :| 0 <= j < |es[1..]| && !es[1..][j].value.Number?;
            assert es[j + 1] == es[1..][j];
          }
          Err(e)
        case Ok(rest) =>
          assert forall i :: 1 <= i < |es| ==> es[i] == es[1..][i - 1];
          Ok([Entry(es[0].addr, v)] + rest)
  }

  function ParseOutput(raw: RawOutput): Result<Output, TxError>
  {
    match raw
    case OutputAbsent => Ok([])
    case OutputNotDict => Err(BadOutputFormat)
    case OutputDict(es) => ParseEntries(es)
  }

  /** from_json's choice of recipient: the first output not to the sender when the sender is known
      and such an output exists, else the first output. */
  function SelectRecipient(out: Output, sender: Option<string>): (r: Entry)
    requires out != []
    ensures r in out
    ensures Truthy(sender) && (exists i :: 0 <= i < |out| && out[i].addr != sender.value) ==>
      r == FirstOther(out, sender.value).value && r.addr != sender.value
    ensures !Truthy(sender) || (forall i :: 0 <= i < |out| ==> out[i].addr == sender.value) ==> r == out[0]
  {
    if Truthy(sender) then
      match FirstOther(out, sender.value)
      case Some(e) =>
        var i :| 0 <= i < |out| && out[i] == e && out[i].addr != sender.value;
        e
      case None => out[0]
    else out[0]
  }

  /** _create_input as from_json's constructor call sees it: never reached, since from_json always
      passes both dicts. */
  function NoInput(required: real): Result<Input, TxError>
  {
    Err(InputCreationFailed)
  }

  /** The constructor arguments from_json passes, from the parsed dicts: a non-coinbase names the
      sender, key and signature of the input and the recipient SelectRecipient picks. */
  function JsonArgs(input: Input, output: Output, isCoinbase: bool, id: Option<string>): (a: TxArgs)
    ensures a.isCoinbase == isCoinbase && a.id == id && a.output == Some(output) && a.input == Some(input)
  {
    var sender := if !isCoinbase then input.address else None;
    var publicKey := if !isCoinbase then input.publicKey else None;
    var signature := if !isCoinbase then input.signature else None;
    var chosen := if !isCoinbase && output != [] then Some(SelectRecipient(output, sender)) else None;
    var recipient := if chosen.Some? then Some(chosen.value.addr) else None;
    var amount := if chosen.Some? then Some(chosen.value.amount) else None;
    TxArgs(sender, publicKey, recipient, amount, id, Some(output), Some(input), isCoinbase, DEFAULT_FEE_RATE, signature)
  }

  /** transaction_dict.get('is_coinbase', ...): the member's truth value when present (null is
      false), else whether the input's address is 'coinbase'. */
  function JsonCoinbase(f: Field<bool>, input: Input): bool
  {
    match f
    case Missing => input.address == Some("coinbase")
    case Null => false
    case Present(b) => b
  }

  /** The id argument from_json passes: transaction_dict['id'], where null is None. */
  function JsonId(f: Field<string>): Option<string>
    requires !f.Missing?
  {
    if f.Present? then Some(f.value) else None
  }

  /** Transaction.from_json: rebuilds the object through the constructor. */
  function FromJson(j: TxJson, freshId: string, env: TxEnv): (r: Result<Tx, TxError>)
    ensures j.output.OutputNotDict? ==> r == Err(BadOutputFormat)
    // a missing id raises KeyError; a null or empty one is replaced by a fresh uuid4
    ensures j.id.Missing? ==> r.Err?
    ensures r.Ok? && j.id.Present? && j.id.value != "" ==> r.value.id == j.id.value
    ensures r.Ok? && (j.id.Null? || j.id == Present("")) ==>
      r.value.id == (if r.value.isCoinbase then "coinbase_" + freshId else freshId)
    // a null is_coinbase reads as false, a missing one as "the input's address is 'coinbase'"
    ensures r.Ok? ==> r.value.isCoinbase == JsonCoinbase(j.isCoinbase, r.value.input)
    ensures r.Ok? && j.isCoinbase.Null? ==> !r.value.isCoinbase
    ensures r.Ok? ==> r.value.feeRate == (if r.value.isCoinbase then 0.0 else DEFAULT_FEE_RATE)
    ensures r.Ok? ==> r.value.input == (if j.input.InputDict? then j.input.dict else EmptyInput)
    ensures r.Ok? && r.value.isCoinbase ==> r.value.recipient.None? && r.value.sender.None?
    ensures r.Ok? && !r.value.isCoinbase ==>
      r.value.sender == r.value.input.address && r.value.publicKey == r.value.input.publicKey
      && r.value.recipient.Some? && Lookup(r.value.output, r.value.recipient.value).Some?
    ensures r.Ok? && !r.value.isCoinbase ==>
      r.value.output != [] && r.value.recipient == Some(SelectRecipient(r.value.output, r.value.input.address).addr)
      && r.value.amount == Some(SelectRecipient(r.value.output, r.value.input.address).amount)
  {
    var input := if j.input.InputDict? then j.input.dict else EmptyInput;
    match ParseOutput(j.output)
    case Err(e) => Err(e)
    case Ok(output) =>
      var isCoinbase := JsonCoinbase(j.isCoinbase, input);
      var fee := match j.fee case None => Ok(0.0) case Some(Number(v)) => Ok(v) case Some(NotNumber) => Err(BadFeeFormat);
      if fee.Err? then Err(BadFeeFormat)
      else if j.id.Missing? then Err(MissingId)
      else
        var a := JsonArgs(input, output, isCoinbase, JsonId(j.id));
        var r := New(a, freshId, NoInput, env);
        assert r.Ok? && !isCoinbase ==> Lookup(output, a.recipient.value).Some? by {
          if r.Ok? && !isCoinbase { LookupMember(output, SelectRecipient(output, a.sender)); }
        }
        r
  }

  /** The constructor reads the id argument only through ChooseId. */
  lemma NewSameId(a: TxArgs, freshId: string, b: TxArgs, freshId2: string, createInput: real -> Result<Input, TxError>, env: TxEnv)
    requires b == a.(id := b.id) && ChooseId(b.id, b.isCoinbase, freshId2) == ChooseId(a.id, a.isCoinbase, freshId)
    ensures New(b, freshId2, createInput, env) == New(a, freshId, createInput, env)
    ensures New(a, freshId, createInput, env).Ok? ==> New(a, freshId, createInput, env).value.id == ChooseId(a.id, a.isCoinbase, freshId)
  {
  }

  lemma {:induction false} LookupMember(out: Output, e: Entry)
    requires e in out
    ensures Lookup(out, e.addr).Some?
  {
    if out[0] != e {
      LookupMember(out[1..], e);
    }
  }

  lemma {:induction false} RawAt(out: Output, i: nat)
    requires i < |out|
    ensures Raw(out)[i] == RawEntry(out[i].addr, Number(out[i].amount))
  {
    if i > 0 {
      RawAt(out[1..], i - 1);
    }
  }

  lemma {:induction false} ParseRaw(out: Output)
    ensures ParseEntries(Raw(out)) == Ok(out)
  {
    var es := Raw(out);
    forall i | 0 <= i < |es|
      ensures es[i] == RawEntry(out[i].addr, Number(out[i].amount))
    {
      RawAt(out, i);
    }
    var r := ParseEntries(es);
    assert r.value == out;
  }

  /** A transaction from from_json survives to_json and from_json unchanged when its id is non-empty:
      every field is either serialised or recomputed from the serialised dicts. */
  lemma FromJsonToJson(j: TxJson, freshId: string, freshId2: string, env: TxEnv)
    requires FromJson(j, freshId, env).Ok? && FromJson(j, freshId, env).value.id != ""
    ensures FromJson(ToJson(FromJson(j, freshId, env).value), freshId2, env) == FromJson(j, freshId, env)
  {
    var t := FromJson(j, freshId, env).value;
    var input := if j.input.InputDict? then j.input.dict else EmptyInput;
    var output := ParseOutput(j.output).value;
    var a := JsonArgs(input, output, JsonCoinbase(j.isCoinbase, input), JsonId(j.id));
    assert FromJson(j, freshId, env) == New(a, freshId, NoInput, env);
    var b := JsonArgs(input, output, a.isCoinbase, Some(t.id));
    NewSameId(a, freshId, b, freshId2, NoInput, env);
    assert t.output == output;
    ParseRaw(t.output);
    assert FromJson(ToJson(t), freshId2, env) == New(b, freshId2, NoInput, env);
  }

  /** The 'fee' member of the JSON never reaches the object: a received transaction's fee is
      input['fees'] when non-zero and otherwise the floor max(BASE_TX_SIZE * DEFAULT_FEE_RATE, MIN_FEE). */
  lemma FromJsonIgnoresFee(j: TxJson, fee: real, freshId: string, env: TxEnv)
    requires FromJson(j, freshId, env).Ok?
    ensures FromJson(j.(fee := Some(Number(fee))), freshId, env) == FromJson(j, freshId, env)
    ensures var t := FromJson(j, freshId, env).value;
      !t.isCoinbase ==> t.fee == (if t.input.fees.Some? && t.input.fees.value != 0.0 then t.input.fees.value else 0.0025)
  {
  }

  // ---------- pending_spends ----------

  /** What one pooled transaction commits its sender to: the outputs to others, each with the fee
      (withFee) or without it. */
  function SpentBy(tx: Tx, address: string, withFee: bool): real
  {
    if tx.input != EmptyInput && tx.input.address == Some(address) then
      OthersTotal(tx.output, address, if withFee then tx.fee else 0.0)
    else 0.0
  }

  function SpentIn(pool: Pool, address: string, withFee: bool): string -> real
  {
    k => if k in pool then SpentBy(pool[k], address, withFee) else 0.0
  }

  /** The sum over a pool of what address has committed. */
  ghost function PendingSpendsOf(pool: Pool, address: string, withFee: bool): real
  {
    SumOver(pool.Keys, SpentIn(pool, address, withFee))
  }

  /** Transaction.pending_spends(transaction_pool, address). */
  method PendingSpends(pool: Pool, address: string) returns (total: real)
    ensures total == PendingSpendsOf(pool, address, true)
  {
    total := 0.0;
    var rest := pool.Keys;
    ghost var f := SpentIn(pool, address, true);
    while rest != {}
      invariant rest <= pool.Keys
      invariant total + SumOver(rest, f) == SumOver(pool.Keys, f)
      decreases |rest|
    {
      var id :| id in rest;
      var tx := pool[id];
      ghost var before := total;
      if tx.input != EmptyInput && tx.input.address == Some(address) {
        var i := 0;
        while i < |tx.output|
          invariant 0 <= i <= |tx.output|
          invariant total == before + OthersTotal(tx.output[..i], address, tx.fee)
        {
          assert tx.output[..i + 1][..i] == tx.output[..i];
          if tx.output[i].addr != address {
            total := total + tx.output[i].amount + tx.fee;
          }
          i := i + 1;
        }
        assert tx.output[..|tx.output|] == tx.output;
      }
      SumOverRemove(rest, f, id);
      rest := rest - {id};
    }
  }

  /** The fee is counted once per output to another address. */
  lemma {:induction false} FeePerOutput(out: Output, a: string, fee: real)
    ensures OthersTotal(out, a, fee) == OthersTotal(out, a, 0.0) + fee * CountOthers(out, a) as real
  {
    if out != [] {
      FeePerOutput(out[..|out| - 1], a, fee);
    }
  }

  /** With fees, the pending sum exceeds the fee-less one by the fees of the outputs to others. */
  lemma PendingWithFees(pool: Pool, address: string)
    ensures PendingSpendsOf(pool, address, true) == PendingSpendsOf(pool, address, false)
      + SumOver(pool.Keys, k => if k in pool && pool[k].input != EmptyInput && pool[k].input.address == Some(address)
                              then pool[k].fee * CountOthers(pool[k].output, address) as real else 0.0)
  {
    var g := k => if k in pool && pool[k].input != EmptyInput && pool[k].input.address == Some(address)
                  then pool[k].fee * CountOthers(pool[k].output, address) as real else 0.0;
    forall k | k in pool.Keys
      ensures SpentIn(pool, address, true)(k) == SpentIn(pool, address, false)(k) + g(k)
    {
      FeePerOutput(pool[k].output, address, pool[k].fee);
    }
    SumOverAdd(pool.Keys, SpentIn(pool, address, false), g, SpentIn(pool, address, true));
  }

  /** An address that sends nothing from the pool has nothing pending. */
  lemma PendingOfNonSender(pool: Pool, address: string, withFee: bool)
    requires forall k :: k in pool ==> pool[k].input.address != Some(address)
    ensures PendingSpendsOf(pool, address, withFee) == 0.0
  {
    SumOverZero(pool.Keys, SpentIn(pool, address, withFee));
  }
}
