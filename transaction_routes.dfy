/** The transaction lookups of backend/routers/transaction.py: one transaction by id, and every
    transaction that involves an address, pending ones from the pool and confirmed ones from the
    chain, newest first. A transaction dict of a block that lacks a key the handler indexes makes
    it raise, which FastAPI reports as a server error. */
module TransactionRoutes {
  import opened Wrappers
  import opened Transactions
  import opened Sorting
  import Blocks
  import TransactionPools

  /** An exception escaping the handler (a KeyError or AttributeError on a malformed dict): 500. */
  datatype RouteError = ServerError

  datatype Status = Pending | Confirmed(blockHeight: nat)

  /** One dict of the response: id, input, output, status (with blockHeight when confirmed),
      timestamp and fee. */
  datatype Listed = Listed(id: string, input: Input, output: RawOutput, status: Status,
                           timestamp: real, fee: RawNum)

  /** A transaction dict waiting to be examined, with the status it would be listed under and the
      timestamp used when its input has none. */
  datatype Candidate = Candidate(json: TxJson, status: Status, fallback: real)

  /** The pool's transaction_data(), with time.time() * 1000000 (here `now`) as fallback. */
  function PendingCandidates(js: seq<TxJson>, now: real): (r: seq<Candidate>)
    ensures |r| == |js|
  {
    if js == [] then [] else [Candidate(js[0], Pending, now)] + PendingCandidates(js[1..], now)
  }

  /** The dicts of one block, in order, with its height and timestamp. */
  function BlockCandidates(b: Blocks.Block): (r: seq<Candidate>)
    ensures |r| == |b.data|
  {
    BlockCandidatesFrom(b, 0)
  }

  function BlockCandidatesFrom(b: Blocks.Block, i: nat): (r: seq<Candidate>)
    requires i <= |b.data|
    ensures |r| == |b.data| - i
    decreases |b.data| - i
  {
    if i == |b.data| then []
    else [Candidate(b.data[i], Confirmed(b.height), b.timestamp as real)] + BlockCandidatesFrom(b, i + 1)
  }

  /** `for block in blockchain.chain: for tx in block.data`: every dict of the chain, in order. */
  function ChainCandidates(chain: seq<Blocks.Block>): seq<Candidate>
  {
    if chain == [] then [] else ChainCandidates(chain[..|chain| - 1]) + BlockCandidates(chain[|chain| - 1])
  }

  function OutputHas(out: seq<RawEntry>, address: string): bool
  {
    exists k :: 0 <= k < |out| && out[k].addr == address
  }

  /** `tx["input"].get("address") == address or address in tx["output"]`; the `or` stops at a
      matching sender, and otherwise a missing or non-dict output raises. */
  function Involves(j: TxJson, address: string): Result<bool, RouteError>
  {
    if j.input.InputNotDict? then Err(ServerError)
    else if j.input.dict.address == Some(address) then Ok(true)
    else match j.output
      case OutputDict(es) => Ok(OutputHas(es, address))
      case OutputAbsent => Err(ServerError)
      case OutputNotDict => Err(ServerError)
  }

  /** The response dict for one candidate: tx["id"], tx["input"] and tx["output"] must exist and
      the input must be a dict; the fee defaults to 0. A null id passes the dict lookup but fails
      the response schema, whose id is a str. */
  function Describe(c: Candidate): (r: Result<Listed, RouteError>)
    ensures r.Ok? ==> c.json.id == Present(r.value.id) && r.value.status == c.status
    ensures !c.json.id.Present? ==> r == Err(ServerError)
  {
    match (c.json.id, c.json.input, c.json.output)
    case (Missing, _, _) => Err(ServerError)
    case (Null, _, _) => Err(ServerError)
    case (_, InputNotDict, _) => Err(ServerError)
    case (_, _, OutputAbsent) => Err(ServerError)
    case (Present(id), InputDict(input), output) =>
      var ts := match input.timestamp case Some(t) => t as real case None => c.fallback;
      Ok(Listed(id, input, output, c.status, ts, GetOr(c.json.fee, Number(0.0))))
  }

  /** The listed entry involves the address: its input names it as sender or its output pays it. */
  predicate NamesAddress(x: Listed, address: string)
  {
    x.input.address == Some(address) || (x.output.OutputDict? && OutputHas(x.output.entries, address))
  }

  /** The entries for the candidates that involve the address, in order, with no deduplication;
      the first candidate that makes the handler raise ends the whole request. */
  function Collect(cs: seq<Candidate>, address: string): Result<seq<Listed>, RouteError>
  {
    if cs == [] then Ok([])
    else match Collect(cs[..|cs| - 1], address)
      case Err(_) => Err(ServerError)
      case Ok(acc) => CollectStep(acc, cs[|cs| - 1], address)
  }

  function CollectStep(acc: seq<Listed>, c: Candidate, address: string): Result<seq<Listed>, RouteError>
  {
    match Involves(c.json, address)
    case Err(_) => Err(ServerError)
    case Ok(false) => Ok(acc)
    case Ok(true) =>
      match Describe(c)
      case Err(_) => Err(ServerError)
      case Ok(x) => Ok(acc + [x])
  }

  /** How many candidates involve the address. */
  function CountInvolving(cs: seq<Candidate>, address: string): nat
  {
    if cs == [] then 0
    else CountInvolving(cs[..|cs| - 1], address) + (if Involves(cs[|cs| - 1].json, address) == Ok(true) then 1 else 0)
  }

  /** The candidates that involve the address, in order. */
  function Involving(cs: seq<Candidate>, address: string): seq<Candidate>
  {
    if cs == [] then []
    else Involving(cs[..|cs| - 1], address) + (if Involves(cs[|cs| - 1].json, address) == Ok(true) then [cs[|cs| - 1]] else [])
  }

  /** Involving keeps exactly CountInvolving of the candidates, each one of them and each
      involving the address. */
  lemma {:induction false} InvolvingMeaning(cs: seq<Candidate>, address: string)
    ensures |Involving(cs, address)| == CountInvolving(cs, address)
    ensures forall k :: 0 <= k < |Involving(cs, address)| ==>
              Involving(cs, address)[k] in cs && Involves(Involving(cs, address)[k].json, address) == Ok(true)
  {
    if cs != [] {
      var init := cs[..|cs| - 1];
      InvolvingMeaning(init, address);
      assert forall c :: c in init ==> c in cs;
    }
  }

  /** A successful listing has one entry per involving candidate, in candidate order: the k-th
      entry is the response dict of the k-th candidate that involves the address, so it carries
      that candidate's id and status, and it names the address. */
  lemma {:induction false} CollectMeaning(cs: seq<Candidate>, address: string)
    requires Collect(cs, address).Ok?
    ensures |Collect(cs, address).value| == CountInvolving(cs, address) == |Involving(cs, address)|
    ensures forall k :: 0 <= k < |Collect(cs, address).value| ==> Describe(Involving(cs, address)[k]) == Ok(Collect(cs, address).value[k])
    ensures forall k :: 0 <= k < |Collect(cs, address).value| ==> NamesAddress(Collect(cs, address).value[k], address)
  {
    InvolvingMeaning(cs, address);
    if cs != [] {
      var init := cs[..|cs| - 1];
      CollectMeaning(init, address);
      var c := cs[|cs| - 1];
      if Involves(c.json, address) == Ok(true) {
        var x := Describe(c).value;
        assert x.input == c.json.input.dict && x.output == c.json.output;
        assert NamesAddress(x, address);
      }
    }
  }

  /** Every pending candidate carries the Pending status and the handler's clock reading. */
  lemma {:induction false} PendingStatus(js: seq<TxJson>, now: real)
    ensures forall c :: c in PendingCandidates(js, now) ==> c.status == Pending && c.fallback == now
  {
    if js != [] {
      PendingStatus(js[1..], now);
    }
  }

  /** Every candidate of a block from index i on is one of its dicts, tagged with its height and
      timestamp. */
  lemma {:induction false} BlockCandidatesOf(b: Blocks.Block, i: nat)
    requires i <= |b.data|
    ensures forall c :: c in BlockCandidatesFrom(b, i) ==>
              exists j :: i <= j < |b.data| && c == Candidate(b.data[j], Confirmed(b.height), b.timestamp as real)
    decreases |b.data| - i
  {
    if i < |b.data| {
      BlockCandidatesOf(b, i + 1);
    }
  }

  /** Every chain candidate is a dict of one of the chain's blocks, confirmed at that block's
      height with that block's timestamp as fallback. */
  lemma {:induction false} ChainStatus(chain: seq<Blocks.Block>)
    ensures forall c :: c in ChainCandidates(chain) ==>
              exists i, j :: 0 <= i < |chain| && 0 <= j < |chain[i].data|
                && c == Candidate(chain[i].data[j], Confirmed(chain[i].height), chain[i].timestamp as real)
  {
    if chain != [] {
      var init, last := chain[..|chain| - 1], chain[|chain| - 1];
      ChainStatus(init);
      BlockCandidatesOf(last, 0);
      forall c | c in ChainCandidates(chain)
        ensures exists i, j :: 0 <= i < |chain| && 0 <= j < |chain[i].data|
                  && c == Candidate(chain[i].data[j], Confirmed(chain[i].height), chain[i].timestamp as real)
      {
        if c in ChainCandidates(init) {
          var i, j :| 0 <= i < |init| && 0 <= j < |init[i].data|
                      && c == Candidate(init[i].data[j], Confirmed(init[i].height), init[i].timestamp as real);
          assert init[i] == chain[i];
        } else {
          assert c in BlockCandidatesFrom(last, 0);
          var j :| 0 <= j < |last.data| && c == Candidate(last.data[j], Confirmed(last.height), last.timestamp as real);
          assert chain[|chain| - 1] == last;
        }
      }
    }
  }

  /** Listing a concatenation lists the parts one after the other, so every pending entry comes
      before every confirmed one in the list the sort receives. */
  lemma {:induction false} CollectAppend(a: seq<Candidate>, b: seq<Candidate>, address: string)
    requires Collect(a + b, address).Ok?
    ensures Collect(a, address).Ok? && Collect(b, address).Ok?
    ensures Collect(a + b, address).value == Collect(a, address).value + Collect(b, address).value
  {
    if b == [] {
      assert a + b == a;
    } else {
      var b' := b[..|b| - 1];
      assert (a + b)[..|a + b| - 1] == a + b';
      assert (a + b)[|a + b| - 1] == b[|b| - 1];
      CollectAppend(a, b', address);
    }
  }

  function Timestamp(x: Listed): real
  {
    x.timestamp
  }

  /** route_transactions_by_address: pool entries, then chain entries, sorted newest first. */
  function ByAddressSpec(poolData: seq<TxJson>, chain: seq<Blocks.Block>, address: string, now: real): Result<seq<Listed>, RouteError>
  {
    match Collect(PendingCandidates(poolData, now) + ChainCandidates(chain), address)
    case Err(_) => Err(ServerError)
    case Ok(found) => Ok(SortDesc(Timestamp, found))
  }

  /** The pending entries are all Pending, and every confirmed entry is the response dict of a
      dict of some block of the chain, confirmed at that block's height. */
  lemma CollectedStatuses(poolData: seq<TxJson>, chain: seq<Blocks.Block>, address: string, now: real)
    requires Collect(PendingCandidates(poolData, now), address).Ok? && Collect(ChainCandidates(chain), address).Ok?
    ensures var pending := Collect(PendingCandidates(poolData, now), address).value;
            forall k :: 0 <= k < |pending| ==> pending[k].status == Pending
    ensures var confirmed := Collect(ChainCandidates(chain), address).value;
            forall k :: 0 <= k < |confirmed| ==>
              exists i, j :: 0 <= i < |chain| && 0 <= j < |chain[i].data|
                && confirmed[k].status == Confirmed(chain[i].height)
                && Describe(Candidate(chain[i].data[j], Confirmed(chain[i].height), chain[i].timestamp as real)) == Ok(confirmed[k])
  {
    var p, c := PendingCandidates(poolData, now), ChainCandidates(chain);
    CollectMeaning(p, address);
    CollectMeaning(c, address);
    InvolvingMeaning(p, address);
    InvolvingMeaning(c, address);
    PendingStatus(poolData, now);
    ChainStatus(chain);
    var pv := Collect(p, address).value;
    forall k | 0 <= k < |pv|
      ensures pv[k].status == Pending
    {
      assert Involving(p, address)[k] in p;
    }
    var cv := Collect(c, address).value;
    forall k | 0 <= k < |cv|
      ensures exists i, j :: 0 <= i < |chain| && 0 <= j < |chain[i].data|
                && cv[k].status == Confirmed(chain[i].height)
                && Describe(Candidate(chain[i].data[j], Confirmed(chain[i].height), chain[i].timestamp as real)) == Ok(cv[k])
    {
      var cand := Involving(c, address)[k];
      assert cand in c;
      var i, j :| 0 <= i < |chain| && 0 <= j < |chain[i].data|
                  && cand == Candidate(chain[i].data[j], Confirmed(chain[i].height), chain[i].timestamp as real);
    }
  }

  /** The result holds exactly the involving pool and chain transactions, no more and no fewer
      (no deduplication), newest first; it is a permutation of the pending entries followed by the
      confirmed ones, and entries with one timestamp keep that order. */
  lemma ByAddressMeaning(poolData: seq<TxJson>, chain: seq<Blocks.Block>, address: string, now: real, v: real)
    requires ByAddressSpec(poolData, chain, address, now).Ok?
    ensures var r := ByAddressSpec(poolData, chain, address, now).value;
      var pending := Collect(PendingCandidates(poolData, now), address);
      var confirmed := Collect(ChainCandidates(chain), address);
      && pending.Ok? && confirmed.Ok?
      && |r| == CountInvolving(PendingCandidates(poolData, now), address) + CountInvolving(ChainCandidates(chain), address)
      && NonIncreasing(Timestamp, r)
      && multiset(r) == multiset(pending.value + confirmed.value)
      && WithKey(Timestamp, v, r) == WithKey(Timestamp, v, pending.value + confirmed.value)
      && (forall k :: 0 <= k < |r| ==> NamesAddress(r[k], address))
      && (forall k :: 0 <= k < |pending.value| ==> pending.value[k].status == Pending)
      && (forall k :: 0 <= k < |confirmed.value| ==>
            exists i, j :: 0 <= i < |chain| && 0 <= j < |chain[i].data|
              && confirmed.value[k].status == Confirmed(chain[i].height)
              && Describe(Candidate(chain[i].data[j], Confirmed(chain[i].height), chain[i].timestamp as real)) == Ok(confirmed.value[k]))
  {
    var p, c := PendingCandidates(poolData, now), ChainCandidates(chain);
    CollectAppend(p, c, address);
    CollectMeaning(p, address);
    CollectMeaning(c, address);
    CollectedStatuses(poolData, chain, address, now);
    var found := Collect(p + c, address).value;
    SortDescSorts(Timestamp, found);
    SortDescStable(Timestamp, v, found);
    var r := SortDesc(Timestamp, found);
    forall k | 0 <= k < |r| ensures NamesAddress(r[k], address) {
      assert r[k] in multiset(found);
      var j :| 0 <= j < |found| && found[j] == r[k];
      CollectMeaning(p + c, address);
    }
  }

  /** route_transactions_by_address: the loop over transaction_data(), the nested loop over the
      chain's blocks and their dicts, and the final sort. */
  method ByAddress(pool: TransactionPools.TransactionPool, chain: seq<Blocks.Block>, address: string, now: real)
    returns (r: Result<seq<Listed>, RouteError>)
    requires pool.Valid()
    ensures r == ByAddressSpec(pool.TransactionData(), chain, address, now)
  {
    var pending := PendingCandidates(pool.TransactionData(), now);
    var listed := ListFrom([], [], pending, address);
    assert [] + pending == pending;
    if listed.Err? {
      CollectErrorStays(pending, ChainCandidates(chain), address);
      return Err(ServerError);
    }
    r := ListConfirmed(pending, listed.value, chain, address);
    if r.Ok? {
      r := Ok(SortDesc(Timestamp, r.value));
    }
  }

  /** One `for tx in ...: if ...: transactions.append(tx_data)` loop, carrying on from the
      entries listed for `done`. */
  method ListFrom(ghost done: seq<Candidate>, found: seq<Listed>, cs: seq<Candidate>, address: string)
    returns (r: Result<seq<Listed>, RouteError>)
    requires Collect(done, address) == Ok(found)
    ensures r == Collect(done + cs, address)
  {
    var transactions := found;
    var i := 0;
    assert done + cs[..0] == done;
    while i < |cs|
      invariant 0 <= i <= |cs|
      invariant Collect(done + cs[..i], address) == Ok(transactions)
    {
      CollectNext(done, cs, i, address);
      var step := CollectStep(transactions, cs[i], address);
      if step.Err? {
        return Err(ServerError);
      }
      transactions := step.value;
      i := i + 1;
    }
    assert cs[..i] == cs;
    r := Ok(transactions);
  }

  /** One more candidate of `cs` listed; a raise there is a raise for the whole of `cs`. */
  lemma CollectNext(done: seq<Candidate>, cs: seq<Candidate>, i: nat, address: string)
    requires i < |cs| && Collect(done + cs[..i], address).Ok?
    ensures Collect(done + cs[..i + 1], address) == CollectStep(Collect(done + cs[..i], address).value, cs[i], address)
    ensures Collect(done + cs[..i + 1], address).Err? ==> Collect(done + cs, address).Err?
  {
    CollectSnoc(done + cs[..i], cs[i], address);
    assert done + cs[..i + 1] == done + cs[..i] + [cs[i]];
    if Collect(done + cs[..i + 1], address).Err? {
      CollectErrorStays(done + cs[..i + 1], cs[i + 1..], address);
      assert done + cs[..i + 1] + cs[i + 1..] == done + cs;
    }
  }

  /** The loop over the chain's blocks, each block's dicts listed by ListFrom. */
  method ListConfirmed(pending: seq<Candidate>, found: seq<Listed>, chain: seq<Blocks.Block>, address: string)
    returns (r: Result<seq<Listed>, RouteError>)
    requires Collect(pending, address) == Ok(found)
    ensures r == Collect(pending + ChainCandidates(chain), address)
  {
    var transactions := found;
    var b := 0;
    assert pending + ChainCandidates(chain[..0]) == pending;
    while b < |chain|
      invariant 0 <= b <= |chain|
      invariant Collect(pending + ChainCandidates(chain[..b]), address) == Ok(transactions)
    {
      var listed := ListFrom(pending + ChainCandidates(chain[..b]), transactions, BlockCandidates(chain[b]), address);
      ChainNext(pending, chain, b, address);
      if listed.Err? {
        return Err(ServerError);
      }
      transactions := listed.value;
      b := b + 1;
    }
    assert chain[..b] == chain;
    r := Ok(transactions);
  }

  lemma CollectSnoc(s: seq<Candidate>, c: Candidate, address: string)
    ensures Collect(s, address).Err? ==> Collect(s + [c], address).Err?
    ensures Collect(s, address).Ok? ==> Collect(s + [c], address) == CollectStep(Collect(s, address).value, c, address)
  {
    assert (s + [c])[..|s|] == s;
  }

  /** Once the listing has raised, more candidates do not bring it back. */
  lemma {:induction false} CollectErrorStays(a: seq<Candidate>, b: seq<Candidate>, address: string)
    requires Collect(a, address).Err?
    ensures Collect(a + b, address).Err?
  {
    if b != [] {
      CollectErrorStays(a, b[..|b| - 1], address);
      assert (a + b)[..|a + b| - 1] == a + b[..|b| - 1];
    } else {
      assert a + b == a;
    }
  }

  /** One more block of the chain listed; a raise there is a raise of the whole listing. */
  lemma ChainNext(pending: seq<Candidate>, chain: seq<Blocks.Block>, b: nat, address: string)
    requires b < |chain|
    ensures pending + ChainCandidates(chain[..b]) + BlockCandidates(chain[b]) == pending + ChainCandidates(chain[..b + 1])
    ensures Collect(pending + ChainCandidates(chain[..b + 1]), address).Err? ==>
              Collect(pending + ChainCandidates(chain), address).Err?
  {
    ChainSnoc(pending, chain, b);
    ChainSplit(pending, chain, b);
    var upTo := pending + ChainCandidates(chain[..b + 1]);
    if Collect(upTo, address).Err? {
      CollectErrorStays(upTo, ChainCandidates(chain[b + 1..]), address);
    }
  }

  lemma ChainSnoc(pending: seq<Candidate>, chain: seq<Blocks.Block>, b: nat)
    requires b < |chain|
    ensures pending + ChainCandidates(chain[..b]) + BlockCandidates(chain[b]) == pending + ChainCandidates(chain[..b + 1])
  {
    assert chain[..b + 1][..b] == chain[..b];
  }

  lemma ChainSplit(pending: seq<Candidate>, chain: seq<Blocks.Block>, b: nat)
    requires b < |chain|
    ensures pending + ChainCandidates(chain[..b + 1]) + ChainCandidates(chain[b + 1..]) == pending + ChainCandidates(chain)
  {
    var x, y := chain[..b + 1], chain[b + 1..];
    SplitAt(chain, b + 1);
    ChainCandidatesAppend(x, y);
    AppendAssoc(pending, ChainCandidates(x), ChainCandidates(y));
  }

  lemma SplitAt<T>(s: seq<T>, i: nat)
    requires i <= |s|
    ensures s[..i] + s[i..] == s
  {
  }

  lemma AppendAssoc<T>(a: seq<T>, b: seq<T>, c: seq<T>)
    ensures a + b + c == a + (b + c)
  {
  }

  /** The candidates of two chains laid end to end. */
  lemma {:induction false} ChainCandidatesAppend(x: seq<Blocks.Block>, y: seq<Blocks.Block>)
    ensures ChainCandidates(x + y) == ChainCandidates(x) + ChainCandidates(y)
  {
    if y == [] {
      assert x + y == x;
    } else {
      var y', last := y[..|y| - 1], y[|y| - 1];
      var xy := x + y;
      ChainCandidatesAppend(x, y');
      assert xy[..|xy| - 1] == x + y';
      assert xy[|xy| - 1] == last;
      assert ChainCandidates(xy) == ChainCandidates(x + y') + BlockCandidates(last);
      assert ChainCandidates(y) == ChainCandidates(y') + BlockCandidates(last);
      AppendAssoc(ChainCandidates(x), ChainCandidates(y'), BlockCandidates(last));
    }
  }

  // ---------- route_transaction_by_id ----------

  datatype Hit = Found(index: nat) | Miss

  /** The scan `if tx["id"] == tx_id`, in chain order: the first match, or a KeyError on a dict
      without an id before any match; a null id is simply unequal. */
  function Search(cs: seq<Candidate>, txId: string): (r: Result<Hit, RouteError>)
    ensures r.Ok? && r.value.Found? ==> r.value.index < |cs|
  {
    if cs == [] then Ok(Miss)
    else if cs[0].json.id.Missing? then Err(ServerError)
    else if cs[0].json.id == Present(txId) then Ok(Found(0))
    else match Search(cs[1..], txId)
      case Err(e) => Err(e)
      case Ok(Miss) => Ok(Miss)
      case Ok(Found(k)) => Ok(Found(k + 1))
  }

  /** Each candidate before position n has an id member, and it is not the one sought. */
  predicate OthersBefore(cs: seq<Candidate>, txId: string, n: nat)
    requires n <= |cs|
  {
    forall i :: 0 <= i < n ==> !cs[i].json.id.Missing? && cs[i].json.id != Present(txId)
  }

  /** A hit is the first dict with the id, a miss means no dict has it, and a raise comes from a
      dict without an id that precedes every match. */
  lemma {:induction false} SearchMeaning(cs: seq<Candidate>, txId: string)
    ensures Search(cs, txId) == Ok(Miss) <==> OthersBefore(cs, txId, |cs|)
    ensures Search(cs, txId).Ok? && Search(cs, txId).value.Found? ==>
      var k := Search(cs, txId).value.index;
      cs[k].json.id == Present(txId) && OthersBefore(cs, txId, k)
    ensures Search(cs, txId).Err? ==>
      exists k :: 0 <= k < |cs| && cs[k].json.id.Missing? && OthersBefore(cs, txId, k)
  {
    if cs != [] {
      SearchMeaning(cs[1..], txId);
      if !cs[0].json.id.Missing? && cs[0].json.id != Present(txId) {
        var r := Search(cs[1..], txId);
        if r.Err? {
          var k :| 0 <= k < |cs[1..]| && cs[1..][k].json.id.Missing? && OthersBefore(cs[1..], txId, k);
          assert cs[k + 1].json.id.Missing? && OthersBefore(cs, txId, k + 1);
        }
      }
      if cs[0].json.id.Missing? {
        assert OthersBefore(cs, txId, 0);
        assert !OthersBefore(cs, txId, |cs|);
      }
    }
  }

  datatype Lookup = InPool(json: TxJson) | InChain(tx: Listed) | Absent

  /** route_transaction_by_id: the pool's entry when the id is a key of transaction_map (a
      Transaction object is always truthy), otherwise the first chain dict with that id listed as
      confirmed, otherwise the empty list. */
  function ById(poolMap: Pool, chain: seq<Blocks.Block>, txId: string): Result<Lookup, RouteError>
  {
    if txId in poolMap then Ok(InPool(ToJson(poolMap[txId])))
    else
      var cs := ChainCandidates(chain);
      match Search(cs, txId)
      case Err(e) => Err(e)
      case Ok(Miss) => Ok(Absent)
      case Ok(Found(k)) =>
        match Describe(cs[k])
        case Err(e) => Err(e)
        case Ok(x) => Ok(InChain(x))
  }

  /** The pool is consulted first; a confirmed answer is the first chain dict with the id, listed
      with its block's height; the empty answer means no dict of the chain has the id. */
  lemma ByIdMeaning(poolMap: Pool, chain: seq<Blocks.Block>, txId: string)
    ensures txId in poolMap ==> ById(poolMap, chain, txId) == Ok(InPool(ToJson(poolMap[txId])))
    ensures ById(poolMap, chain, txId) == Ok(Absent)
            <==> txId !in poolMap && OthersBefore(ChainCandidates(chain), txId, |ChainCandidates(chain)|)
    ensures ById(poolMap, chain, txId).Ok? && ById(poolMap, chain, txId).value.InChain? ==>
      var cs := ChainCandidates(chain);
      var x := ById(poolMap, chain, txId).value.tx;
      && x.id == txId
      && exists k :: 0 <= k < |cs| && cs[k].json.id == Present(txId) && OthersBefore(cs, txId, k) && x.status == cs[k].status
  {
    SearchMeaning(ChainCandidates(chain), txId);
  }
}
