/** The bookkeeping of the PubSub service (backend/services/pubsub.py): peer reliability counts,
    the adaptive chunk size, the chunked block fetch of sync_with_peers, the reply to a block
    request, and the state decisions of handle_message for RESPONSE_CHAIN_LENGTH, NEW_TX and
    RESPONSE_TX_POOL. Sockets, broadcasts, compression and the database are left out: what a
    handler would send is returned, what a peer sends is a parameter, and time.time() is `now`. */
module PubSubs {
  import opened Wrappers
  import opened Config
  import opened Transactions
  import opened TransactionPools
  import Blocks
  import Chains
  import BlockchainRoutes

  const MIN_CHUNK_SIZE: int := 5
  const MAX_CHUNK_SIZE: int := 50
  const CHUNK_STEP: int := 5
  /** tx_pool_request_cooldown, in seconds. */
  const TX_POOL_REQUEST_COOLDOWN: real := 5.0

  // ---------- update_peer_reliability ----------

  /** The failure count the map holds for `uri`; an unknown peer counts as 0. */
  function CountOf(m: map<string, int>, uri: string): int
  {
    if uri in m then m[uri] else 0
  }

  /** One exchange: a failure adds one, a success takes one off but never goes below zero. */
  function CountStep(count: int, success: bool): int
  {
    if success then BlockchainRoutes.Max(0, count - 1) else count + 1
  }

  /** The map after one more exchange with `uri`. */
  function Reliability(m: map<string, int>, uri: string, success: bool): (r: map<string, int>)
    ensures r.Keys == m.Keys + {uri}
  {
    m[uri := CountStep(CountOf(m, uri), success)]
  }

  predicate NonNegativeCounts(m: map<string, int>)
  {
    forall u :: u in m ==> m[u] >= 0
  }

  /** Only the named peer's count moves, by one step in the direction of the outcome, and no
      count becomes negative. */
  lemma ReliabilityMeaning(m: map<string, int>, uri: string, success: bool)
    requires NonNegativeCounts(m)
    ensures NonNegativeCounts(Reliability(m, uri, success))
    ensures forall u :: u in m && u != uri ==> Reliability(m, uri, success)[u] == m[u]
    ensures var before := if uri in m then m[uri] else 0;
            var after := Reliability(m, uri, success)[uri];
            if success then after == before - 1 || after == before == 0 else after == before + 1
  {
  }

  /** Two exchanges with the same peer leave the map holding the count after both steps. */
  lemma ReliabilityTwice(m: map<string, int>, uri: string, a: bool, b: bool)
    ensures Reliability(Reliability(m, uri, a), uri, b) == m[uri := CountStep(CountStep(CountOf(m, uri), a), b)]
  {
    var m1 := Reliability(m, uri, a);
    assert CountOf(m1, uri) == CountStep(CountOf(m, uri), a);
    assert Reliability(m1, uri, b) == m[uri := CountStep(CountOf(m1, uri), b)];
  }

  // ---------- adjust_chunk_size ----------

  function AdjustedChunk(size: int, success: bool): int
  {
    if success then BlockchainRoutes.Min(MAX_CHUNK_SIZE, size + CHUNK_STEP)
    else BlockchainRoutes.Max(MIN_CHUNK_SIZE, size - CHUNK_STEP)
  }

  /** A success gives at most the maximum, a failure at least the minimum; a size already in
      [5, 50] stays there. The starting CHUNK_SIZE of 100 is above the maximum, and a failure
      there only brings it down to 95. */
  lemma AdjustedChunkBounds(size: int, success: bool)
    ensures success ==> AdjustedChunk(size, success) <= MAX_CHUNK_SIZE
    ensures !success ==> AdjustedChunk(size, success) >= MIN_CHUNK_SIZE
    ensures size >= MIN_CHUNK_SIZE ==> AdjustedChunk(size, success) >= MIN_CHUNK_SIZE
    ensures MIN_CHUNK_SIZE <= size <= MAX_CHUNK_SIZE ==> MIN_CHUNK_SIZE <= AdjustedChunk(size, success) <= MAX_CHUNK_SIZE
    ensures CHUNK_SIZE > MAX_CHUNK_SIZE && AdjustedChunk(CHUNK_SIZE, false) == 95
  {
  }

  // ---------- fetch_blocks_from_peer ----------

  /** What a peer answers to one POST /request_blocks: a status with the decoded JSON list of
      block dicts, or nothing usable (the connection or the JSON decoding failed). */
  datatype Reply = Response(status: int, body: seq<Blocks.BlockJson>) | NoResponse

  /** [Block.from_json(d) for d in body]: the first dict from_json rejects raises. */
  function ParseBlocks(body: seq<Blocks.BlockJson>, env: Blocks.BlockEnv): Result<seq<Blocks.Block>, Blocks.BlockError>
  {
    if body == [] then Ok([])
    else match Blocks.FromJson(body[0], env)
         case Err(e) => Err(e)
         case Ok(b) =>
           match ParseBlocks(body[1..], env)
           case Err(e) => Err(e)
           case Ok(bs) => Ok([b] + bs)
  }

  /** The list parses exactly when every dict does, into the blocks from_json gives, in order;
      otherwise the error is that of one of its dicts. */
  lemma {:induction false} ParseBlocksMeaning(body: seq<Blocks.BlockJson>, env: Blocks.BlockEnv)
    ensures ParseBlocks(body, env).Ok? <==> forall i :: 0 <= i < |body| ==> Blocks.FromJson(body[i], env).Ok?
    ensures ParseBlocks(body, env).Ok? ==>
              |ParseBlocks(body, env).value| == |body|
              && forall i :: 0 <= i < |body| ==> ParseBlocks(body, env).value[i] == Blocks.FromJson(body[i], env).value
    ensures ParseBlocks(body, env).Err? ==>
              exists i :: 0 <= i < |body| && Blocks.FromJson(body[i], env).Err? && ParseBlocks(body, env).error == Blocks.FromJson(body[i], env).error
  {
    if body != [] {
      ParseBlocksMeaning(body[1..], env);
      if Blocks.FromJson(body[0], env).Ok? && ParseBlocks(body[1..], env).Ok? {
        forall i | 0 <= i < |body|
          ensures ParseBlocks(body, env).value[i] == Blocks.FromJson(body[i], env).value
        {
          if i > 0 {
            assert body[1..][i - 1] == body[i];
          }
        }
      } else if ParseBlocks(body[1..], env).Err? && Blocks.FromJson(body[0], env).Ok? {
        var i :| 0 <= i < |body[1..]| && Blocks.FromJson(body[1..][i], env).Err? && ParseBlocks(body[1..], env).error == Blocks.FromJson(body[1..][i], env).error;
        assert body[1..][i] == body[i + 1];
      }
    }
  }

  /** The blocks fetch_blocks_from_peer takes as a success: a 200 status whose every dict parses;
      any other status, a parse error and no response are failures. */
  function Delivered(r: Reply, env: Blocks.BlockEnv): Option<seq<Blocks.Block>>
  {
    match r
    case NoResponse => None
    case Response(status, body) =>
      if status != 200 then None
      else match ParseBlocks(body, env)
           case Err(_) => None
           case Ok(bs) => Some(bs)
  }

  /** What fetch_blocks_from_peer returns: the delivered blocks, or [] on failure. */
  function Returned(r: Reply, env: Blocks.BlockEnv): seq<Blocks.Block>
  {
    match Delivered(r, env)
    case None => []
    case Some(bs) => bs
  }

  // ---------- the chunk loop of sync_with_peers ----------

  /** One fetch_blocks_from_peer call: the range asked for, and whether blocks came back. */
  datatype Fetch = Fetch(start: int, end: int, ok: bool)

  /** Where the next fetch starts: the end of the last successful one, or the local length. */
  function NextStart(fs: seq<Fetch>, local: int): int
  {
    if fs == [] then local
    else if fs[|fs| - 1].ok then fs[|fs| - 1].end
    else NextStart(fs[..|fs| - 1], local)
  }

  /** Each fetch starts where the previous successful one ended: start_index advances to
      end_index on success and stays put on failure. */
  predicate Chained(fs: seq<Fetch>, local: int)
  {
    fs == [] || (Chained(fs[..|fs| - 1], local) && fs[|fs| - 1].start == NextStart(fs[..|fs| - 1], local))
  }

  predicate NonEmptyRanges(fs: seq<Fetch>)
  {
    forall k :: 0 <= k < |fs| ==> fs[k].start < fs[k].end
  }

  lemma {:induction false} ChainedPrefix(fs: seq<Fetch>, local: int, n: nat)
    requires Chained(fs, local) && n < |fs|
    ensures Chained(fs[..n], local) && fs[n].start == NextStart(fs[..n], local)
  {
    if n < |fs| - 1 {
      var init := fs[..|fs| - 1];
      ChainedPrefix(init, local, n);
      assert init[..n] == fs[..n];
    }
  }

  lemma {:induction false} NextStartGrows(fs: seq<Fetch>, local: int, i: nat, n: nat)
    requires Chained(fs, local) && NonEmptyRanges(fs) && i <= n <= |fs|
    ensures NextStart(fs[..i], local) <= NextStart(fs[..n], local)
  {
    if i < n {
      NextStartGrows(fs, local, i, n - 1);
      ChainedPrefix(fs, local, n - 1);
      assert fs[..n][..n - 1] == fs[..n - 1];
    }
  }

  /** The successful fetches never overlap: a later fetch starts at or after the end of every
      earlier successful one. */
  lemma FetchesDisjoint(fs: seq<Fetch>, local: int, i: nat, j: nat)
    requires Chained(fs, local) && NonEmptyRanges(fs)
    requires i < j < |fs| && fs[i].ok
    ensures fs[i].end <= fs[j].start
  {
    ChainedPrefix(fs, local, j);
    NextStartGrows(fs, local, i + 1, j);
    assert fs[..i + 1][..i] == fs[..i];
  }

  /** One more fetch, from where the chain of fetches stands, keeps it chained. */
  lemma FetchNext(fs: seq<Fetch>, f: Fetch, local: int)
    requires Chained(fs, local) && NonEmptyRanges(fs)
    requires f.start == NextStart(fs, local) && f.start < f.end
    ensures Chained(fs + [f], local) && NonEmptyRanges(fs + [f])
    ensures NextStart(fs + [f], local) == if f.ok then f.end else f.start
  {
    assert (fs + [f])[..|fs|] == fs;
  }

  /** One reply adjusts the chunk size twice: inside fetch_blocks_from_peer by whether the reply
      was delivered, then in the loop by whether blocks came back. */
  function ReplyChunk(size: int, r: Reply, env: Blocks.BlockEnv): int
  {
    AdjustedChunk(AdjustedChunk(size, Delivered(r, env).Some?), Returned(r, env) != [])
  }

  /** One reply moves the selected peer's failure count twice in the same way. */
  function ReplyCount(count: int, r: Reply, env: Blocks.BlockEnv): int
  {
    CountStep(CountStep(count, Delivered(r, env).Some?), Returned(r, env) != [])
  }

  /** The chunk size after the fetches of the given replies. */
  function ChunkAfter(size: int, rs: seq<Reply>, env: Blocks.BlockEnv): int
  {
    if rs == [] then size else ReplyChunk(ChunkAfter(size, rs[..|rs| - 1], env), rs[|rs| - 1], env)
  }

  /** The selected peer's failure count after the fetches of the given replies. */
  function CountAfter(count: int, rs: seq<Reply>, env: Blocks.BlockEnv): int
  {
    if rs == [] then count else ReplyCount(CountAfter(count, rs[..|rs| - 1], env), rs[|rs| - 1], env)
  }

  /** The blocks of the replies, in order; a failed reply contributes none. */
  function Gathered(rs: seq<Reply>, env: Blocks.BlockEnv): seq<Blocks.Block>
  {
    if rs == [] then [] else Gathered(rs[..|rs| - 1], env) + Returned(rs[|rs| - 1], env)
  }

  lemma AfterNext(size: int, count: int, rs: seq<Reply>, n: nat, env: Blocks.BlockEnv)
    requires n < |rs|
    ensures ChunkAfter(size, rs[..n + 1], env) == ReplyChunk(ChunkAfter(size, rs[..n], env), rs[n], env)
    ensures CountAfter(count, rs[..n + 1], env) == ReplyCount(CountAfter(count, rs[..n], env), rs[n], env)
    ensures Gathered(rs[..n + 1], env) == Gathered(rs[..n], env) + Returned(rs[n], env)
  {
    assert rs[..n + 1][..n] == rs[..n];
  }

  /** The peer counts after fetching the given replies from `peer`: untouched before the first
      fetch, and afterwards only the selected peer's entry changed. */
  function PeerCounts(rel0: map<string, int>, peer: string, rs: seq<Reply>, env: Blocks.BlockEnv): map<string, int>
  {
    if rs == [] then rel0 else rel0[peer := CountAfter(CountOf(rel0, peer), rs, env)]
  }

  /** The fetches drop no peer's entry and change no other peer's. */
  lemma PeerCountsMeaning(rel0: map<string, int>, peer: string, rs: seq<Reply>, env: Blocks.BlockEnv)
    ensures rel0.Keys <= PeerCounts(rel0, peer, rs, env).Keys
    ensures forall u :: u in rel0 && u != peer ==> PeerCounts(rel0, peer, rs, env)[u] == rel0[u]
    ensures rs != [] ==> CountOf(PeerCounts(rel0, peer, rs, env), peer) == CountAfter(CountOf(rel0, peer), rs, env)
  {
  }

  /** A failed fetch moves both values twice: from the initial CHUNK_SIZE of 100 the next range
      is 90 wide, and the peer's count rises by two. */
  lemma FailureCountsTwice(count: int, env: Blocks.BlockEnv)
    ensures ChunkAfter(CHUNK_SIZE, [NoResponse], env) == 90
    ensures CountAfter(count, [NoResponse], env) == count + 2
  {
    assert [NoResponse][..0] == [];
  }

  /** A 200 reply holding no blocks is a success inside fetch_blocks_from_peer and a failure in
      the loop: the count goes down (floored at 0) and then up again, and the chunk size grows
      (capped at 50) and then shrinks (floored at 5). */
  lemma EmptyDeliveryUndone(count: int, size: int, env: Blocks.BlockEnv)
    ensures CountAfter(count, [Response(200, [])], env) == BlockchainRoutes.Max(0, count - 1) + 1
    ensures ChunkAfter(size, [Response(200, [])], env)
            == BlockchainRoutes.Max(MIN_CHUNK_SIZE, BlockchainRoutes.Min(MAX_CHUNK_SIZE, size + CHUNK_STEP) - CHUNK_STEP)
  {
    assert [Response(200, [])][..0] == [];
    assert Delivered(Response(200, []), env) == Some([]);
  }

  /** What the chunk loop has recorded so far: chained fetches, one per reply consumed, each a
      non-empty range within `longest` and at most `width` wide, ok exactly when its reply
      returned blocks. */
  predicate Recorded(fs: seq<Fetch>, replies: seq<Reply>, env: Blocks.BlockEnv, local: int, longest: int, width: int)
  {
    && |fs| <= |replies| && Chained(fs, local) && NonEmptyRanges(fs)
    && (forall k :: 0 <= k < |fs| ==> fs[k].end <= longest && (fs[k].ok <==> Returned(replies[k], env) != []))
    && (forall k :: 0 <= k < |fs| ==> fs[k].end - fs[k].start <= width)
  }

  lemma RecordedNext(fs: seq<Fetch>, f: Fetch, replies: seq<Reply>, env: Blocks.BlockEnv, local: int, longest: int, width: int)
    requires Recorded(fs, replies, env, local, longest, width) && |fs| < |replies|
    requires f.start == NextStart(fs, local) && f.start < f.end <= longest && f.end - f.start <= width
    requires f.ok <==> Returned(replies[|fs|], env) != []
    ensures Recorded(fs + [f], replies, env, local, longest, width)
    ensures NextStart(fs + [f], local) == if f.ok then f.end else f.start
  {
    FetchNext(fs, f, local);
  }

  /** Once at or below a width of at least the maximum, the chunk size stays there. */
  lemma ChunkStaysWithin(size: int, width: int, success: bool)
    requires size <= width && width >= MAX_CHUNK_SIZE
    ensures AdjustedChunk(size, success) <= width
  {
  }

  /** A reply's two adjustments keep the chunk size within any width of at least the maximum. */
  lemma ReplyChunkWithin(size: int, width: int, r: Reply, env: Blocks.BlockEnv)
    requires size <= width && width >= MAX_CHUNK_SIZE
    ensures ReplyChunk(size, r, env) <= width
  {
    ChunkStaysWithin(size, width, Delivered(r, env).Some?);
    ChunkStaysWithin(AdjustedChunk(size, Delivered(r, env).Some?), width, Returned(r, env) != []);
  }

  /** The chunk sizes and the selected peer's counts the loop goes through: entry k is the value
      before the k-th fetch, and that fetch asked for a range of the size `sizes[k]`, cut at
      `longest`. */
  predicate Trace(sizes: seq<int>, counts: seq<int>, fs: seq<Fetch>, replies: seq<Reply>, env: Blocks.BlockEnv, longest: int)
  {
    && |sizes| == |counts| == |fs| + 1 && |fs| <= |replies|
    && forall k {:trigger fs[k]} :: 0 <= k < |fs| ==>
         && fs[k].end == BlockchainRoutes.Min(fs[k].start + sizes[k], longest)
         && sizes[k + 1] == ReplyChunk(sizes[k], replies[k], env)
         && counts[k + 1] == ReplyCount(counts[k], replies[k], env)
  }

  /** The traced values are those ChunkAfter and CountAfter give for the replies so far. */
  lemma {:induction false} TraceMeaning(sizes: seq<int>, counts: seq<int>, fs: seq<Fetch>, replies: seq<Reply>, env: Blocks.BlockEnv,
                                        longest: int, k: nat)
    requires Trace(sizes, counts, fs, replies, env, longest) && k <= |fs|
    ensures sizes[k] == ChunkAfter(sizes[0], replies[..k], env)
    ensures counts[k] == CountAfter(counts[0], replies[..k], env)
  {
    if k == 0 {
      assert replies[..0] == [];
    } else {
      TraceMeaning(sizes, counts, fs, replies, env, longest, k - 1);
      AfterNext(sizes[0], counts[0], replies, k - 1, env);
      assert fs[k - 1].end == BlockchainRoutes.Min(fs[k - 1].start + sizes[k - 1], longest);
    }
  }

  lemma TraceNext(sizes: seq<int>, counts: seq<int>, fs: seq<Fetch>, f: Fetch, replies: seq<Reply>, env: Blocks.BlockEnv, longest: int)
    requires Trace(sizes, counts, fs, replies, env, longest) && |fs| < |replies|
    requires f.end == BlockchainRoutes.Min(f.start + sizes[|fs|], longest)
    ensures Trace(sizes + [ReplyChunk(sizes[|fs|], replies[|fs|], env)], counts + [ReplyCount(counts[|fs|], replies[|fs|], env)],
                  fs + [f], replies, env, longest)
  {
    var n := |fs|;
    var g, ss, cs := fs + [f], sizes + [ReplyChunk(sizes[n], replies[n], env)], counts + [ReplyCount(counts[n], replies[n], env)];
    forall k | 0 <= k < |g|
      ensures && g[k].end == BlockchainRoutes.Min(g[k].start + ss[k], longest)
              && ss[k + 1] == ReplyChunk(ss[k], replies[k], env)
              && cs[k + 1] == ReplyCount(cs[k], replies[k], env)
    {
      if k < n {
        assert g[k] == fs[k] && ss[k] == sizes[k] && ss[k + 1] == sizes[k + 1] && cs[k] == counts[k] && cs[k + 1] == counts[k + 1];
        assert fs[k].end == BlockchainRoutes.Min(fs[k].start + sizes[k], longest);
      } else {
        assert g[k] == f && ss[k] == sizes[n] && cs[k] == counts[n];
      }
    }
  }

  /** Everything the chunk loop keeps after consuming the first |fs| replies: the fetches
      recorded, the blocks gathered, the chunk size reached and the peer counts, where only the
      selected peer's entry has moved, and only once something was fetched. */
  predicate Synced(fs: seq<Fetch>, missing: seq<Blocks.Block>, chunk: int, rel: map<string, int>, peer: string,
                   replies: seq<Reply>, env: Blocks.BlockEnv, local: int, longest: int, width: int,
                   sizes: seq<int>, counts: seq<int>, rel0: map<string, int>)
  {
    && Recorded(fs, replies, env, local, longest, width)
    && Trace(sizes, counts, fs, replies, env, longest)
    && counts[0] == CountOf(rel0, peer)
    && chunk <= width
    && chunk == sizes[|fs|]
    && missing == Gathered(replies[..|fs|], env)
    && rel == (if fs == [] then rel0 else rel0[peer := counts[|fs|]])
  }

  /** One more pass of the chunk loop keeps Synced: `f` is the fetch of [start, min(start +
      chunk, longest)), and the blocks, chunk size and peer counts have moved by the reply. */
  lemma SyncedNext(fs: seq<Fetch>, missing: seq<Blocks.Block>, chunk: int, rel: map<string, int>, peer: string,
                   replies: seq<Reply>, env: Blocks.BlockEnv, local: int, longest: int, width: int,
                   sizes: seq<int>, counts: seq<int>, rel0: map<string, int>, start: int,
                   f: Fetch, missing': seq<Blocks.Block>, chunk': int, rel': map<string, int>, sizes': seq<int>, counts': seq<int>)
    requires Synced(fs, missing, chunk, rel, peer, replies, env, local, longest, width, sizes, counts, rel0)
    requires width >= MAX_CHUNK_SIZE && chunk >= MIN_CHUNK_SIZE
    requires |fs| < |replies| && start == NextStart(fs, local) && start < longest
    requires f == Fetch(start, BlockchainRoutes.Min(start + chunk, longest), Returned(replies[|fs|], env) != [])
    requires missing' == missing + Returned(replies[|fs|], env)
    requires chunk' == ReplyChunk(chunk, replies[|fs|], env) && sizes' == sizes + [chunk']
    requires counts' == counts + [ReplyCount(counts[|fs|], replies[|fs|], env)]
    requires rel' == rel[peer := ReplyCount(CountOf(rel, peer), replies[|fs|], env)]
    ensures Synced(fs + [f], missing', chunk', rel', peer, replies, env, local, longest, width, sizes', counts', rel0)
    ensures NextStart(fs + [f], local) == if f.ok then f.end else f.start
  {
    var n, r := |fs|, replies[|fs|];
    RecordedNext(fs, f, replies, env, local, longest, width);
    TraceNext(sizes, counts, fs, f, replies, env, longest);
    AfterNext(0, 0, replies, n, env);
    ReplyChunkWithin(chunk, width, r, env);
    assert CountOf(rel, peer) == counts[n];
    assert |fs + [f]| == n + 1;
  }

  /** Every fetch asked for a range as wide as the chunk size after the replies before it,
      ChunkAfter of them from `size0`, unless cut at `longest`. */
  predicate RangesSized(fs: seq<Fetch>, replies: seq<Reply>, env: Blocks.BlockEnv, size0: int, longest: int)
    requires |fs| <= |replies|
  {
    forall k {:trigger fs[k]} :: 0 <= k < |fs| ==> fs[k].end == BlockchainRoutes.Min(fs[k].start + ChunkAfter(size0, replies[..k], env), longest)
  }

  lemma TraceEnds(sizes: seq<int>, counts: seq<int>, fs: seq<Fetch>, replies: seq<Reply>, env: Blocks.BlockEnv, longest: int, size0: int)
    requires Trace(sizes, counts, fs, replies, env, longest) && sizes[0] == size0
    ensures RangesSized(fs, replies, env, size0, longest)
  {
    forall k | 0 <= k < |fs|
      ensures fs[k].end == BlockchainRoutes.Min(fs[k].start + ChunkAfter(size0, replies[..k], env), longest)
    {
      TraceMeaning(sizes, counts, fs, replies, env, longest, k);
    }
  }

  /** The peer counts Synced keeps are those of PeerCounts. */
  lemma TraceCounts(sizes: seq<int>, counts: seq<int>, fs: seq<Fetch>, replies: seq<Reply>, env: Blocks.BlockEnv, longest: int,
                    rel: map<string, int>, rel0: map<string, int>, peer: string)
    requires Trace(sizes, counts, fs, replies, env, longest) && counts[0] == CountOf(rel0, peer)
    requires rel == (if fs == [] then rel0 else rel0[peer := counts[|fs|]])
    ensures rel == PeerCounts(rel0, peer, replies[..|fs|], env)
    ensures sizes[|fs|] == ChunkAfter(sizes[0], replies[..|fs|], env)
  {
    TraceMeaning(sizes, counts, fs, replies, env, longest, |fs|);
    if fs == [] {
      assert replies[..|fs|] == [];
    }
  }

  // ---------- REQUEST_BLOCKS ----------

  /** The reply to REQUEST_BLOCKS: everything after the genesis block when this node has exactly
      one peer, otherwise chain[start : min(start + chunk_size, len(chain))]. */
  function BlocksToSend<T>(chain: seq<T>, peerCount: nat, start: int, chunkSize: int): seq<T>
  {
    if peerCount == 1 then BlockchainRoutes.PySlice(chain, 1, |chain|)
    else BlockchainRoutes.PySlice(chain, start, BlockchainRoutes.Min(start + chunkSize, |chain|))
  }

  lemma BlocksToSendMeaning<T>(chain: seq<T>, peerCount: nat, start: int, chunkSize: int)
    ensures peerCount == 1 && chain != [] ==> BlocksToSend(chain, peerCount, start, chunkSize) == chain[1..]
    ensures peerCount != 1 && 0 <= start < |chain| && chunkSize > 0 ==>
      BlocksToSend(chain, peerCount, start, chunkSize) == chain[start..BlockchainRoutes.Min(start + chunkSize, |chain|)]
    ensures peerCount != 1 && start >= |chain| ==>
      BlocksToSend(chain, peerCount, start, chunkSize) == []
    ensures peerCount != 1 && start >= 0 && chunkSize > 0 ==> |BlocksToSend(chain, peerCount, start, chunkSize)| <= chunkSize
  {
  }

  // ---------- NEW_TX and RESPONSE_TX_POOL ----------

  /** transaction.input.get('timestamp', 0). */
  function TxTime(tx: Tx): int
  {
    GetOr(tx.input.timestamp, 0)
  }

  /** The pool as a dict with its key order, the processed ids, and whether the transaction went in. */
  datatype Admission = Admission(m: Pool, order: seq<string>, processed: set<string>, added: bool)

  /** The decision both handlers make for one received transaction. A known id is only replaced
      by a strictly newer timestamp (a known entry without one raises KeyError); an unknown id is
      taken only if it was never processed, and is then recorded as processed. Either way
      set_transaction must accept it; the is_valid call just before it is the same check
      set_transaction starts with. */
  function AdmitTx(m: Pool, order: seq<string>, processed: set<string>, tx: Tx, env: TxEnv): Admission
  {
    var same := Admission(m, order, processed, false);
    if tx.id in m then
      match m[tx.id].input.timestamp
      case None => same
      case Some(t) =>
        if TxTime(tx) <= t then same
        else match SetSpec(m, order, tx, env)
             case Err(_) => same
             case Ok(p) => Admission(p.0, p.1, processed, true)
    else if tx.id in processed then same
    else match SetSpec(m, order, tx, env)
         case Err(_) => same
         case Ok(p) => Admission(p.0, p.1, processed + {tx.id}, true)
  }

  /** What the decision guarantees: nothing changes unless the transaction goes in; it goes in
      only when valid; a known id is replaced only by a strictly newer timestamp and the processed
      set stays as it was; an unknown id goes in only when it was not processed, is appended to
      the key order and becomes processed. */
  lemma AdmitTxMeaning(m: Pool, order: seq<string>, processed: set<string>, tx: Tx, env: TxEnv)
    ensures var a := AdmitTx(m, order, processed, tx, env);
      && (!a.added ==> a == Admission(m, order, processed, false))
      && (a.added ==> IsValid(tx, None, None, env).Pass? && a.m == m[tx.id := tx])
      && (a.added && tx.id in m ==>
            m[tx.id].input.timestamp.Some? && TxTime(tx) > m[tx.id].input.timestamp.value
            && a.processed == processed && a.order == order)
      && (a.added && tx.id !in m ==>
            tx.id !in processed && a.processed == processed + {tx.id} && a.order == order + [tx.id])
      && (tx.id !in m && tx.id in processed ==> !a.added)
  {
    SetSpecMeaning(m, order, tx, env);
    var a := AdmitTx(m, order, processed, tx, env);
    if a.added && tx.id in m {
      assert m[tx.id := tx].Keys == a.m.Keys;
    }
  }

  datatype BatchResult = BatchResult(m: Pool, order: seq<string>, processed: set<string>, count: nat)

  /** One dict of a RESPONSE_TX_POOL batch: skipped when from_json rejects it, otherwise put
      through AdmitTx, counting it when it went in. */
  function BatchStep(b: BatchResult, j: TxJson, env: Blocks.BlockEnv): BatchResult
  {
    match FromJson(j, env.freshId, env.tx)
    case Err(_) => b
    case Ok(tx) =>
      var a := AdmitTx(b.m, b.order, b.processed, tx, env.tx);
      BatchResult(a.m, a.order, a.processed, b.count + if a.added then 1 else 0)
  }

  /** The loop over a RESPONSE_TX_POOL batch, and added_count. */
  function Batch(m: Pool, order: seq<string>, processed: set<string>, data: seq<TxJson>, env: Blocks.BlockEnv): BatchResult
  {
    if data == [] then BatchResult(m, order, processed, 0)
    else BatchStep(Batch(m, order, processed, data[..|data| - 1], env), data[|data| - 1], env)
  }

  lemma {:induction false} BatchExtend(m: Pool, order: seq<string>, processed: set<string>, data: seq<TxJson>, i: nat, env: Blocks.BlockEnv)
    requires i < |data|
    ensures Batch(m, order, processed, data[..i + 1], env) == BatchStep(Batch(m, order, processed, data[..i], env), data[i], env)
  {
    assert data[..i + 1][..i] == data[..i];
  }

  /** A batch in which nothing went in left the pool and the processed set as they were, which is
      when the handler stops the pool sync. */
  lemma {:induction false} BatchNothingAdded(m: Pool, order: seq<string>, processed: set<string>, data: seq<TxJson>, env: Blocks.BlockEnv)
    requires Batch(m, order, processed, data, env).count == 0
    ensures Batch(m, order, processed, data, env) == BatchResult(m, order, processed, 0)
  {
    if data != [] {
      var b := Batch(m, order, processed, data[..|data| - 1], env);
      BatchNothingAdded(m, order, processed, data[..|data| - 1], env);
      match FromJson(data[|data| - 1], env.freshId, env.tx)
      case Err(_) =>
      case Ok(tx) => AdmitTxMeaning(b.m, b.order, b.processed, tx, env.tx);
    }
  }

  /** The processed set only grows, and every id the batch adds to it is in the pool afterwards. */
  lemma {:induction false} BatchProcessedGrows(m: Pool, order: seq<string>, processed: set<string>, data: seq<TxJson>, env: Blocks.BlockEnv)
    ensures processed <= Batch(m, order, processed, data, env).processed
    ensures forall id :: id in Batch(m, order, processed, data, env).processed - processed ==> id in Batch(m, order, processed, data, env).m
  {
    if data != [] {
      var b := Batch(m, order, processed, data[..|data| - 1], env);
      BatchProcessedGrows(m, order, processed, data[..|data| - 1], env);
      match FromJson(data[|data| - 1], env.freshId, env.tx)
      case Err(_) =>
      case Ok(tx) =>
        AdmitTxMeaning(b.m, b.order, b.processed, tx, env.tx);
        var a := AdmitTx(b.m, b.order, b.processed, tx, env.tx);
        if a.added {
          SetSpecMeaning(b.m, b.order, tx, env.tx);
        }
    }
  }

  // ---------- RESPONSE_CHAIN_LENGTH ----------

  /** The block request sent on RESPONSE_CHAIN_LENGTH: from the local length, and only when the
      peer's chain is longer and no sync is under way. */
  function ChainLengthRequest(peerLength: int, localLength: nat, syncing: bool): Option<nat>
  {
    if peerLength > localLength && !syncing then Some(localLength) else None
  }

  /** A request goes out exactly when the peer is ahead and no sync runs; while a sync runs, no
      further request goes out however long the peer's chain. */
  lemma ChainLengthRequestMeaning(peerLength: int, localLength: nat, syncing: bool)
    ensures ChainLengthRequest(peerLength, localLength, syncing).Some? <==> peerLength > localLength && !syncing
    ensures ChainLengthRequest(peerLength, localLength, syncing).Some? ==>
              ChainLengthRequest(peerLength, localLength, syncing).value == localLength
    ensures syncing ==> ChainLengthRequest(peerLength, localLength, syncing) == None
  {
  }

  class PubSub {
    var blockchain: Chains.Blockchain
    var pool: TransactionPool
    /** The uris of peer_nodes; only its size is read here. */
    var peerNodes: set<string>
    var peerReliability: map<string, int>
    var chunkSize: int
    var syncingChain: bool
    var txPoolSyncing: bool
    var processedTransactions: set<string>
    var lastTxPoolRequest: real

    ghost predicate Valid()
      reads this, pool
    {
      pool.Valid() && chunkSize >= MIN_CHUNK_SIZE && NonNegativeCounts(peerReliability)
    }

    /** PubSub(blockchain, transaction_pool): no peers, no counts, CHUNK_SIZE, nothing syncing. */
    constructor (blockchain: Chains.Blockchain, pool: TransactionPool)
      requires pool.Valid()
      ensures Valid()
      ensures this.blockchain == blockchain && this.pool == pool
      ensures peerNodes == {} && peerReliability == map[] && chunkSize == CHUNK_SIZE
      ensures !syncingChain && !txPoolSyncing && processedTransactions == {} && lastTxPoolRequest == 0.0
    {
      this.blockchain := blockchain;
      this.pool := pool;
      peerNodes := {};
      peerReliability := map[];
      chunkSize := CHUNK_SIZE;
      syncingChain := false;
      txPoolSyncing := false;
      processedTransactions := {};
      lastTxPoolRequest := 0.0;
    }

    /** The links to the chain, the pool and the peers, which no handler here changes. */
    twostate predicate SameLinks()
      reads this
    {
      blockchain == old(blockchain) && pool == old(pool) && peerNodes == old(peerNodes)
    }

    /** update_peer_reliability(uri, success). */
    method UpdatePeerReliability(uri: string, success: bool)
      modifies this
      ensures peerReliability == Reliability(old(peerReliability), uri, success)
      ensures SameLinks() && chunkSize == old(chunkSize) && syncingChain == old(syncingChain)
      ensures txPoolSyncing == old(txPoolSyncing) && processedTransactions == old(processedTransactions)
      ensures lastTxPoolRequest == old(lastTxPoolRequest)
    {
      if uri !in peerReliability {
        peerReliability := peerReliability[uri := 0];
      }
      if !success {
        peerReliability := peerReliability[uri := peerReliability[uri] + 1];
      } else {
        peerReliability := peerReliability[uri := BlockchainRoutes.Max(0, peerReliability[uri] - 1)];
      }
    }

    /** adjust_chunk_size(success). */
    method AdjustChunkSize(success: bool)
      modifies this
      ensures chunkSize == AdjustedChunk(old(chunkSize), success)
      ensures SameLinks() && peerReliability == old(peerReliability) && syncingChain == old(syncingChain)
      ensures txPoolSyncing == old(txPoolSyncing) && processedTransactions == old(processedTransactions)
      ensures lastTxPoolRequest == old(lastTxPoolRequest)
    {
      if success {
        chunkSize := BlockchainRoutes.Min(MAX_CHUNK_SIZE, chunkSize + CHUNK_STEP);
      } else {
        chunkSize := BlockchainRoutes.Max(MIN_CHUNK_SIZE, chunkSize - CHUNK_STEP);
      }
    }

    /** fetch_blocks_from_peer(uri, start, end), given the peer's reply: a success (status 200,
        every dict parsed) counts as a success for the peer and the chunk size and returns the
        blocks; anything else counts as a failure and returns []. */
    method FetchBlocksFromPeer(uri: string, reply: Reply, env: Blocks.BlockEnv) returns (blocks: seq<Blocks.Block>)
      requires Valid()
      modifies this
      ensures Valid()
      ensures blocks == Returned(reply, env)
      ensures peerReliability == Reliability(old(peerReliability), uri, Delivered(reply, env).Some?)
      ensures chunkSize == AdjustedChunk(old(chunkSize), Delivered(reply, env).Some?)
      ensures SameLinks() && syncingChain == old(syncingChain) && txPoolSyncing == old(txPoolSyncing)
      ensures processedTransactions == old(processedTransactions) && lastTxPoolRequest == old(lastTxPoolRequest)
    {
      ReliabilityMeaning(peerReliability, uri, Delivered(reply, env).Some?);
      if reply.Response? && reply.status == 200 {
        var parsed := ParseBlocks(reply.body, env);
        if parsed.Ok? {
          UpdatePeerReliability(uri, true);
          AdjustChunkSize(true);
          return parsed.value;
        }
      }
      UpdatePeerReliability(uri, false);
      AdjustChunkSize(false);
      blocks := [];
    }

    /** One pass of the chunk loop's body: fetch_blocks_from_peer, then the loop's own
        update_peer_reliability and adjust_chunk_size by whether blocks came back. */
    method FetchAndAdjust(peer: string, reply: Reply, env: Blocks.BlockEnv) returns (blocks: seq<Blocks.Block>)
      requires Valid()
      modifies this
      ensures Valid()
      ensures blocks == Returned(reply, env)
      ensures peerReliability == old(peerReliability)[peer := ReplyCount(CountOf(old(peerReliability), peer), reply, env)]
      ensures chunkSize == ReplyChunk(old(chunkSize), reply, env)
      ensures SameLinks() && syncingChain == old(syncingChain) && txPoolSyncing == old(txPoolSyncing)
      ensures processedTransactions == old(processedTransactions) && lastTxPoolRequest == old(lastTxPoolRequest)
    {
      ReliabilityTwice(peerReliability, peer, Delivered(reply, env).Some?, Returned(reply, env) != []);
      blocks := FetchBlocksFromPeer(peer, reply, env);
      ReliabilityMeaning(peerReliability, peer, blocks != []);
      UpdatePeerReliability(peer, blocks != []);
      AdjustChunkSize(blocks != []);
    }

    /** The chunk loop of sync_with_peers against the selected peer. `replies[i]` is the peer's
        answer to the i-th fetch; the source retries a failing peer without end, so the loop also
        stops when the replies run out. Every fetch asks for [start, min(start + chunk_size,
        longest)) with the chunk size of that moment, the fetches are chained, the blocks are
        those the replies returned, in order, and each fetch moves the selected peer's count and
        the chunk size twice: once inside fetch_blocks_from_peer and once in the loop. */
    method SyncChunks(peer: string, localLength: int, longest: int, replies: seq<Reply>, env: Blocks.BlockEnv)
      returns (missing: seq<Blocks.Block>, fetches: seq<Fetch>)
      requires Valid()
      modifies this
      ensures Valid()
      ensures |fetches| <= |replies|
      ensures Chained(fetches, localLength) && NonEmptyRanges(fetches)
      ensures forall k :: 0 <= k < |fetches| ==> fetches[k].end <= longest && (fetches[k].ok <==> Returned(replies[k], env) != [])
      ensures RangesSized(fetches, replies, env, old(chunkSize), longest)
      ensures forall k :: 0 <= k < |fetches| ==> fetches[k].end - fetches[k].start <= BlockchainRoutes.Max(old(chunkSize), MAX_CHUNK_SIZE)
      ensures missing == Gathered(replies[..|fetches|], env)
      ensures NextStart(fetches, localLength) >= longest || |fetches| == |replies|
      ensures localLength <= longest ==> NextStart(fetches, localLength) <= longest
      ensures chunkSize == ChunkAfter(old(chunkSize), replies[..|fetches|], env)
      ensures peerReliability == PeerCounts(old(peerReliability), peer, replies[..|fetches|], env)
      ensures old(peerReliability).Keys <= peerReliability.Keys
      ensures forall u :: u in old(peerReliability) && u != peer ==> peerReliability[u] == old(peerReliability)[u]
      ensures SameLinks() && syncingChain == old(syncingChain) && txPoolSyncing == old(txPoolSyncing)
      ensures processedTransactions == old(processedTransactions) && lastTxPoolRequest == old(lastTxPoolRequest)
    {
      ghost var width := BlockchainRoutes.Max(chunkSize, MAX_CHUNK_SIZE);
      ghost var rel0 := peerReliability;
      ghost var sizes, counts := [chunkSize], [CountOf(peerReliability, peer)];
      var start := localLength;
      missing := [];
      fetches := [];
      assert replies[..0] == [];
      while start < longest && |fetches| < |replies|
        invariant Valid()
        invariant Synced(fetches, missing, chunkSize, peerReliability, peer, replies, env, localLength, longest, width, sizes, counts, rel0)
        invariant sizes[0] == old(chunkSize)
        invariant NextStart(fetches, localLength) == start
        invariant localLength <= longest ==> start <= longest
        invariant SameLinks() && syncingChain == old(syncingChain) && txPoolSyncing == old(txPoolSyncing)
        invariant processedTransactions == old(processedTransactions) && lastTxPoolRequest == old(lastTxPoolRequest)
        decreases |replies| - |fetches|
      {
        var end := BlockchainRoutes.Min(start + chunkSize, longest);
        var reply := replies[|fetches|];
        ghost var fs, ms, chunk, rel, ss, cs, start0 := fetches, missing, chunkSize, peerReliability, sizes, counts, start;
        var blocks := FetchAndAdjust(peer, reply, env);
        var f := Fetch(start, end, blocks != []);
        missing := missing + blocks;
        if blocks != [] {
          start := end;
        }
        sizes, counts := sizes + [chunkSize], counts + [ReplyCount(counts[|fetches|], reply, env)];
        fetches := fetches + [f];
        SyncedNext(fs, ms, chunk, rel, peer, replies, env, localLength, longest, width, ss, cs, rel0, start0,
                   f, missing, chunkSize, peerReliability, sizes, counts);
      }
      TraceEnds(sizes, counts, fetches, replies, env, longest, old(chunkSize));
      TraceCounts(sizes, counts, fetches, replies, env, longest, peerReliability, rel0, peer);
      PeerCountsMeaning(rel0, peer, replies[..|fetches|], env);
    }

    /** The RESPONSE_CHAIN_LENGTH handler: the block request it sends, if any, and the flag. */
    method OnChainLength(peerLength: int) returns (request: Option<nat>)
      modifies this
      ensures request == ChainLengthRequest(peerLength, |blockchain.chain|, old(syncingChain))
      ensures syncingChain == (old(syncingChain) || request.Some?)
      ensures SameLinks() && peerReliability == old(peerReliability) && chunkSize == old(chunkSize)
      ensures txPoolSyncing == old(txPoolSyncing) && processedTransactions == old(processedTransactions)
      ensures lastTxPoolRequest == old(lastTxPoolRequest)
    {
      var localLength := |blockchain.chain|;
      request := None;
      if peerLength > localLength && !syncingChain {
        request := Some(localLength);
        syncingChain := true;
      }
    }

    /** The shared step of NEW_TX and RESPONSE_TX_POOL for one parsed transaction. */
    method AdmitOne(tx: Tx, env: TxEnv) returns (added: bool)
      requires Valid()
      modifies this, pool
      ensures Valid()
      ensures var a := AdmitTx(old(pool.transactionMap), old(pool.order), old(processedTransactions), tx, env);
        added == a.added && pool.transactionMap == a.m && pool.order == a.order && processedTransactions == a.processed
      ensures SameLinks() && peerReliability == old(peerReliability) && chunkSize == old(chunkSize)
      ensures syncingChain == old(syncingChain) && txPoolSyncing == old(txPoolSyncing)
      ensures lastTxPoolRequest == old(lastTxPoolRequest)
    {
      if tx.id in pool.transactionMap {
        var ts := pool.transactionMap[tx.id].input.timestamp;
        if ts.None? || TxTime(tx) <= ts.value {
          return false;
        }
        var r := pool.SetTransaction(tx, env);
        added := r.Pass?;
      } else if tx.id in processedTransactions {
        return false;
      } else {
        var r := pool.SetTransaction(tx, env);
        if r.Pass? {
          processedTransactions := processedTransactions + {tx.id};
        }
        added := r.Pass?;
      }
    }

    /** The NEW_TX handler for one dict: whether it is relayed to the other peers. A dict that
        from_json rejects changes nothing. Admitting a transaction also starts a pool sync once
        the cooldown has passed. */
    method OnNewTx(j: TxJson, env: Blocks.BlockEnv, now: real) returns (relay: bool)
      requires Valid()
      modifies this, pool
      ensures Valid()
      ensures FromJson(j, env.freshId, env.tx).Err? ==>
        !relay && pool.transactionMap == old(pool.transactionMap) && pool.order == old(pool.order)
        && processedTransactions == old(processedTransactions)
        && txPoolSyncing == old(txPoolSyncing) && lastTxPoolRequest == old(lastTxPoolRequest)
      ensures FromJson(j, env.freshId, env.tx).Ok? ==>
        var a := AdmitTx(old(pool.transactionMap), old(pool.order), old(processedTransactions),
                         FromJson(j, env.freshId, env.tx).value, env.tx);
        var request := a.added && now - old(lastTxPoolRequest) > TX_POOL_REQUEST_COOLDOWN;
        && relay == a.added
        && pool.transactionMap == a.m && pool.order == a.order && processedTransactions == a.processed
        && txPoolSyncing == (old(txPoolSyncing) || request)
        && lastTxPoolRequest == (if request then now else old(lastTxPoolRequest))
      ensures SameLinks() && peerReliability == old(peerReliability) && chunkSize == old(chunkSize)
      ensures syncingChain == old(syncingChain)
    {
      var parsed := FromJson(j, env.freshId, env.tx);
      if parsed.Err? {
        return false;
      }
      relay := AdmitOne(parsed.value, env.tx);
      if relay && now - lastTxPoolRequest > TX_POOL_REQUEST_COOLDOWN {
        txPoolSyncing := true;
        lastTxPoolRequest := now;
      }
    }

    /** The body of RESPONSE_TX_POOL's loop for one dict, from the batch so far (b): whether it
        went in. */
    method AdmitJson(j: TxJson, env: Blocks.BlockEnv, ghost b: BatchResult) returns (ok: bool)
      requires Valid()
      requires b.m == pool.transactionMap && b.order == pool.order && b.processed == processedTransactions
      modifies this, pool
      ensures Valid()
      ensures var b' := BatchStep(b, j, env);
        b'.count == b.count + (if ok then 1 else 0)
        && pool.transactionMap == b'.m && pool.order == b'.order && processedTransactions == b'.processed
      ensures SameLinks() && peerReliability == old(peerReliability) && chunkSize == old(chunkSize)
      ensures syncingChain == old(syncingChain) && txPoolSyncing == old(txPoolSyncing)
      ensures lastTxPoolRequest == old(lastTxPoolRequest)
    {
      var parsed := FromJson(j, env.freshId, env.tx);
      ok := false;
      if parsed.Ok? {
        ok := AdmitOne(parsed.value, env.tx);
      }
    }

    /** The RESPONSE_TX_POOL handler: ignored unless a pool sync is under way; otherwise the batch
        goes through Batch, and a batch that adds nothing ends the sync. */
    method OnTxPool(data: seq<TxJson>, env: Blocks.BlockEnv, now: real) returns (added: nat)
      requires Valid()
      modifies this, pool
      ensures Valid()
      ensures !old(txPoolSyncing) ==>
        added == 0 && pool.transactionMap == old(pool.transactionMap) && pool.order == old(pool.order)
        && processedTransactions == old(processedTransactions)
        && !txPoolSyncing && lastTxPoolRequest == old(lastTxPoolRequest)
      ensures old(txPoolSyncing) ==>
        var b := Batch(old(pool.transactionMap), old(pool.order), old(processedTransactions), data, env);
        && added == b.count
        && pool.transactionMap == b.m && pool.order == b.order && processedTransactions == b.processed
        && txPoolSyncing == (added > 0)
        && lastTxPoolRequest == (if added > 0 && now - old(lastTxPoolRequest) > TX_POOL_REQUEST_COOLDOWN then now else old(lastTxPoolRequest))
      ensures SameLinks() && peerReliability == old(peerReliability) && chunkSize == old(chunkSize)
      ensures syncingChain == old(syncingChain)
    {
      if !txPoolSyncing {
        return 0;
      }
      added := 0;
      var i := 0;
      while i < |data|
        invariant 0 <= i <= |data| && Valid()
        invariant var b := Batch(old(pool.transactionMap), old(pool.order), old(processedTransactions), data[..i], env);
          added == b.count && pool.transactionMap == b.m && pool.order == b.order && processedTransactions == b.processed
        invariant SameLinks() && peerReliability == old(peerReliability) && chunkSize == old(chunkSize)
        invariant syncingChain == old(syncingChain) && txPoolSyncing == old(txPoolSyncing)
        invariant lastTxPoolRequest == old(lastTxPoolRequest)
      {
        ghost var b := Batch(old(pool.transactionMap), old(pool.order), old(processedTransactions), data[..i], env);
        BatchExtend(old(pool.transactionMap), old(pool.order), old(processedTransactions), data, i, env);
        var ok := AdmitJson(data[i], env, b);
        if ok {
          added := added + 1;
        }
        i := i + 1;
      }
      assert data[..i] == data;
      if added == 0 {
        txPoolSyncing := false;
      } else if now - lastTxPoolRequest > TX_POOL_REQUEST_COOLDOWN {
        lastTxPoolRequest := now;
      }
    }
  }
}
