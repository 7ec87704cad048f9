/** The query arithmetic of the chain endpoints in backend/routers/blockchain.py: pagination,
    latest blocks, ranges, the halving report and the lookup by height. Each handler is a
    function of the chain (a sequence of blocks of any type) and the query parameters; FastAPI's
    validation of the query parameters is the Unprocessable error. */
module BlockchainRoutes {
  import opened Wrappers
  import opened Config

  const DEFAULT_PAGE_SIZE: nat := 10
  const MAX_PAGE_SIZE: nat := 100

  /** The HTTP errors the handlers raise: 400, 404, and 422 for a query parameter outside the
      bounds its Query(...) declares. */
  datatype HttpError = BadRequest | NotFound | Unprocessable

  function Max(a: int, b: int): int { if a >= b then a else b }
  function Min(a: int, b: int): int { if a <= b then a else b }

  // ---------- Python sequences ----------

  /** s[::-1]. */
  function Reversed<T>(s: seq<T>): (r: seq<T>)
    ensures |r| == |s|
  {
    seq(|s|, i requires 0 <= i < |s| => s[|s| - 1 - i])
  }

  lemma ReversedAppend<T>(a: seq<T>, b: seq<T>)
    ensures Reversed(a + b) == Reversed(b) + Reversed(a)
  {
    var l, r := Reversed(a + b), Reversed(b) + Reversed(a);
    assert |l| == |r|;
    forall i | 0 <= i < |l| ensures l[i] == r[i] {
      if i < |b| {
        assert r[i] == Reversed(b)[i];
      } else {
        assert r[i] == Reversed(a)[i - |b|];
      }
    }
  }

  /** How a slice bound is normalised: a negative bound counts from the end, and both are then
      clamped to the sequence. */
  function SliceIndex(i: int, n: nat): (r: nat)
    ensures r <= n
  {
    if i < 0 then (if i + n < 0 then 0 else i + n) else Min(i, n)
  }

  /** s[a:b] with Python's semantics: never an error, empty when the bounds cross. */
  function PySlice<T>(s: seq<T>, a: int, b: int): (r: seq<T>)
  {
    var i, j := SliceIndex(a, |s|), SliceIndex(b, |s|);
    if i < j then s[i..j] else []
  }

  // ---------- get_paginated_blocks ----------

  /** (n + d - 1) // d. */
  function CeilDiv(n: nat, d: nat): nat
    requires d > 0
  {
    (n + d - 1) / d
  }

  /** total_pages is the ceiling of total_blocks / page_size: the fewest pages that hold them. */
  lemma CeilDivMeaning(n: nat, d: nat)
    requires d > 0
    ensures CeilDiv(n, d) * d >= n
    ensures n > 0 ==> CeilDiv(n, d) >= 1 && (CeilDiv(n, d) - 1) * d < n
  {
    var q := CeilDiv(n, d);
    var m := (n + d - 1) % d;
    assert n + d - 1 == q * d + m;
    assert (q - 1) * d == q * d - d;
  }

  /** n * page_size, written as repeated addition so that proofs about pages need no
      multiplication (BackIsProduct). */
  function Back(n: nat, pageSize: int): (r: int)
    ensures pageSize >= 0 ==> r >= 0
  {
    if n == 0 then 0 else Back(n - 1, pageSize) + pageSize
  }

  lemma {:induction false} BackIsProduct(n: nat, pageSize: int)
    ensures Back(n, pageSize) == n * pageSize
  {
    if n > 0 {
      BackIsProduct(n - 1, pageSize);
      assert n * pageSize == (n - 1) * pageSize + pageSize;
    }
  }

  /** The blocks of one page: chain[max(0, total - page*size) : max(0, total - (page-1)*size)],
      newest first. */
  function PageBlocks<T>(chain: seq<T>, page: nat, pageSize: int): seq<T>
    requires page >= 1
  {
    var total := |chain|;
    Reversed(PySlice(chain, Max(0, total - Back(page, pageSize)), Max(0, total - Back(page - 1, pageSize))))
  }

  datatype Page<T> = Page(blocks: seq<T>, page: int, pageSize: int, totalBlocks: int,
                          totalPages: int, hasNext: bool, hasPrevious: bool)

  /** The query bounds of get_paginated_blocks: page >= 1 and 1 <= page_size <= MAX_PAGE_SIZE. */
  predicate PageQueryOk(page: int, pageSize: int)
  {
    page >= 1 && 1 <= pageSize <= MAX_PAGE_SIZE
  }

  /** get_paginated_blocks. The source's branch for total_pages == 0 is unreachable, since the
      chain is not empty at that point. */
  function Paginated<T>(chain: seq<T>, page: int, pageSize: int): (r: Result<Page<T>, HttpError>)
    ensures r.Err? && r.error == Unprocessable <==> !PageQueryOk(page, pageSize)
    ensures r.Err? && r.error == NotFound <==> PageQueryOk(page, pageSize) && chain == []
  {
    if !PageQueryOk(page, pageSize) then Err(Unprocessable)
    else if chain == [] then Err(NotFound)
    else
      var totalPages := CeilDiv(|chain|, pageSize);
      if page > totalPages then Err(BadRequest)
      else Ok(Page(PageBlocks(chain, page, pageSize), page, pageSize, |chain|, totalPages,
                   page < totalPages, page > 1))
  }

  /** A page after the last is refused, and only such a page. */
  lemma PaginatedRejectsPastEnd<T>(chain: seq<T>, page: int, pageSize: int)
    requires PageQueryOk(page, pageSize) && chain != []
    ensures Paginated(chain, page, pageSize) == Err(BadRequest)
            <==> (page - 1) * pageSize >= |chain|
  {
    CeilDivMeaning(|chain|, pageSize);
    var t := CeilDiv(|chain|, pageSize);
    if page > t {
      assert (page - 1) * pageSize >= t * pageSize;
    } else {
      assert (page - 1) * pageSize <= (t - 1) * pageSize;
    }
  }

  /** Where page number `page` starts, counting back from the newest block: before it come
      (page - 1) * page_size blocks, fewer than the chain holds; a page that is not the last
      is full. */
  lemma PageOffset(total: nat, page: int, pageSize: int, b: int)
    requires pageSize >= 1 && total > 0 && 1 <= page <= CeilDiv(total, pageSize)
    requires b == (page - 1) * pageSize
    ensures 0 <= b < total && page * pageSize == b + pageSize
    ensures page < CeilDiv(total, pageSize) ==> b + pageSize <= total
  {
    CeilDivMeaning(total, pageSize);
    var t := CeilDiv(total, pageSize);
    MulMonotone(page - 1, t - 1, pageSize);
    if page < t {
      MulMonotone(page, t - 1, pageSize);
    }
  }

  /** An accepted page: total_pages is the ceiling, the page is one of them, it holds the blocks
      counted back from the newest, at most page_size of them and exactly page_size unless it is
      the last, and has_next / has_previous say whether other pages follow or precede. */
  lemma PaginatedMeaning<T>(chain: seq<T>, page: int, pageSize: int)
    requires Paginated(chain, page, pageSize).Ok?
    ensures var p := Paginated(chain, page, pageSize).value;
      && p.totalBlocks == |chain|
      && p.totalPages * pageSize >= |chain| > (p.totalPages - 1) * pageSize
      && 1 <= page <= p.totalPages
      && |p.blocks| <= pageSize
      && 0 <= (page - 1) * pageSize && |p.blocks| <= |chain| - (page - 1) * pageSize
      && (page < p.totalPages ==> |p.blocks| == pageSize)
      && (forall k :: 0 <= k < |p.blocks| ==> p.blocks[k] == chain[|chain| - 1 - (page - 1) * pageSize - k])
      && (p.hasNext <==> page < p.totalPages)
      && (p.hasPrevious <==> page > 1)
  {
    CeilDivMeaning(|chain|, pageSize);
    var total := |chain|;
    var b := (page - 1) * pageSize;
    PageOffset(total, page, pageSize, b);
    BackIsProduct(page, pageSize);
    BackIsProduct(page - 1, pageSize);
    var lo := Max(0, total - page * pageSize);
    assert PySlice(chain, lo, Max(0, total - b)) == chain[lo..total - b];
  }

  /** Pages 1 .. n, in order. */
  function AllPages<T>(chain: seq<T>, pageSize: int, n: nat): seq<T>
  {
    if n == 0 then [] else AllPages(chain, pageSize, n - 1) + PageBlocks(chain, n, pageSize)
  }

  lemma {:induction false} PySliceInRange<T>(s: seq<T>, a: int, b: int)
    requires 0 <= a <= b <= |s|
    ensures PySlice(s, a, b) == s[a..b]
  {
  }

  lemma {:induction false} PageBlocksAt<T>(chain: seq<T>, n: nat, pageSize: int, lo: int, mid: int)
    requires n >= 1
    requires lo == Max(0, |chain| - Back(n, pageSize)) && mid == Max(0, |chain| - Back(n - 1, pageSize))
    requires 0 <= lo <= mid <= |chain|
    ensures PageBlocks(chain, n, pageSize) == Reversed(chain[lo..mid])
  {
    PySliceInRange(chain, lo, mid);
  }

  lemma {:induction false} ReversedSplit<T>(s: seq<T>, lo: nat, mid: nat)
    requires lo <= mid <= |s|
    ensures Reversed(s[lo..]) == Reversed(s[mid..]) + Reversed(s[lo..mid])
  {
    assert s[lo..] == s[lo..mid] + s[mid..];
    ReversedAppend(s[lo..mid], s[mid..]);
  }

  lemma {:induction false} AllPagesStep<T>(chain: seq<T>, pageSize: int, n: nat)
    requires n >= 1
    ensures AllPages(chain, pageSize, n) == AllPages(chain, pageSize, n - 1) + PageBlocks(chain, n, pageSize)
  {
  }

  /** One more page extends the suffix covered so far by page_size blocks. */
  lemma {:induction false} AllPagesNext<T>(chain: seq<T>, pageSize: int, m: nat, n: nat)
    requires pageSize >= 1 && n == m + 1
    requires AllPages(chain, pageSize, m) == Reversed(chain[Max(0, |chain| - Back(m, pageSize))..])
    ensures AllPages(chain, pageSize, n) == Reversed(chain[Max(0, |chain| - Back(n, pageSize))..])
  {
    var total := |chain|;
    assert Back(n, pageSize) == Back(m, pageSize) + pageSize;
    var lo, mid := Max(0, total - Back(n, pageSize)), Max(0, total - Back(m, pageSize));
    var a, b := AllPages(chain, pageSize, m), PageBlocks(chain, n, pageSize);
    assert AllPages(chain, pageSize, n) == a + b by {
      AllPagesStep(chain, pageSize, n);
      assert AllPages(chain, pageSize, n - 1) == a;
    }
    assert b == Reversed(chain[lo..mid]) by {
      PageBlocksAt(chain, n, pageSize, lo, mid);
    }
    assert Reversed(chain[lo..]) == Reversed(chain[mid..]) + Reversed(chain[lo..mid]) by {
      ReversedSplit(chain, lo, mid);
    }
  }

  /** Pages 1 .. n together are the newest n * page_size blocks, newest first. */
  lemma {:induction false} AllPagesSuffix<T>(chain: seq<T>, pageSize: int, n: nat)
    requires pageSize >= 1
    ensures AllPages(chain, pageSize, n) == Reversed(chain[Max(0, |chain| - Back(n, pageSize))..])
  {
    if n == 0 {
      assert chain[|chain|..] == [];
    } else {
      var m: nat := n - 1;
      AllPagesSuffix(chain, pageSize, m);
      AllPagesNext(chain, pageSize, m, n);
    }
  }

  /** Pages 1 .. total_pages together are the whole chain, newest first: no block is missed and
      none appears twice. */
  lemma PagesCoverChain<T>(chain: seq<T>, pageSize: int)
    requires 1 <= pageSize
    ensures AllPages(chain, pageSize, CeilDiv(|chain|, pageSize)) == Reversed(chain)
  {
    CeilDivMeaning(|chain|, pageSize);
    AllPagesSuffix(chain, pageSize, CeilDiv(|chain|, pageSize));
    BackIsProduct(CeilDiv(|chain|, pageSize), pageSize);
    assert chain[0..] == chain;
  }

  // ---------- get_latest_blocks ----------

  /** chain[-limit:][::-1], with limit between 1 and MAX_PAGE_SIZE. */
  function Latest<T>(chain: seq<T>, limit: int): (r: Result<seq<T>, HttpError>)
    ensures r.Err? && r.error == Unprocessable <==> !(1 <= limit <= MAX_PAGE_SIZE)
    ensures r.Err? && r.error == NotFound <==> 1 <= limit <= MAX_PAGE_SIZE && chain == []
  {
    if !(1 <= limit <= MAX_PAGE_SIZE) then Err(Unprocessable)
    else if chain == [] then Err(NotFound)
    else Ok(Reversed(PySlice(chain, -limit, |chain|)))
  }

  /** The last min(limit, len) blocks, newest first. */
  lemma LatestMeaning<T>(chain: seq<T>, limit: int)
    requires Latest(chain, limit).Ok?
    ensures var r := Latest(chain, limit).value;
      && |r| == Min(limit, |chain|)
      && forall k :: 0 <= k < |r| ==> r[k] == chain[|chain| - 1 - k]
  {
  }

  /** The latest `limit` blocks are the first page of that size. */
  lemma LatestIsFirstPage<T>(chain: seq<T>, limit: int)
    requires Latest(chain, limit).Ok?
    ensures Paginated(chain, 1, limit).Ok?
    ensures Latest(chain, limit).value == Paginated(chain, 1, limit).value.blocks
  {
    CeilDivMeaning(|chain|, limit);
    assert Back(1, limit) == limit && Back(0, limit) == 0;
  }

  // ---------- route_blockchain_range ----------

  /** route_blockchain_range, with start >= 0 and end >= 0. The source's normalisation of
      negative bounds is unreachable under those bounds. */
  function Range<T>(chain: seq<T>, start: int, end: int, reverse: bool): (r: Result<seq<T>, HttpError>)
  {
    if start < 0 || end < 0 then Err(Unprocessable)
    else if start >= |chain| && |chain| > 0 then Ok([])
    else if start >= end then Err(BadRequest)
    else
      var blocks := PySlice(chain, start, end);
      Ok(if reverse then Reversed(blocks) else blocks)
  }

  /** A range is refused exactly when its bounds are negative, or it is empty and does not start
      past the end of a non-empty chain; otherwise it holds chain[start .. min(end, len)], in
      order or newest first. */
  lemma RangeMeaning<T>(chain: seq<T>, start: int, end: int, reverse: bool)
    ensures Range(chain, start, end, reverse) == Err(Unprocessable) <==> start < 0 || end < 0
    ensures Range(chain, start, end, reverse) == Err(BadRequest)
            <==> 0 <= end <= start && (start < |chain| || chain == [])
    ensures Range(chain, start, end, reverse).Ok? ==>
      var r := Range(chain, start, end, reverse).value;
      var n := if start < |chain| then Min(end, |chain|) - start else 0;
      && |r| == n
      && forall k :: 0 <= k < n ==> r[k] == if reverse then chain[start + n - 1 - k] else chain[start + k]
  {
  }

  // ---------- route_blockchain_halving ----------

  datatype Halving = Halving(halvings: nat, subsidy: nat)

  /** halvings = height // HALVING_INTERVAL, subsidy = BLOCK_SUBSIDY // 2 ** halvings, at the
      current height (which the chain keeps at len(chain) - 1, never negative). */
  function HalvingAt(height: nat): Halving
  {
    var halvings: nat := height / HALVING_INTERVAL;
    var p := Pow2(halvings);
    DivAtMost(BLOCK_SUBSIDY, p);
    Halving(halvings, BLOCK_SUBSIDY / p)
  }

  /** The report agrees with the subsidy a coinbase at that height is checked against, names the
      window the height lies in, and the subsidy is gone from the sixth halving on. */
  lemma HalvingMeaning(height: nat)
    ensures HalvingAt(height).subsidy == Subsidy(height)
    ensures HalvingAt(height).halvings * HALVING_INTERVAL <= height < (HalvingAt(height).halvings + 1) * HALVING_INTERVAL
    ensures HalvingAt(height).halvings >= 6 ==> HalvingAt(height).subsidy == 0
  {
    var h := HalvingAt(height).halvings;
    if h >= 6 {
      Pow2Monotone(6, h);
      assert Pow2(6) == 64;
    }
  }

  // ---------- route_blockchain_height_by_height ----------

  /** 400 for a height below zero or above current_height; 404 when the index is past the chain. */
  function BlockAtHeight<T>(chain: seq<T>, currentHeight: int, height: int): (r: Result<T, HttpError>)
    ensures r.Ok? ==> 0 <= height < |chain| && r.value == chain[height]
  {
    if height < 0 || height > currentHeight then Err(BadRequest)
    else if height < |chain| then Ok(chain[height])
    else Err(NotFound)
  }

  /** With current_height at len(chain) - 1, as the blockchain keeps it, every block is found and
      the 404 branch is never taken. */
  lemma BlockAtHeightMeaning<T>(chain: seq<T>, height: int)
    ensures BlockAtHeight(chain, |chain| - 1, height).Ok? <==> 0 <= height < |chain|
    ensures BlockAtHeight(chain, |chain| - 1, height) != Err(NotFound)
  {
  }
}
