/** Numeric settings of the ledger (backend/core/config.py) and the proof-of-work subsidy schedule. */
module Config {

  /** BLOCK_SUBSIDY = 50.0: the configured value is integral, so floor division by a power of two
      agrees with integer division. */
  const BLOCK_SUBSIDY: int := 50
  const HALVING_INTERVAL: int := 210000
  const BASE_TX_SIZE: int := 250
  const MIN_FEE: real := 0.001
  const DEFAULT_FEE_RATE: real := 0.00001
  /** Seconds: a block mined faster than this raises the difficulty. */
  const MINRATE: real := 30.0
  const TARGET_BLOCK_TIME: real := 60.0
  const BLOCK_SIZE_LIMIT: int := 1000000
  const CHUNK_SIZE: int := 100
  /** MINING_REWARD_INPUT["address"]. */
  const MINING_REWARD_ADDRESS: string := "coinbase"

  function Pow2(k: nat): (r: nat)
    ensures r >= 1
  {
    if k == 0 then 1 else 2 * Pow2(k - 1)
  }

  /** BLOCK_SUBSIDY // 2 ** (height // HALVING_INTERVAL), for the non-negative heights blocks carry. */
  function Subsidy(height: nat): (r: nat)
    ensures r <= BLOCK_SUBSIDY
  {
    var halvings: nat := height / HALVING_INTERVAL;
    var p := Pow2(halvings);
    DivAtMost(BLOCK_SUBSIDY, p);
    BLOCK_SUBSIDY / p
  }

  lemma {:induction false} Pow2Monotone(j: nat, k: nat)
    requires j <= k
    ensures Pow2(j) <= Pow2(k)
  {
    if j < k {
      Pow2Monotone(j, k - 1);
    }
  }

  lemma MulMonotone(x: nat, y: nat, p: nat)
    requires x <= y
    ensures x * p <= y * p
  {
    assert y * p - x * p == (y - x) * p;
  }

  lemma DivMonotone(a: nat, p: nat, q: nat)
    requires 1 <= p <= q
    ensures a / q <= a / p
  {
    var x, y := a / q, a / p;
    assert x * q <= a;
    assert a < (y + 1) * p;
    MulMonotone(p, q, x);
    assert x * p <= a;
    if y + 1 <= x {
      MulMonotone(y + 1, x, p);
      assert false;
    }
  }

  lemma DivAtMost(a: nat, p: nat)
    requires 1 <= p
    ensures 0 <= a / p <= a
  {
    DivMonotone(a, 1, p);
  }

  /** The subsidy never grows with the height. */
  lemma SubsidyNonIncreasing(h1: nat, h2: nat)
    requires h1 <= h2
    ensures Subsidy(h2) <= Subsidy(h1)
  {
    assert h1 / HALVING_INTERVAL <= h2 / HALVING_INTERVAL;
    Pow2Monotone(h1 / HALVING_INTERVAL, h2 / HALVING_INTERVAL);
    DivMonotone(BLOCK_SUBSIDY, Pow2(h1 / HALVING_INTERVAL), Pow2(h2 / HALVING_INTERVAL));
  }

  /** Heights in the same halving window earn the same subsidy. */
  lemma SubsidyConstantInWindow(i: nat, m: nat)
    requires m < HALVING_INTERVAL
    ensures Subsidy(i * HALVING_INTERVAL + m) == BLOCK_SUBSIDY / Pow2(i)
  {
    WindowIndex(i, m);
  }

  lemma WindowIndex(i: nat, m: nat)
    requires m < HALVING_INTERVAL
    ensures (i * HALVING_INTERVAL + m) / HALVING_INTERVAL == i
  {
  }
}
