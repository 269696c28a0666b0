/**
  KV position ranges (csrc/cpu/cpu_attn_impl.hpp, calcu_kv_tile_pos and
  align_kv_tile_pos), shared by the scheduler and the main loop.  The kernel is
  causal: the right window is 0 for both callers.
 */
module KvRanges {
  import Powers

  function Min(a: int, b: int): int { if a < b then a else b }
  function Max(a: int, b: int): int { if a < b then b else a }

  const NO_WINDOW := -1

  /** First KV position a query tile starting at `qLeft` may look at. */
  function KvLeft(kvLeft: int, qLeft: int, window: int): int {
    if window != NO_WINDOW then Max(kvLeft, qLeft - window) else kvLeft
  }

  /** One past the last KV position a query tile ending at `qRight` may look at. */
  function KvRight(kvRight: int, qRight: int): int { Min(kvRight, qRight + 0) }

  predicate Aligned(x: int, a: int)
    requires a > 0
  {
    x % a == 0
  }

  // Positions are never negative here, so C++ division and Dafny division agree.
  function AlignDown(x: nat, a: nat): (r: nat)
    requires a > 0
    ensures Aligned(r, a) && r <= x < r + a
  {
    AlignedMultiple(x / a, a);
    (x / a) * a
  }

  function AlignUp(x: nat, a: nat): (r: nat)
    requires a > 0
    ensures Aligned(r, a) && x <= r < x + a
  {
    AlignedMultiple((x + a - 1) / a, a);
    ((x + a - 1) / a) * a
  }

  lemma {:induction false} AlignedMultiple(k: nat, a: nat)
    requires a > 0
    ensures k * a >= 0 && Aligned(k * a, a)
  {
    if k > 0 {
      AlignedMultiple(k - 1, a);
      assert k * a == (k - 1) * a + a;
      AlignedSum((k - 1) * a, a, a);
    }
  }

  lemma AlignedQuotient(x: int, a: int)
    requires a > 0 && Aligned(x, a)
    ensures x == (x / a) * a
  {}

  lemma QuotientUnique(x: int, a: int, k: int)
    requires a > 0 && x == k * a
    ensures Aligned(x, a)
  {
    var q, r := x / a, x % a;
    assert x == q * a + r && 0 <= r < a;
    assert (k - q) * a == r;
    Powers.Apart(k - q, a);
  }

  lemma AlignedSum(x: int, y: int, a: int)
    requires a > 0 && Aligned(x, a) && Aligned(y, a)
    ensures Aligned(x + y, a) && Aligned(x - y, a)
  {
    AlignedQuotient(x, a);
    AlignedQuotient(y, a);
    assert x + y == (x / a + y / a) * a && x - y == (x / a - y / a) * a;
    QuotientUnique(x + y, a, x / a + y / a);
    QuotientUnique(x - y, a, x / a - y / a);
  }

  /** Distinct aligned positions are a whole step apart. */
  lemma AlignedGap(x: int, y: int, a: int)
    requires a > 0 && Aligned(x, a) && Aligned(y, a) && x < y
    ensures x + a <= y
  {
    AlignedQuotient(x, a);
    AlignedQuotient(y, a);
    var k := y / a - x / a;
    assert y - x == k * a;
    assert k * a >= 1 * a;
  }

  lemma AlignedScale(x: int, k: nat, a: int)
    requires a > 0 && Aligned(x, a)
    ensures Aligned(x * k, a)
  {
    AlignedQuotient(x, a);
    assert x * k == ((x / a) * k) * a;
    QuotientUnique(x * k, a, (x / a) * k);
  }

  /** An aligned bound caps the rounded-up value and floors the rounded-down one. */
  lemma AlignWithin(x: nat, lo: int, hi: int, a: nat)
    requires a > 0 && Aligned(lo, a) && Aligned(hi, a)
    ensures lo <= x ==> lo <= AlignDown(x, a)
    ensures x <= hi ==> AlignUp(x, a) <= hi
  {
    if lo <= x && AlignDown(x, a) < lo { AlignedGap(AlignDown(x, a), lo, a); }
    if x <= hi && hi < AlignUp(x, a) { AlignedGap(hi, AlignUp(x, a), a); }
  }
}
