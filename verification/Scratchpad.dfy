/**
  Tile sizes and the attention scratchpad (csrc/cpu/cpu_attn_impl.hpp,
  AttentionScratchPad, calcu_default_tile_size, calcu_tile_size_with_constant_q):
  schedule() reserves one size per thread, computed for a single Q tile; the main loop
  later carves buffers for whatever Q tile and KV tile it has chosen.
 */
module Scratchpad {
  import Powers
  import opened KvRanges

  const MAX_Q_TILE_ITERS := 128

  /** C++ integer division: truncation toward zero. */
  function TruncDiv(a: int, b: int): int
    requires b > 0
  {
    if a >= 0 then a / b else -((-a) / b)
  }

  function Round64(n: nat): (r: nat)
    ensures r % 64 == 0 && n <= r < n + 64
  {
    ((n + 63) / 64) * 64
  }

  /** Compile-time constants of an attention implementation, for one head dimension and element type. */
  datatype Kernel = Kernel(maxQ: nat, align: nat, elem: nat, qElem: nat, headDim: nat)

  const LOGITS_ELEM := 4
  const OUTPUT_ELEM := 4

  predicate Dispatched(k: Kernel) {
    && k.headDim in {32, 64, 96, 128, 160, 192, 224, 256}
    && k.elem in {2, 4}
    && (|| (k.maxQ == 32 && k.align == 64 / k.elem && k.qElem == k.elem)  // AMX
        || (k.maxQ == 8 && k.align == 32 && k.qElem == 4)                // VEC
        || (k.maxQ == 16 && k.align == 16 && k.qElem == 4))              // VEC16
  }

  /** Bytes per Q row (Q and partial output), per KV position (K and V), per KV position of logits. */
  function RowBytes(k: Kernel): nat { k.headDim * (k.qElem + OUTPUT_ELEM) }

  function KvBytes(k: Kernel): (b: nat)
    ensures Dispatched(k) ==> b >= 128
  {
    2 * k.headDim * k.elem
  }

  function LogitBytes(k: Kernel): (b: nat)
    ensures Dispatched(k) ==> b > 0
  {
    LOGITS_ELEM * k.maxQ
  }

  function RoundedTile(tile: int, round: nat): (r: int)
    requires round > 0
    ensures r >= round
  {
    Max(TruncDiv(tile, round) * round, round)
  }

  function DefaultTile(k: Kernel, cache: int): int
    requires Dispatched(k)
  {
    var tile := TruncDiv(cache, RowBytes(k) + KvBytes(k) + LogitBytes(k));
    RoundedTile(Min(tile, MAX_Q_TILE_ITERS * k.maxQ), k.maxQ)
  }

  function KvTile(k: Kernel, cache: int, qTile: nat): int
    requires Dispatched(k)
  {
    var spare := cache - qTile * RowBytes(k);
    var tile := if qTile <= k.maxQ then TruncDiv(spare, LogitBytes(k)) else TruncDiv(spare, LogitBytes(k) + KvBytes(k));
    RoundedTile(tile, k.align)
  }

  // ----- the buffers of a thread -----

  /** Offsets of the five buffers and the end, for a Q tile and a KV tile. */
  datatype Pad = Pad(q: nat, logits: nat, output: nat, max: nat, sum: nat, end: nat)

  function PadOf(k: Kernel, qTile: nat, kvTile: nat): (p: Pad)
    ensures p.q <= p.logits <= p.output <= p.max <= p.sum <= p.end
  {
    var logits := Round64(qTile * k.headDim * k.qElem);
    var output := logits + Round64(LOGITS_ELEM * k.maxQ * kvTile);
    var max := output + Round64(qTile * k.headDim * OUTPUT_ELEM);
    var sum := max + Round64(qTile * 4);
    Pad(0, logits, output, max, sum, 2 * sum - max)
  }

  /** What schedule() reserves per thread. */
  function Reserved(k: Kernel, cache: int): nat
    requires Dispatched(k)
  {
    Round64(PadOf(k, k.maxQ, KvTile(k, cache, k.maxQ)).end)
  }

  // ----- the reservation is enough -----

  lemma Rounded(n: nat)
    requires n % 64 == 0
    ensures Round64(n) == n
  {}

  lemma RowsMultiple(t: nat, d: nat, e: nat)
    requires d % 32 == 0 && e % 2 == 0
    ensures (t * d * e) % 64 == 0
  {
    assert d == 32 * (d / 32) && e == 2 * (e / 2);
    assert t * d * e == (t * (d / 32) * (e / 2)) * 64;
    AlignedMultiple(t * (d / 32) * (e / 2), 64);
  }

  lemma LogitsMultiple(k: Kernel, kvTile: nat)
    requires Dispatched(k) && kvTile % k.align == 0
    ensures (LOGITS_ELEM * k.maxQ * kvTile) % 64 == 0
  {
    assert kvTile % 16 == 0;
    var b := kvTile / 16;
    assert LOGITS_ELEM * k.maxQ * kvTile == (k.maxQ * b) * 64;
    AlignedMultiple(k.maxQ * b, 64);
  }

  lemma RowBytesSum(t: nat, d: nat, e: nat)
    ensures t * d * e + t * d * OUTPUT_ELEM == t * (d * (e + OUTPUT_ELEM))
  {
    assert t * d * e + t * d * 4 == t * d * (e + 4);
    assert t * d * (e + 4) == t * (d * (e + 4));
  }

  /** Q, logits and output sizes are multiples of 64 already; max and sum are padded by at most 32. */
  lemma PadSize(k: Kernel, qTile: nat, kvTile: nat)
    requires Dispatched(k) && qTile % k.maxQ == 0 && kvTile % k.align == 0
    ensures
      var body := qTile * RowBytes(k) + LogitBytes(k) * kvTile + 8 * qTile;
      body <= PadOf(k, qTile, kvTile).end <= body + 64
  {
    hide Round64;
    assert qTile % 8 == 0;
    var q, l, o := qTile * k.headDim * k.qElem, LOGITS_ELEM * k.maxQ * kvTile, qTile * k.headDim * OUTPUT_ELEM;
    RowsMultiple(qTile, k.headDim, k.qElem);
    RowsMultiple(qTile, k.headDim, OUTPUT_ELEM);
    LogitsMultiple(k, kvTile);
    Rounded(q);
    Rounded(l);
    Rounded(o);
    RowBytesSum(qTile, k.headDim, k.qElem);
    RoundBy32(qTile);
  }

  lemma RoundBy32(t: nat)
    requires t % 8 == 0
    ensures Round64(t * 4) <= t * 4 + 32
  {
    var a := t / 16;
    assert t == 16 * a || t == 16 * a + 8;
    assert t * 4 == 64 * a || t * 4 == 64 * a + 32;
  }

  /** The reservation uses the cache up to less than one KV tile of logits. */
  lemma ReservedLower(k: Kernel, cache: nat)
    requires Dispatched(k) && cache >= k.maxQ * RowBytes(k)
    ensures Reserved(k, cache) + LogitBytes(k) * k.align >= cache + 8 * k.maxQ
  {
    hide RowBytes; hide LogitBytes; hide KvBytes; hide PadOf; hide Round64;
    var a, l, al := RowBytes(k), LogitBytes(k), k.align;
    var spare := cache - k.maxQ * a;
    var tile := spare / l;
    var n := KvTile(k, cache, k.maxQ);
    Powers.Quotients(spare, l);
    Powers.Quotients(tile, al);
    TileMultiple(tile, al);
    PadSize(k, k.maxQ, n);
    Powers.MulMonotone(tile + 1, n + al, l);
    Expand(l, tile, n, al);
  }

  lemma Expand(l: nat, tile: nat, n: nat, al: nat)
    ensures (tile + 1) * l == tile * l + l
    ensures (n + al) * l == l * n + l * al
  {}

  lemma TileMultiple(tile: nat, round: nat)
    requires round > 0
    ensures RoundedTile(tile, round) % round == 0
  {
    AlignedMultiple(tile / round, round);
    AlignedMultiple(1, round);
  }

  /** A Q tile of more than one iteration only exists if the cache holds its share of everything. */
  lemma BigTileFits(k: Kernel, cache: nat, qTile: nat)
    requires Dispatched(k) && k.maxQ < qTile <= DefaultTile(k, cache)
    ensures qTile * (RowBytes(k) + KvBytes(k) + LogitBytes(k)) <= cache
  {
    var unit := RowBytes(k) + KvBytes(k) + LogitBytes(k);
    var tile := cache / unit;
    Powers.Quotients(cache, unit);
    Powers.Quotients(Min(tile, MAX_Q_TILE_ITERS * k.maxQ), k.maxQ);
    assert qTile <= tile;
    Powers.MulMonotone(qTile, tile, unit);
  }

  /**
    The size schedule() reserves once, for a Q tile of one iteration, is enough for
    every Q tile the main loop can form and the KV tile it then picks.
   */
  lemma ReservationSuffices(k: Kernel, cache: nat, qTile: nat)
    requires Dispatched(k)
    requires qTile % k.maxQ == 0 && k.maxQ <= qTile <= DefaultTile(k, cache)
    ensures PadOf(k, qTile, KvTile(k, cache, qTile)).end <= Reserved(k, cache)
  {
    if qTile > k.maxQ { BigTileSuffices(k, cache, qTile); }
  }

  lemma BigTileSuffices(k: Kernel, cache: nat, qTile: nat)
    requires Dispatched(k)
    requires qTile % k.maxQ == 0 && k.maxQ < qTile <= DefaultTile(k, cache)
    ensures PadOf(k, qTile, KvTile(k, cache, qTile)).end <= Reserved(k, cache)
  {
    hide RowBytes; hide LogitBytes; hide KvBytes; hide PadOf; hide Reserved; hide DefaultTile; hide RoundedTile;
    var a, b, l := RowBytes(k), KvBytes(k), LogitBytes(k);
    BigTileFits(k, cache, qTile);
    Sum3(qTile, a, b, l);
    var spare := cache - qTile * a;
    QuotientAtLeast(qTile, spare, l + b);
    var tile := spare / (l + b);
    var n := RoundedTile(tile, k.align);
    assert n == KvTile(k, cache, qTile);
    KvTileFits(k, tile, qTile);
    Reservation(k, cache, qTile, n);
    if n <= tile {
      Roomy(k, spare, tile, n);
      RoomyCase(k, cache, qTile, qTile * a, n, b * n);
    } else {
      Powers.MulMonotone(128 + l, b + l, qTile);
      TightCase(k, cache, qTile, qTile * a, n);
    }
  }

  lemma Reservation(k: Kernel, cache: nat, t: nat, n: nat)
    requires Dispatched(k) && t % k.maxQ == 0 && k.maxQ < t && n % k.align == 0 && t * RowBytes(k) <= cache
    ensures t * RowBytes(k) + LogitBytes(k) * n + 8 * t + 64 + LogitBytes(k) * k.align <= cache + 8 * k.maxQ
            ==> PadOf(k, t, n).end <= Reserved(k, cache)
  {
    hide RowBytes; hide LogitBytes; hide PadOf; hide Reserved;
    Powers.MulMonotone(k.maxQ, t, RowBytes(k));
    ReservedLower(k, cache);
    PadSize(k, t, n);
  }

  lemma Roomy(k: Kernel, spare: nat, tile: nat, n: nat)
    requires Dispatched(k) && n <= tile && tile == spare / (LogitBytes(k) + KvBytes(k))
    ensures LogitBytes(k) * n + KvBytes(k) * n <= spare && KvBytes(k) * n >= 128 * n
  {
    hide LogitBytes; hide KvBytes;
    var b, l := KvBytes(k), LogitBytes(k);
    Powers.Quotients(spare, l + b);
    Powers.MulMonotone(n, tile, l + b);
    Sum2(n, l, b);
    Powers.MulMonotone(128, b, n);
  }

  lemma Sum3(t: nat, a: nat, b: nat, l: nat)
    ensures t * (a + b + l) == t * a + t * (l + b)
  {}

  lemma Sum2(n: nat, l: nat, b: nat)
    ensures n * (l + b) == l * n + b * n
  {}

  /** The KV tile is the quotient rounded down, and still covers the Q tile where alignments agree. */
  lemma KvTileFits(k: Kernel, tile: nat, qTile: nat)
    requires Dispatched(k) && qTile % k.maxQ == 0 && qTile <= tile
    ensures
      var n := RoundedTile(tile, k.align);
      && (n == k.align || n <= tile)
      && n % k.align == 0 && n >= k.align && n >= tile - (k.align - 1)
      && (k.maxQ != 8 ==> n >= qTile && n <= Max(tile, k.align))
  {
    Powers.Quotients(tile, k.align);
    TileMultiple(tile, k.align);
    if k.maxQ != 8 {
      assert Aligned(qTile, k.align);
      AlignWithin(tile, qTile, 0, k.align);
    }
  }

  lemma RoomyCase(k: Kernel, cache: nat, t: nat, ta: nat, n: nat, bn: nat)
    requires Dispatched(k) && t % k.maxQ == 0 && t > k.maxQ
    requires ta + LogitBytes(k) * n + bn <= cache && bn >= 128 * n
    requires n >= k.align && n >= t - (k.align - 1) && (k.maxQ != 8 ==> n >= t)
    ensures ta + LogitBytes(k) * n + 8 * t + 64 + LogitBytes(k) * k.align <= cache + 8 * k.maxQ
  {}

  lemma TightCase(k: Kernel, cache: nat, t: nat, ta: nat, n: nat)
    requires Dispatched(k) && t % k.maxQ == 0 && t > k.maxQ && n == k.align && (k.maxQ != 8 ==> n >= t)
    requires ta + t * (128 + LogitBytes(k)) <= cache
    ensures ta + LogitBytes(k) * n + 8 * t + 64 + LogitBytes(k) * k.align <= cache + 8 * k.maxQ
  {
    assert t >= 2 * k.maxQ;
  }

  lemma QuotientAtLeast(q: nat, a: nat, b: nat)
    requires b > 0 && q * b <= a
    ensures q <= a / b
  {
    Powers.Quotients(a, b);
    if a / b < q { Powers.MulMonotone(a / b + 1, q, b); }
  }

  // ----- every Q tile of the main loop -----

  lemma DefaultTileShape(k: Kernel, cache: int)
    requires Dispatched(k)
    ensures DefaultTile(k, cache) % k.maxQ == 0 && k.maxQ <= DefaultTile(k, cache) <= MAX_Q_TILE_ITERS * k.maxQ
  {
    hide RowBytes; hide KvBytes; hide LogitBytes;
    var tile := Min(TruncDiv(cache, RowBytes(k) + KvBytes(k) + LogitBytes(k)), MAX_Q_TILE_ITERS * k.maxQ);
    if tile >= 0 {
      TileMultiple(tile, k.maxQ);
      Powers.Quotients(tile, k.maxQ);
    } else {
      Powers.MulMonotone(TruncDiv(tile, k.maxQ), 0, k.maxQ);
      AlignedMultiple(1, k.maxQ);
    }
  }

  lemma {:induction false} ExactQuotient(a: nat, b: nat)
    requires b > 0 && a % b == 0
    ensures (a / b) * b == a
  {}

  /**
    For every GQA group size that divides the iteration size and every Q tile of `num`
    tokens the main loop forms: the rounded tile is a legal one, its buffers fit the
    reservation, and the first-iteration flags array is never indexed past its end.
   */
  lemma MainLoopFits(k: Kernel, cache: nat, heads: nat, num: nat, offset: nat)
    requires Dispatched(k) && heads > 0 && k.maxQ % heads == 0
    requires offset < num <= DefaultTile(k, cache) / heads
    ensures k.maxQ / heads > 0
    ensures
      var qTile := AlignUp(num * heads, k.maxQ);
      && qTile % k.maxQ == 0 && k.maxQ <= qTile <= DefaultTile(k, cache)
      && PadOf(k, qTile, KvTile(k, cache, qTile)).end <= Reserved(k, cache)
      && offset / (k.maxQ / heads) < MAX_Q_TILE_ITERS
  {
    hide DefaultTile; hide PadOf; hide Reserved; hide KvTile; hide AlignUp;
    var d := DefaultTile(k, cache);
    DefaultTileShape(k, cache);
    Powers.Quotients(d, heads);
    Powers.MulMonotone(num, d / heads, heads);
    AlignWithin(num * heads, 0, d, k.maxQ);
    var qTile := AlignUp(num * heads, k.maxQ);
    Powers.MulMonotone(1, num, heads);
    AlignedMultiple(0, k.maxQ);
    AlignedGap(0, qTile, k.maxQ);
    ReservationSuffices(k, cache, qTile);
    IterationBound(k.maxQ, heads, d, offset);
  }

  lemma IterationBound(maxQ: nat, heads: nat, d: nat, offset: nat)
    requires heads > 0 && maxQ > 0 && maxQ % heads == 0 && d <= MAX_Q_TILE_ITERS * maxQ && offset < d / heads
    ensures maxQ / heads > 0 && offset / (maxQ / heads) < MAX_Q_TILE_ITERS
  {
    var m := maxQ / heads;
    ExactQuotient(maxQ, heads);
    Powers.Quotients(d, heads);
    Powers.MulMonotone(offset + 1, d / heads, heads);
    Powers.Quotients(offset, m);
    var q := offset / m;
    assert MAX_Q_TILE_ITERS * m * heads == MAX_Q_TILE_ITERS * maxQ;
    if q >= MAX_Q_TILE_ITERS {
      Powers.MulMonotone(MAX_Q_TILE_ITERS, q, m);
      Powers.MulMonotone(MAX_Q_TILE_ITERS * m, offset, heads);
    }
  }

  /** Also where the cache is too small for the Q tile and the quotient is negative. */
  lemma KvTileAligned(k: Kernel, cache: int, qTile: nat)
    requires Dispatched(k)
    ensures KvTile(k, cache, qTile) > 0 && Aligned(KvTile(k, cache, qTile), k.align)
  {
    var spare := cache - qTile * RowBytes(k);
    var l := if qTile <= k.maxQ then LogitBytes(k) else LogitBytes(k) + KvBytes(k);
    var tile := TruncDiv(spare, l);
    AlignedMultiple(1, k.align);
    QuotientUnique(TruncDiv(tile, k.align) * k.align, k.align, TruncDiv(tile, k.align));
  }

  // ----- the tile sizes are the largest that fit -----

  /** Rounding down to a multiple, but to one step at least. */
  lemma RoundedIs(tile: int, round: nat)
    requires round > 0
    ensures
      var r := RoundedTile(tile, round);
      && r % round == 0 && round <= r && (r > round ==> r <= tile)
      && forall t: nat :: t % round == 0 && t <= tile ==> t <= r
  {
    AlignedMultiple(1, round);
    if tile >= 0 {
      TileMultiple(tile, round);
      Powers.Quotients(tile, round);
      forall t: nat | t % round == 0 && t <= tile ensures t <= RoundedTile(tile, round) {
        AlignWithin(tile, t, 0, round);
      }
    } else {
      Powers.MulMonotone(TruncDiv(tile, round), 0, round);
    }
  }

  lemma QuotientFits(room: int, unit: nat, t: nat)
    requires unit > 0
    ensures t > 0 ==> (t <= TruncDiv(room, unit) <==> t * unit <= room)
  {
    if room >= 0 {
      Powers.Quotients(room, unit);
      Powers.MulMonotone(t, room / unit, unit);
      if t * unit <= room { QuotientAtLeast(t, room, unit); }
    } else {
      assert t * unit >= 0;
    }
  }

  /**
    The default tile is the largest multiple of an iteration's rows, up to 128 iterations, for which a
    Q row and a partial output row, a K and a V row, and a column of logits per tile row fit the cache;
    one iteration if none does.
   */
  lemma DefaultTileIs(k: Kernel, cache: int)
    requires Dispatched(k)
    ensures
      var tile, row := DefaultTile(k, cache), k.headDim * (k.qElem + 4 + 2 * k.elem) + k.maxQ * 4;
      && tile % k.maxQ == 0 && k.maxQ <= tile <= 128 * k.maxQ
      && (tile > k.maxQ ==> tile * row <= cache)
      && forall t: nat :: t % k.maxQ == 0 && t <= 128 * k.maxQ && t * row <= cache ==> t <= tile
  {
    DefaultTileShape(k, cache);
    RowOf(k);
    hide RowBytes; hide KvBytes; hide LogitBytes;
    var row := RowBytes(k) + KvBytes(k) + LogitBytes(k);
    RoundedIs(Min(TruncDiv(cache, row), 128 * k.maxQ), k.maxQ);
    QuotientFits(cache, row, DefaultTile(k, cache));
    forall t: nat | t % k.maxQ == 0 && t <= 128 * k.maxQ && t * row <= cache ensures t <= DefaultTile(k, cache) {
      QuotientFits(cache, row, t);
    }
  }

  lemma RowOf(k: Kernel)
    ensures RowBytes(k) + KvBytes(k) + LogitBytes(k) == k.headDim * (k.qElem + 4 + 2 * k.elem) + k.maxQ * 4
  {}

  /**
    The KV tile is the largest multiple of the alignment whose logits, and for a Q tile of several
    iterations also its keys and values, fit what the rows of the Q tile leave of the cache; one
    alignment if none does.
   */
  lemma KvTileIs(k: Kernel, cache: int, qTile: nat)
    requires Dispatched(k)
    ensures
      var tile, spare := KvTile(k, cache, qTile), cache - qTile * (k.headDim * (k.qElem + 4));
      var row := 4 * k.maxQ + if qTile <= k.maxQ then 0 else 2 * k.headDim * k.elem;
      && tile % k.align == 0 && k.align <= tile
      && (tile > k.align ==> tile * row <= spare)
      && forall t: nat :: t % k.align == 0 && t * row <= spare ==> t <= tile
  {
    var row := LogitBytes(k) + if qTile <= k.maxQ then 0 else KvBytes(k);
    var spare := cache - qTile * RowBytes(k);
    assert spare == cache - qTile * (k.headDim * (k.qElem + 4));
    assert row == 4 * k.maxQ + if qTile <= k.maxQ then 0 else 2 * k.headDim * k.elem;
    hide RowBytes; hide KvBytes; hide LogitBytes;
    RoundedIs(TruncDiv(spare, row), k.align);
    QuotientFits(spare, row, KvTile(k, cache, qTile));
    forall t: nat | t % k.align == 0 && t * row <= spare ensures t <= KvTile(k, cache, qTile) {
      QuotientFits(spare, row, t);
    }
  }

  // ----- no two users share a byte -----

  ghost predicate Disjoint(a: int, a': int, b: int, b': int) { a' <= b || b' <= a }

  /** The buffers of two threads never overlap, whatever tiles they are working on. */
  lemma ThreadsDisjoint(k: Kernel, cache: nat, threads: nat, t: nat, u: nat, end: nat, end': nat)
    requires Dispatched(k) && t < threads && u < threads
    requires end <= Reserved(k, cache) && end' <= Reserved(k, cache)
    ensures
      var size := Reserved(k, cache);
      && (t != u ==> Disjoint(t * size, t * size + end, u * size, u * size + end'))
      && t * size + end <= threads * size
  {
    hide Reserved;
    var size := Reserved(k, cache);
    Powers.MulMonotone(t + 1, threads, size);
    Powers.MulMonotone(t + 1, u, size);
    Powers.MulMonotone(u + 1, t, size);
    assert (t + 1) * size == t * size + size && (u + 1) * size == u * size + size;
  }

  /** The reduction area of one kv head: flags, outputs, maxima, sums of all splits. */
  function ReducePad(splits: nat, rows: nat, headDim: nat): (p: Pad)
    ensures 0 == p.q <= p.logits <= p.output <= p.max <= p.sum <= p.end
  {
    var output := Round64(splits);
    var max := output + Round64(splits * rows * headDim * OUTPUT_ELEM);
    var sum := max + Round64(splits * rows * 4);
    Pad(0, 0, output, max, sum, 2 * sum - max)
  }

  /** Different splits use different bytes of a head's reduction area, and stay inside its parts. */
  lemma SplitsDisjoint(splits: nat, rows: nat, headDim: nat, i: nat, j: nat)
    requires i < splits && j < splits
    ensures
      var p, out, stat := ReducePad(splits, rows, headDim), rows * headDim * OUTPUT_ELEM, rows * 4;
      && i < p.output
      && (i != j ==>
            Disjoint(p.output + i * out, p.output + (i + 1) * out, p.output + j * out, p.output + (j + 1) * out))
      && p.output + (i + 1) * out <= p.max
      && (i != j ==> Disjoint(p.max + i * stat, p.max + (i + 1) * stat, p.max + j * stat, p.max + (j + 1) * stat))
      && p.max + (i + 1) * stat <= p.sum && p.sum + (i + 1) * stat <= p.end
  {
    var out, stat := rows * headDim * OUTPUT_ELEM, rows * 4;
    assert splits * rows * headDim * OUTPUT_ELEM == splits * out && splits * rows * 4 == splits * stat;
    Powers.MulMonotone(i + 1, splits, out);
    Powers.MulMonotone(i + 1, splits, stat);
    Powers.MulMonotone(i + 1, j, out);
    Powers.MulMonotone(i + 1, j, stat);
    Powers.MulMonotone(j + 1, i, out);
    Powers.MulMonotone(j + 1, i, stat);
  }

  /**
    Every buffer of a thread holds its contents, and the partial outputs start exactly
    where maxQ rows of kvTile logits end.
   */
  lemma PadHolds(k: Kernel, qTile: nat, kvTile: nat)
    requires Dispatched(k) && kvTile % k.align == 0
    ensures
      var p := PadOf(k, qTile, kvTile);
      && p.q + qTile * k.headDim * k.qElem <= p.logits
      && p.logits + LOGITS_ELEM * k.maxQ * kvTile == p.output
      && p.output + qTile * k.headDim * OUTPUT_ELEM <= p.max
      && p.max + qTile * 4 <= p.sum && p.sum + qTile * 4 <= p.end
  {
    LogitsMultiple(k, kvTile);
    Rounded(LOGITS_ELEM * k.maxQ * kvTile);
  }

  /** What schedule() reserves per kv head, and in all: the size given to realloc. */
  function HeadArea(splits: nat, rows: nat, headDim: nat): nat { Round64(ReducePad(splits, rows, headDim).end) }

  function ScratchSize(size: nat, threads: nat, area: nat, heads: nat): nat { size * threads + area * heads }

  function HeadStart(size: nat, threads: nat, area: nat, head: nat): nat { threads * size + head * area }

  /** Reduction areas of different kv heads are disjoint, after all thread areas, and inside the reservation. */
  lemma HeadsDisjoint(k: Kernel, cache: nat, threads: nat, splits: nat, rows: nat, heads: nat, h: nat, h': nat)
    requires Dispatched(k) && h < heads && h' < heads
    ensures
      var size, area, end := Reserved(k, cache), HeadArea(splits, rows, k.headDim),
        ReducePad(splits, rows, k.headDim).end;
      var a, a' := HeadStart(size, threads, area, h), HeadStart(size, threads, area, h');
      && (h != h' ==> Disjoint(a, a + end, a', a' + end))
      && threads * size <= a
      && a + end <= ScratchSize(size, threads, area, heads)
  {
    hide Reserved; hide ReducePad;
    var size, area := Reserved(k, cache), HeadArea(splits, rows, k.headDim);
    AreasApart(size, threads, area, heads, h, h');
  }

  lemma AreasApart(size: nat, threads: nat, area: nat, heads: nat, h: nat, h': nat)
    requires h < heads && h' < heads
    ensures
      var a, a' := HeadStart(size, threads, area, h), HeadStart(size, threads, area, h');
      && (h != h' ==> Disjoint(a, a + area, a', a' + area))
      && threads * size <= a
      && a + area <= ScratchSize(size, threads, area, heads)
  {
    Powers.MulMonotone(h + 1, heads, area);
    Powers.MulMonotone(h + 1, h', area);
    Powers.MulMonotone(h' + 1, h, area);
    assert (h + 1) * area == h * area + area && (h' + 1) * area == h' * area + area;
  }
}
