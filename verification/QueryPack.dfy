/**
  copy_q_heads_tile (csrc/cpu/cpu_attn_amx.hpp, csrc/cpu/cpu_attn_vec.hpp): a Q tile is
  copied once into the layout of the kernel, then used 32 (or 8) rows at a time.
 */
module QueryPack {
  import Powers
  import opened CacheLayout
  import opened TileGemm
  import PagedCache
  import PagedTile

  /** [token, head, element] */
  type Query = seq<seq<seq<real>>>

  ghost predicate ValidQuery(query: Query, heads: nat, headDim: nat) {
    && heads > 0
    && (forall t :: 0 <= t < |query| ==> |query[t]| == heads)
    && (forall t, h :: 0 <= t < |query| && 0 <= h < |query[t]| ==> |query[t][h]| == headDim)
  }

  /** Row i of the tile: its tokens in order, the heads of a token side by side. */
  ghost function Row(query: Query, heads: nat, headDim: nat, i: nat): (row: seq<real>)
    requires ValidQuery(query, heads, headDim) && i < |query| * heads
    ensures |row| == headDim
  {
    var (t, h) := DivMod(i, heads);
    DigitBound(t, h, heads, |query|);
    query[t][h]
  }

  lemma RowAt(query: Query, heads: nat, headDim: nat, t: nat, h: nat)
    requires ValidQuery(query, heads, headDim) && t < |query| && h < heads
    ensures 0 <= t * heads + h < |query| * heads
    ensures Row(query, heads, headDim, t * heads + h) == query[t][h]
  {
    hide DivMod;
    Digits(t, h, heads);
    DigitBound(t, h, heads, |query|);
  }

  // ----- copying -----

  /** The buffer in its layout, and what an element is multiplied by on the way in. */
  datatype Target = Target(isa: Isa, rows: nat, headDim: nat, scale: real)

  ghost predicate ValidTarget(g: Target) {
    g.rows > 0 && (g.isa.AMX? ==> g.rows % 16 == 0) && g.headDim > 0 && g.headDim % 32 == 0
  }

  function LayoutOf(g: Target): Layout { QLayout(g.isa, g.rows, g.headDim) }

  function Factor(g: Target): real { if g.isa.AMX? then 1.0 else g.scale }

  ghost function Slot(g: Target, buf: seq<real>, x: nat, k: nat): real {
    var p := Addr(LayoutOf(g), x, k);
    if 0 <= p < |buf| then buf[p] else 0.0
  }

  /** The first n elements of row i are copied; nothing else has changed. */
  ghost predicate Copying(g: Target, before: seq<real>, after: seq<real>, i: nat, row: seq<real>, n: nat)
    requires n <= |row|
  {
    && |after| == |before|
    && forall x: nat, k: nat :: x < g.rows && k < g.headDim ==>
         Slot(g, after, x, k) == if x == i && k < n then row[k] * Factor(g) else Slot(g, before, x, k)
  }

  lemma CopyOne(g: Target, before: seq<real>, now: seq<real>, i: nat, row: seq<real>, n: nat, p: int)
    requires ValidTarget(g) && i < g.rows && n < g.headDim == |row| && |before| >= g.rows * g.headDim
    requires Copying(g, before, now, i, row, n) && p == Addr(LayoutOf(g), i, n)
    ensures 0 <= p < |now| && Copying(g, before, now[p := row[n] * Factor(g)], i, row, n + 1)
  {
    hide Addr; hide Unpack; hide Factor;
    var l := LayoutOf(g);
    PackUnpack(l, i, n);
    var after := now[p := row[n] * Factor(g)];
    forall x: nat, k: nat | x < g.rows && k < g.headDim
      ensures Slot(g, after, x, k) == if x == i && k < n + 1 then row[k] * Factor(g) else Slot(g, before, x, k)
    {
      assert Slot(g, now, x, k) == if x == i && k < n then row[k] * Factor(g) else Slot(g, before, x, k);
      if Addr(l, x, k) == p { AddrInjective(l, i, n, x, k); }
    }
  }

  /** Where the AMX copy puts row idx, and the 32 elements of its block b. */
  function RowStart(g: Target, idx: nat): int { idx / 16 * (16 * g.headDim) + idx % 16 * 32 }

  lemma BlockAddr(g: Target, idx: nat, b: nat, e: nat)
    requires e < 32
    ensures g.isa.AMX? ==> Addr(LayoutOf(g), idx, 32 * b + e) == RowStart(g, idx) + b * 512 + e
    ensures g.isa.VEC? ==> Addr(LayoutOf(g), idx, 32 * b + e) == idx * g.headDim + 32 * b + e
  {
    assert (32 * b + e) / 32 == b && (32 * b + e) % 32 == e;
  }

  /** One row, 32 elements at a time: `step` apart, from `start`. */
  method CopyRow(g: Target, buf: array<real>, idx: nat, row: seq<real>, start: int)
    requires ValidTarget(g) && idx < g.rows && |row| == g.headDim && buf.Length >= g.rows * g.headDim
    requires start == if g.isa.AMX? then RowStart(g, idx) else idx * g.headDim
    modifies buf
    ensures Copying(g, old(buf[..]), buf[..], idx, row, g.headDim)
  {
    hide Slot; hide Copying; hide Addr; hide RowStart; hide Factor;
    var step := if g.isa.AMX? then 512 else 32;
    CopyNone(g, buf[..], idx, row);
    for b := 0 to g.headDim / 32
      invariant Copying(g, old(buf[..]), buf[..], idx, row, 32 * b)
    {
      for e := 0 to 32
        invariant Copying(g, old(buf[..]), buf[..], idx, row, 32 * b + e)
      {
        BlockAddr(g, idx, b, e);
        ghost var now := buf[..];
        var n, p := 32 * b + e, start + b * step + e;
        CopyOne(g, old(buf[..]), now, idx, row, n, p);
        PagedCache.Put(buf, p, row[n] * Factor(g));
        assert buf[..] == now[p := row[n] * Factor(g)];
      }
    }
  }

  lemma CopyNone(g: Target, buf: seq<real>, i: nat, row: seq<real>)
    ensures Copying(g, buf, buf, i, row, 0)
  {
    hide Slot;
  }

  ghost predicate Copied(g: Target, buf: seq<real>, query: Query, heads: nat, n: nat)
    requires ValidQuery(query, heads, g.headDim) && n <= |query| * heads
  {
    forall i: nat, k: nat :: i < n && k < g.headDim ==>
      Slot(g, buf, i, k) == Row(query, heads, g.headDim, i)[k] * Factor(g)
  }

  lemma CopiedNext(g: Target, before: seq<real>, after: seq<real>, query: Query, heads: nat, t: nat, h: nat)
    requires ValidQuery(query, heads, g.headDim) && t < |query| && h < heads
    requires 0 <= t * heads + h < |query| * heads <= g.rows && Copied(g, before, query, heads, t * heads + h)
    requires Copying(g, before, after, t * heads + h, query[t][h], g.headDim)
    ensures Copied(g, after, query, heads, t * heads + h + 1)
  {
    hide Slot; hide Row;
    RowAt(query, heads, g.headDim, t, h);
  }

  /** The AMX pointer moves down a tile row by row, and jumps to the next tile after 16 rows. */
  lemma NextRowStart(g: Target, idx: nat)
    requires g.headDim % 32 == 0
    ensures RowStart(g, idx + 1)
         == RowStart(g, idx) + 32 + if (idx + 1) % 16 == 0 then g.headDim / 32 * 512 - 512 else 0
  {
    var d := 16 * g.headDim;
    if (idx + 1) % 16 == 0 {
      assert (idx + 1) / 16 == idx / 16 + 1 && idx % 16 == 15;
      assert (idx / 16 + 1) * d == idx / 16 * d + d;
    } else {
      assert (idx + 1) / 16 == idx / 16 && (idx + 1) % 16 == idx % 16 + 1;
    }
  }

  /** Every row of the tile ends up in its place, scaled or not. */
  method CopyQ(g: Target, query: Query, heads: nat, buf: array<real>)
    requires ValidTarget(g) && ValidQuery(query, heads, g.headDim)
    requires |query| * heads <= g.rows && buf.Length >= g.rows * g.headDim
    modifies buf
    ensures Copied(g, buf[..], query, heads, |query| * heads)
  {
    hide Copied; hide Copying; hide RowStart;
    var idx: nat := 0;
    var iter := 0;
    StartZero(g);
    CopiedNone(g, buf[..], query, heads);
    for t := 0 to |query|
      invariant idx == t * heads && iter == RowStart(g, idx) && idx <= |query| * heads
      invariant Copied(g, buf[..], query, heads, idx)
    {
      for h := 0 to heads
        invariant idx == t * heads + h && iter == RowStart(g, idx) && idx <= |query| * heads
        invariant Copied(g, buf[..], query, heads, idx)
      {
        RowAt(query, heads, g.headDim, t, h);
        ghost var before := buf[..];
        CopyRow(g, buf, idx, query[t][h], if g.isa.AMX? then iter else idx * g.headDim);
        CopiedNext(g, before, buf[..], query, heads, t, h);
        NextRowStart(g, idx);
        idx := idx + 1;
        iter := iter + 32;
        if idx % 16 == 0 {
          iter := iter - 16 * 32;
          iter := iter + g.headDim / 32 * 512;
        }
      }
      RowCount(t, heads, |query|);
    }
  }

  lemma RowCount(t: nat, heads: nat, n: nat)
    requires t < n
    ensures (t + 1) * heads == t * heads + heads && (t + 1) * heads <= n * heads
  {
    assert n * heads == (t + 1) * heads + (n - (t + 1)) * heads;
  }

  lemma StartZero(g: Target)
    ensures RowStart(g, 0) == 0
  {}

  lemma CopiedNone(g: Target, buf: seq<real>, query: Query, heads: nat)
    requires ValidQuery(query, heads, g.headDim)
    ensures 0 <= |query| * heads && Copied(g, buf, query, heads, 0)
  {}

  // ----- using it -----

  /** The operand of an iteration that starts at row r0: the pointer moves by r0 * head_dim. */
  function Iteration(g: Target, buf: seq<real>, r0: nat): Operand { Operand(buf, r0 * g.headDim, LayoutOf(g)) }

  lemma RowStep(l: Layout, r0: nat, i: nat, k: nat)
    requires l.form.RowMajor? || (l.form.PackedRows? && r0 % 16 == 0)
    ensures Addr(l, r0 + i, k) == r0 * l.depth + Addr(l, i, k)
  {
    hide InTile;
    var d, q := l.depth, r0 / 16;
    if l.form.RowMajor? {
      Powers.Distribute(r0, i, d);
    } else {
      assert (r0 + i) / 16 == q + i / 16 && (r0 + i) % 16 == i % 16;
      Powers.Distribute(q, i / 16, 16 * d);
      Powers.Reassociate(q, 16, d);
    }
  }

  /** AMX iterations start at whole tiles, so the plain pointer step is right in the packed layout too. */
  lemma IterationRead(g: Target, buf: seq<real>, r0: nat, i: nat, k: nat)
    requires g.isa.AMX? ==> r0 % 16 == 0
    ensures Read(Iteration(g, buf, r0), i, k) == Slot(g, buf, r0 + i, k)
  {
    hide Addr;
    RowStep(LayoutOf(g), r0, i, k);
  }

  /** Plain product of a query row and the key stored at the slot of a position. */
  ghost function Product(row: seq<real>, v: PagedTile.Tokens, c: nat, depth: nat): real
    requires PagedCache.ValidShape(v.shape) && depth <= |row|
  {
    if depth == 0 then 0.0
    else Product(row, v, c, depth - 1) + row[depth - 1] * PagedTile.Element(v, PagedCache.Key, c, depth - 1)
  }

  lemma {:induction false} ScoreIsProduct(g: Target, q: Operand, row: seq<real>, v: PagedTile.Tokens, i: nat, c: nat,
                                          depth: nat)
    requires PagedCache.ValidShape(v.shape) && depth <= |row|
    requires forall k: nat :: k < |row| ==> Read(q, i, k) == row[k] * Factor(g)
    ensures PagedTile.Score(v, q, i, c, depth) == Product(row, v, c, depth) * Factor(g)
  {
    hide PagedTile.Element; hide Read;
    if depth > 0 {
      ScoreIsProduct(g, q, row, v, i, c, depth - 1);
      var e := PagedTile.Element(v, PagedCache.Key, c, depth - 1);
      assert Read(q, i, depth - 1) * e == row[depth - 1] * e * Factor(g);
    }
  }

  /** Both kernels: the logit of row r0 + i and column c is scale * (query row . key of position start + c). */
  lemma LogitIsScaledProduct(g: Target, buf: seq<real>, query: Query, heads: nat, v: PagedTile.Tokens, r0: nat,
                             i: nat, c: nat)
    requires ValidTarget(g) && ValidQuery(query, heads, g.headDim) && PagedCache.ValidShape(v.shape)
    requires v.shape.isa == g.isa && v.shape.headDim == g.headDim && (g.isa.AMX? ==> r0 % 16 == 0)
    requires r0 + i < |query| * heads
    requires Copied(g, buf, query, heads, |query| * heads)
    ensures PagedTile.Logit(v, Iteration(g, buf, r0), g.scale, i, c)
         == g.scale * Product(Row(query, heads, g.headDim, r0 + i), v, c, g.headDim)
  {
    hide Row; hide Read; hide Slot; hide Product; hide PagedTile.Score;
    var row := Row(query, heads, g.headDim, r0 + i);
    forall k: nat | k < |row| ensures Read(Iteration(g, buf, r0), i, k) == row[k] * Factor(g) {
      IterationRead(g, buf, r0, i, k);
    }
    ScoreIsProduct(g, Iteration(g, buf, r0), row, v, i, c, g.headDim);
  }
}
