/**
  Layouts of the packed and plain attention buffers (csrc/cpu/cpu_attn_amx.hpp,
  csrc/cpu/cpu_attn_vec.hpp).  A buffer holds a matrix with an outer index x and a
  contraction index k: Q has x = head row, k = head element; the K cache x = token,
  k = head element; the V cache x = head element, k = token.
 */
module CacheLayout {
  import Powers

  // The AMX tile: 16 rows of 64 bytes, that is 32 bfloat16 elements.
  const TILE_ROWS := 16
  const TILE_WIDTH := 32
  const TILE_SIZE := 512

  /**
    PackedRows: AMX Q, tiles of 16 rows by 32 elements, a tile row contiguous.
    PackedPairs: AMX K and V, two consecutive k interleaved across 16 consecutive x.
    RowMajor: VEC Q, and probabilities for both.  ColumnMajor: VEC K and V.
   */
  datatype Form = PackedRows | PackedPairs | RowMajor | ColumnMajor

  datatype Layout = Layout(form: Form, outer: nat, depth: nat)

  ghost predicate ValidLayout(l: Layout) {
    && l.outer > 0 && l.depth > 0
    && (l.form.PackedRows? ==> l.outer % 16 == 0 && l.depth % 32 == 0)
    && (l.form.PackedPairs? ==> l.outer % 16 == 0 && l.depth % 2 == 0)
  }

  function Addr(l: Layout, x: nat, k: nat): int {
    match l.form
    case RowMajor => x * l.depth + k
    case ColumnMajor => k * l.outer + x
    case _ => x / 16 * (16 * l.depth) + InTile(l.form, x % 16, k)
  }

  /** Within 16 consecutive x: 32 elements of k side by side, or pairs of k side by side. */
  function InTile(form: Form, r: nat, k: nat): nat {
    if form.PackedRows? then k / 32 * 512 + r * 32 + k % 32 else k / 2 * 32 + r * 2 + k % 2
  }

  function OfTile(form: Form, a: nat): (nat, nat) {
    if form.PackedRows? then (a / 32 % 16, a / 512 * 32 + a % 32) else (a / 2 % 16, a / 32 * 2 + a % 2)
  }

  function Unpack(l: Layout, a: nat): (nat, nat)
    requires ValidLayout(l)
  {
    match l.form
    case RowMajor => DivMod(a, l.depth)
    case ColumnMajor => var (k, x) := DivMod(a, l.outer); (x, k)
    case _ =>
      var (tile, low) := DivMod(a, 16 * l.depth);
      var (r, k) := OfTile(l.form, low);
      (tile * 16 + r, k)
  }

  lemma RowDigits(t: nat, r: nat, e: nat)
    requires r < 16 && e < 32
    ensures OfTile(PackedRows, 512 * t + 32 * r + e) == (r, 32 * t + e)
    ensures InTile(PackedRows, r, 32 * t + e) == 512 * t + 32 * r + e
  {
    var a, q := 512 * t + 32 * r + e, 16 * t + r;
    assert a / 32 == q && a % 32 == e && q % 16 == r && a / 512 == t;
    assert (32 * t + e) / 32 == t && (32 * t + e) % 32 == e;
  }

  lemma PairDigits(form: Form, t: nat, r: nat, e: nat)
    requires !form.PackedRows? && r < 16 && e < 2
    ensures OfTile(form, 32 * t + 2 * r + e) == (r, 2 * t + e)
    ensures InTile(form, r, 2 * t + e) == 32 * t + 2 * r + e
  {
    var a, q := 32 * t + 2 * r + e, 16 * t + r;
    assert a / 2 == q && a % 2 == e && q % 16 == r && a / 32 == t;
    assert (2 * t + e) / 2 == t && (2 * t + e) % 2 == e;
  }

  lemma TileRoundTrip(form: Form, r: nat, k: nat, depth: nat)
    requires r < 16 && k < depth && depth % 2 == 0 && (form.PackedRows? ==> depth % 32 == 0)
    ensures InTile(form, r, k) < 16 * depth && OfTile(form, InTile(form, r, k)) == (r, k)
  {
    hide InTile; hide OfTile;
    if form.PackedRows? {
      RowDigits(k / 32, r, k % 32);
      assert k / 32 < depth / 32;
    } else {
      PairDigits(form, k / 2, r, k % 2);
      assert k / 2 < depth / 2;
    }
  }

  lemma TileOnto(form: Form, a: nat, depth: nat)
    requires a < 16 * depth && depth % 2 == 0 && (form.PackedRows? ==> depth % 32 == 0)
    ensures var (r, k) := OfTile(form, a); r < 16 && k < depth && InTile(form, r, k) == a
  {
    hide InTile; hide OfTile;
    if form.PackedRows? {
      RowSplit(a);
      RowDigits(a / 512, a % 512 / 32, a % 32);
      Below(a / 512, a % 32, 32, depth / 32, a);
    } else {
      PairSplit(a);
      PairDigits(form, a / 32, a % 32 / 2, a % 2);
      Below(a / 32, a % 2, 2, depth / 2, a);
    }
  }

  lemma Below(t: nat, e: nat, w: nat, n: nat, a: nat)
    requires (w == 2 || w == 32) && e < w && 16 * w * t <= a < 16 * w * n
    ensures w * t + e < w * n
  {}

  lemma RowSplit(a: nat)
    ensures a == 512 * (a / 512) + 32 * (a % 512 / 32) + a % 32 && 0 <= a % 512 / 32 < 16
  {
    var b := a % 512;
    assert b % 32 == a % 32;
  }

  lemma PairSplit(a: nat)
    ensures a == 32 * (a / 32) + 2 * (a % 32 / 2) + a % 2 && 0 <= a % 32 / 2 < 16
  {
    var b := a % 32;
    assert b % 2 == a % 2;
  }

  function DivMod(a: nat, w: nat): (r: (nat, nat))
    requires w > 0
    ensures a == r.0 * w + r.1 && r.1 < w
  {
    Powers.Quotients(a, w);
    (a / w, a % w)
  }

  /** Mixed-radix digits are unique. */
  lemma Digits(hi: nat, lo: nat, w: nat)
    requires lo < w
    ensures 0 <= hi * w && DivMod(hi * w + lo, w) == (hi, lo)
  {
    var (h, l) := DivMod(hi * w + lo, w);
    assert (h - hi) * w == lo - l;
    Powers.Apart(h - hi, w);
  }

  /** hi*w + lo stays below n*w, and conversely. */
  lemma DigitBound(hi: nat, lo: nat, w: nat, n: nat)
    requires lo < w
    ensures hi < n <==> hi * w + lo < n * w
  {
    assert (n - hi) * w == n * w - hi * w;
    Powers.Apart(n - hi, w);
    Powers.Apart(hi - n, w);
  }

  /** Packing is injective into the region: it has a left inverse and stays inside. */
  lemma PackUnpack(l: Layout, x: nat, k: nat)
    requires ValidLayout(l) && x < l.outer && k < l.depth
    ensures 0 <= Addr(l, x, k) < l.outer * l.depth
    ensures Unpack(l, Addr(l, x, k)) == (x, k)
  {
    hide DivMod; hide InTile; hide OfTile;
    if l.form.RowMajor? {
      Digits(x, k, l.depth);
      DigitBound(x, k, l.depth, l.outer);
    } else if l.form.ColumnMajor? {
      Digits(k, x, l.outer);
      DigitBound(k, x, l.outer, l.depth);
    } else {
      var w, low := 16 * l.depth, InTile(l.form, x % 16, k);
      TileRoundTrip(l.form, x % 16, k, l.depth);
      Digits(x / 16, low, w);
      DigitBound(x / 16, low, w, l.outer / 16);
      Regroup(l.outer, l.depth);
    }
  }

  lemma Regroup(outer: nat, depth: nat)
    requires outer % 16 == 0
    ensures outer / 16 * (16 * depth) == outer * depth
  {
    assert outer / 16 * (16 * depth) == (outer / 16 * 16) * depth;
  }

  /** Packing is onto: every element of the region holds some matrix element. */
  lemma UnpackPack(l: Layout, a: nat)
    requires ValidLayout(l) && a < l.outer * l.depth
    ensures var (x, k) := Unpack(l, a); x < l.outer && k < l.depth && Addr(l, x, k) == a
  {
    hide DivMod; hide InTile; hide OfTile;
    if l.form.RowMajor? {
      var (hi, lo) := DivMod(a, l.depth);
      DigitBound(hi, lo, l.depth, l.outer);
    } else if l.form.ColumnMajor? {
      var (hi, lo) := DivMod(a, l.outer);
      DigitBound(hi, lo, l.outer, l.depth);
    } else {
      var (hi, lo) := DivMod(a, 16 * l.depth);
      TileOnto(l.form, lo, l.depth);
      Regroup(l.outer, l.depth);
      DigitBound(hi, lo, 16 * l.depth, l.outer / 16);
      var (r, k) := OfTile(l.form, lo);
      assert Unpack(l, a) == (hi * 16 + r, k);
      assert (hi * 16 + r) / 16 == hi && (hi * 16 + r) % 16 == r;
    }
  }

  /** Two elements share an address only if they are the same element. */
  lemma AddrInjective(l: Layout, x: nat, k: nat, x': nat, k': nat)
    requires ValidLayout(l) && x < l.outer && k < l.depth && x' < l.outer && k' < l.depth
    requires Addr(l, x, k) == Addr(l, x', k')
    ensures x == x' && k == k'
  {
    PackUnpack(l, x, k);
    PackUnpack(l, x', k');
  }

  // ----- strides -----

  /** Distance between elements 32 apart in x, and 32 apart in k. */
  function OuterStride(l: Layout): int { if l.form.ColumnMajor? then 32 else 32 * l.depth }

  function DepthStride(l: Layout): int {
    match l.form
    case PackedRows => 512
    case PackedPairs => 512
    case RowMajor => 32
    case ColumnMajor => 32 * l.outer
  }

  lemma OuterSteps(l: Layout, x: nat, k: nat, g: nat)
    ensures Addr(l, x + 32 * g, k) == Addr(l, x, k) + g * OuterStride(l)
  {
    hide InTile;
    var d := 16 * l.depth;
    assert (x + 32 * g) / 16 == x / 16 + 2 * g && (x + 32 * g) % 16 == x % 16;
    assert (x / 16 + 2 * g) * d == x / 16 * d + 2 * g * d;
    assert (x + 32 * g) * l.depth == x * l.depth + 32 * g * l.depth;
  }

  lemma DepthSteps(l: Layout, x: nat, k: nat, g: nat)
    ensures Addr(l, x, k + 32 * g) == Addr(l, x, k) + g * DepthStride(l)
  {
    assert InTile(l.form, x % 16, k + 32 * g) == InTile(l.form, x % 16, k) + 512 * g by {
      assert (k + 32 * g) / 32 == k / 32 + g && (k + 32 * g) % 32 == k % 32;
      assert (k + 32 * g) / 2 == k / 2 + 16 * g && (k + 32 * g) % 2 == k % 2;
    }
    hide InTile;
    assert (k + 32 * g) * l.outer == k * l.outer + 32 * g * l.outer;
  }

  // ----- the two instruction sets -----

  datatype Isa = AMX | VEC

  function QLayout(isa: Isa, rows: nat, headDim: nat): Layout {
    Layout(if isa.AMX? then PackedRows else RowMajor, rows, headDim)
  }

  function KLayout(isa: Isa, blockSize: nat, headDim: nat): Layout {
    Layout(if isa.AMX? then PackedPairs else ColumnMajor, blockSize, headDim)
  }

  function VLayout(isa: Isa, blockSize: nat, headDim: nat): Layout {
    Layout(if isa.AMX? then PackedPairs else ColumnMajor, headDim, blockSize)
  }

  function KTokenGroupStride(isa: Isa, headDim: nat): int { if isa.AMX? then 32 * headDim else 32 }
  function VTokenGroupStride(isa: Isa, headDim: nat): int { if isa.AMX? then 32 * 16 else headDim * 32 }
  function VHeadGroupStride(isa: Isa, blockSize: nat): int { if isa.AMX? then blockSize * 32 else 32 }

  /** The stride functions move by whole groups of 32 tokens or 32 head elements, in both layouts. */
  lemma StridesAreGroups(isa: Isa, blockSize: nat, headDim: nat, token: nat, d: nat, g: nat)
    ensures var l := KLayout(isa, blockSize, headDim);
            Addr(l, token + 32 * g, d) == Addr(l, token, d) + g * KTokenGroupStride(isa, headDim)
    ensures var l := VLayout(isa, blockSize, headDim);
            Addr(l, d, token + 32 * g) == Addr(l, d, token) + g * VTokenGroupStride(isa, headDim)
    ensures var l := VLayout(isa, blockSize, headDim);
            Addr(l, d + 32 * g, token) == Addr(l, d, token) + g * VHeadGroupStride(isa, blockSize)
  {
    hide Addr;
    OuterSteps(KLayout(isa, blockSize, headDim), token, d, g);
    DepthSteps(VLayout(isa, blockSize, headDim), d, token, g);
    OuterSteps(VLayout(isa, blockSize, headDim), d, token, g);
  }
}
