/**
  The tile matrix products of csrc/cpu/cpu_attn_amx.hpp and csrc/cpu/cpu_attn_vec.hpp.
  Each is proved to add the plain product of its two operands to the result tile,
  whatever layout the operands are stored in.
 */
module TileGemm {
  import opened CacheLayout

  // ----- operands and their product -----

  /** A pointer into a buffer that holds a matrix in some layout. */
  datatype Operand = Operand(buf: seq<real>, base: int, layout: Layout)

  function Place(m: Operand, x: nat, k: nat): int { m.base + Addr(m.layout, x, k) }

  ghost predicate Holds(m: Operand, rows: nat, depth: nat) {
    forall x: nat, k: nat :: x < rows && k < depth ==> 0 <= Place(m, x, k) < |m.buf|
  }

  ghost function Read(m: Operand, x: nat, k: nat): real {
    var p := Place(m, x, k);
    if 0 <= p < |m.buf| then m.buf[p] else 0.0
  }

  /** Row i of A times column n of B: the reference the kernels are proved against. */
  ghost function Dot(a: Operand, b: Operand, i: nat, n: nat, depth: nat): real {
    if depth == 0 then 0.0 else Dot(a, b, i, n, depth - 1) + Read(a, i, depth - 1) * Read(b, n, depth - 1)
  }

  // ----- tile registers -----

  type Tile = (int, int) -> real

  function Cell(base: int, stride: int, r: int, c: int): int { base + r * stride + c }

  ghost predicate InBuffer(buf: seq<real>, base: int, stride: int, rows: nat) {
    forall r, c :: 0 <= r < rows && 0 <= c < TILE_WIDTH ==> 0 <= Cell(base, stride, r, c) < |buf|
  }

  /** _tile_loadd of bfloat16 rows. */
  function TileLoad(buf: seq<real>, base: int, stride: int, rows: nat): Tile
    requires InBuffer(buf, base, stride, rows)
  {
    (r, c) => if 0 <= r < rows && 0 <= c < TILE_WIDTH then buf[Cell(base, stride, r, c)] else 0.0
  }

  /** Row m of A against column n of B: pairs of A meet the interleaved pairs of B. */
  function PairSum(a: Tile, b: Tile, m: int, n: int, pairs: nat): real {
    if pairs == 0 then 0.0
    else
      var q := pairs - 1;
      PairSum(a, b, m, n, q) + a(m, 2 * q) * b(q, 2 * n) + a(m, 2 * q + 1) * b(q, 2 * n + 1)
  }

  /** _tile_dpbf16ps. */
  function TileDot(c: Tile, a: Tile, b: Tile): Tile {
    (m, n) => c(m, n) + PairSum(a, b, m, n, TILE_ROWS)
  }

  function Start(accum: bool, v: real): real { if accum then v else 0.0 }

  /** _tile_loadd or _tile_zero of an accumulator (or of a block of vector registers). */
  method LoadC(c: array2<real>, r0: nat, c0: nat, rows: nat, width: nat, accum: bool) returns (t: Tile)
    requires r0 + rows <= c.Length0 && c0 + width <= c.Length1
    ensures forall r, n :: 0 <= r < rows && 0 <= n < width ==> t(r, n) == Start(accum, c[r0 + r, c0 + n])
  {
    if accum {
      var s := seq(rows, r requires 0 <= r < rows reads c =>
        seq(width, n requires 0 <= n < width reads c => c[r0 + r, c0 + n]));
      t := (r, n) => if 0 <= r < rows && 0 <= n < width && r < |s| && n < |s[r]| then s[r][n] else 0.0;
    } else {
      t := (r, n) => 0.0;
    }
  }

  /** _tile_stored. */
  method StoreC(c: array2<real>, r0: nat, c0: nat, rows: nat, width: nat, t: Tile)
    requires r0 + rows <= c.Length0 && c0 + width <= c.Length1
    modifies c
    ensures forall i, j :: 0 <= i < c.Length0 && 0 <= j < c.Length1 ==>
              c[i, j] == if r0 <= i < r0 + rows && c0 <= j < c0 + width then t(i - r0, j - c0) else old(c[i, j])
  {
    forall r, n | 0 <= r < rows && 0 <= n < width {
      c[r0 + r, c0 + n] := t(r, n);
    }
  }

  /** Two tiles side by side, 32 columns. */
  function Beside(left: Tile, right: Tile): Tile { (r, n) => if n < 16 then left(r, n) else right(r, n - 16) }

  method LoadPair(c: array2<real>, r0: nat, c0: nat, rows: nat, accum: bool) returns (left: Tile, right: Tile)
    requires r0 + rows <= c.Length0 && c0 + 32 <= c.Length1
    ensures forall r, n :: 0 <= r < rows && 0 <= n < 32 ==> Beside(left, right)(r, n) == Start(accum, c[r0 + r, c0 + n])
  {
    left := LoadC(c, r0, c0, rows, 16, accum);
    right := LoadC(c, r0, c0 + 16, rows, 16, accum);
    forall r, n | 0 <= r < rows && 0 <= n < 32
      ensures Beside(left, right)(r, n) == Start(accum, c[r0 + r, c0 + n])
    {
      if n >= 16 { assert right(r, n - 16) == Start(accum, c[r0 + r, c0 + 16 + (n - 16)]); }
    }
  }

  method StorePair(c: array2<real>, r0: nat, c0: nat, rows: nat, left: Tile, right: Tile)
    requires r0 + rows <= c.Length0 && c0 + 32 <= c.Length1
    modifies c
    ensures forall i, j :: 0 <= i < c.Length0 && 0 <= j < c.Length1 ==>
              c[i, j] == if r0 <= i < r0 + rows && c0 <= j < c0 + 32 then Beside(left, right)(i - r0, j - c0)
                         else old(c[i, j])
  {
    StoreC(c, r0, c0, rows, 16, left);
    StoreC(c, r0, c0 + 16, rows, 16, right);
  }

  // ----- what the registers hold -----

  ghost predicate HoldsA(t: Tile, a: Operand, x0: nat, k0: nat, rows: nat) {
    forall r, c :: 0 <= r < rows && 0 <= c < 32 ==> t(r, c) == Read(a, x0 + r, k0 + c)
  }

  ghost predicate HoldsB(t: Tile, b: Operand, n0: nat, k0: nat) {
    forall q, e :: 0 <= q < 16 && 0 <= e < 32 ==> t(q, e) == Read(b, n0 + e / 2, k0 + 2 * q + e % 2)
  }

  ghost predicate HoldsC(t: Tile, init: Tile, a: Operand, b: Operand, x0: nat, n0: nat, rows: nat, width: nat, k: nat) {
    forall r, n :: 0 <= r < rows && 0 <= n < width ==> t(r, n) == init(r, n) + DotFrom(a, b, x0, n0, r, n, k)
  }

  ghost function DotFrom(a: Operand, b: Operand, x0: nat, n0: nat, r: nat, n: nat, k: nat): real {
    Dot(a, b, x0 + r, n0 + n, k)
  }

  lemma DotNext(a: Operand, b: Operand, i: nat, n: nat, k: nat)
    ensures Dot(a, b, i, n, k + 1) == Dot(a, b, i, n, k) + Read(a, i, k) * Read(b, n, k)
  {}

  lemma PairRead(a: Operand, b: Operand, ta: Tile, tb: Tile, x0: nat, n0: nat, k: nat, rows: nat, r: nat, n: nat,
                 q: nat)
    requires HoldsA(ta, a, x0, k, rows) && HoldsB(tb, b, n0, k) && r < rows && n < 16 && q < 16
    ensures ta(r, 2 * q) == Read(a, x0 + r, k + 2 * q) && ta(r, 2 * q + 1) == Read(a, x0 + r, k + 2 * q + 1)
    ensures tb(q, 2 * n) == Read(b, n0 + n, k + 2 * q) && tb(q, 2 * n + 1) == Read(b, n0 + n, k + 2 * q + 1)
  {
    hide Read;
    assert (2 * n) / 2 == n && (2 * n) % 2 == 0 && (2 * n + 1) / 2 == n && (2 * n + 1) % 2 == 1;
  }

  lemma PairNext(a: Tile, b: Tile, m: int, n: int, q: nat)
    ensures PairSum(a, b, m, n, q + 1)
         == PairSum(a, b, m, n, q) + a(m, 2 * q) * b(q, 2 * n) + a(m, 2 * q + 1) * b(q, 2 * n + 1)
  {}

  lemma {:induction false} PairsAreDot(a: Operand, b: Operand, ta: Tile, tb: Tile, x0: nat, n0: nat, k: nat,
                                       rows: nat, r: nat, n: nat, pairs: nat)
    requires HoldsA(ta, a, x0, k, rows) && HoldsB(tb, b, n0, k) && r < rows && n < 16 && pairs <= 16
    ensures Dot(a, b, x0 + r, n0 + n, k) + PairSum(ta, tb, r, n, pairs) == Dot(a, b, x0 + r, n0 + n, k + 2 * pairs)
  {
    hide Read; hide Dot; hide HoldsA; hide HoldsB; hide PairSum;
    if pairs > 0 {
      var q := pairs - 1;
      PairsAreDot(a, b, ta, tb, x0, n0, k, rows, r, n, q);
      PairRead(a, b, ta, tb, x0, n0, k, rows, r, n, q);
      PairNext(ta, tb, r, n, q);
      DotNext(a, b, x0 + r, n0 + n, k + 2 * q);
      DotNext(a, b, x0 + r, n0 + n, k + 2 * q + 1);
    } else {
      NoPairs(ta, tb, r, n);
    }
  }

  lemma NoPairs(a: Tile, b: Tile, m: int, n: int)
    ensures PairSum(a, b, m, n, 0) == 0.0
  {}

  /** One _tile_dpbf16ps advances an accumulator by 32 terms of the product. */
  lemma DotStep(t: Tile, init: Tile, a: Operand, b: Operand, ta: Tile, tb: Tile, x0: nat, n0: nat, rows: nat, k: nat)
    requires HoldsC(t, init, a, b, x0, n0, rows, 16, k) && HoldsA(ta, a, x0, k, rows) && HoldsB(tb, b, n0, k)
    ensures HoldsC(TileDot(t, ta, tb), init, a, b, x0, n0, rows, 16, k + 32)
  {
    hide Dot; hide PairSum; hide HoldsA; hide HoldsB;
    forall r, n | 0 <= r < rows && 0 <= n < 16
      ensures TileDot(t, ta, tb)(r, n) == init(r, n) + DotFrom(a, b, x0, n0, r, n, k + 32)
    {
      PairsAreDot(a, b, ta, tb, x0, n0, k, rows, r, n, 16);
    }
  }

  // ----- loading operands -----

  /** Row stride of an A tile: packed Q, or row-major probabilities. */
  function AStride(l: Layout): int { if l.form.PackedRows? then 32 else l.depth }

  ghost predicate AForm(l: Layout) { l.form.PackedRows? || l.form.RowMajor? }

  lemma AddrA(l: Layout, x0: nat, k0: nat, r: nat, c: nat)
    requires AForm(l) && x0 % 16 == 0 && k0 % 32 == 0 && r < 16 && c < 32
    ensures Addr(l, x0 + r, k0 + c) == Cell(Addr(l, x0, k0), AStride(l), r, c)
  {
    assert (x0 + r) / 16 == x0 / 16 && (x0 + r) % 16 == r;
    assert (k0 + c) / 32 == k0 / 32 && (k0 + c) % 32 == c;
    assert (x0 + r) * l.depth == x0 * l.depth + r * l.depth;
  }

  lemma InTileB(g: nat, q: nat, n: nat, s: nat)
    requires s < 2
    ensures InTile(PackedPairs, n, 32 * g + 2 * q + s) == 512 * g + q * 32 + 2 * n + s
  {
    var k := 32 * g + 2 * q + s;
    assert k / 2 == 16 * g + q && k % 2 == s;
  }

  lemma AddrB(l: Layout, n0: nat, k0: nat, q: nat, e: nat)
    requires l.form.PackedPairs? && n0 % 16 == 0 && k0 % 32 == 0 && q < 16 && e < 32
    ensures Addr(l, n0 + e / 2, k0 + 2 * q + e % 2) == Cell(Addr(l, n0, k0), 32, q, e)
  {
    hide InTile;
    assert (n0 + e / 2) / 16 == n0 / 16 && (n0 + e / 2) % 16 == e / 2 && n0 % 16 == 0;
    InTileB(k0 / 32, q, e / 2, e % 2);
    InTileB(k0 / 32, 0, 0, 0);
  }

  lemma CellShift(base: int, a: int, stride: int, r: int, c: int)
    ensures Cell(base + a, stride, r, c) == base + Cell(a, stride, r, c)
  {}

  lemma LoadedA(a: Operand, x0: nat, k0: nat, rows: nat, depth: nat)
    requires AForm(a.layout) && x0 % 16 == 0 && k0 % 32 == 0 && rows <= 16
    requires Holds(a, x0 + rows, depth) && k0 + 32 <= depth
    ensures InBuffer(a.buf, Place(a, x0, k0), AStride(a.layout), rows)
    ensures HoldsA(TileLoad(a.buf, Place(a, x0, k0), AStride(a.layout), rows), a, x0, k0, rows)
  {
    hide Addr; hide Cell; hide AStride;
    forall r, c | 0 <= r < rows && 0 <= c < 32
      ensures Cell(Place(a, x0, k0), AStride(a.layout), r, c) == Place(a, x0 + r, k0 + c)
    {
      CellShift(a.base, Addr(a.layout, x0, k0), AStride(a.layout), r, c);
      AddrA(a.layout, x0, k0, r, c);
    }
  }

  lemma LoadedB(b: Operand, n0: nat, k0: nat, depth: nat)
    requires b.layout.form.PackedPairs? && n0 % 16 == 0 && k0 % 32 == 0
    requires Holds(b, n0 + 16, depth) && k0 + 32 <= depth
    ensures InBuffer(b.buf, Place(b, n0, k0), 32, 16)
    ensures HoldsB(TileLoad(b.buf, Place(b, n0, k0), 32, 16), b, n0, k0)
  {
    hide Addr; hide Cell;
    forall q, e | 0 <= q < 16 && 0 <= e < 32
      ensures Cell(Place(b, n0, k0), 32, q, e) == Place(b, n0 + e / 2, k0 + 2 * q + e % 2)
    {
      CellShift(b.base, Addr(b.layout, n0, k0), 32, q, e);
      AddrB(b.layout, n0, k0, q, e);
    }
  }

  /** Where the tile pointers start, and how far they move per 32 terms. */
  lemma Pointers(l: Layout, x0: nat, k0: nat)
    requires l.form.PackedRows? || l.form.RowMajor? || l.form.PackedPairs?
    ensures Addr(l, 0, 0) == 0 && Addr(l, 16, 0) == 16 * l.depth
    ensures Addr(l, x0, k0 + 32) == Addr(l, x0, k0) + DepthStride(l)
  {
    DepthSteps(l, x0, k0, 1);
  }

  // ----- the AMX products -----

  /** c[0..m, c0..c0+32] gains A times B; nothing else changes. */
  twostate predicate Multiplied(c: array2<real>, a: Operand, b: Operand, c0: nat, m: nat, depth: nat, accum: bool)
    reads c
    requires m <= c.Length0 && c0 + 32 <= c.Length1
  {
    && (forall i, n :: 0 <= i < m && 0 <= n < 32 ==>
          c[i, c0 + n] == Start(accum, old(c[i, c0 + n])) + Dot(a, b, i, n, depth))
    && (forall i, j :: 0 <= i < c.Length0 && 0 <= j < c.Length1 && !(i < m && c0 <= j < c0 + 32) ==>
          c[i, j] == old(c[i, j]))
  }

  ghost predicate AmxOperands(a: Operand, b: Operand, m: nat, depth: nat) {
    && AForm(a.layout) && b.layout.form.PackedPairs?
    && depth % 32 == 0 && Holds(a, m, depth) && Holds(b, 32, depth)
  }

  /** The 2-2-4 pattern, for 16 < m <= 32. */
  method Gemm224(m: nat, a: Operand, b: Operand, c: array2<real>, c0: nat, depth: nat, accum: bool)
    requires 16 < m <= 32 && AmxOperands(a, b, m, depth)
    requires m <= c.Length0 && c0 + 32 <= c.Length1
    modifies c
    ensures Multiplied(c, a, b, c0, m, depth, accum)
  {
    hide Dot; hide HoldsC; hide AmxOperands; hide Start;
    var i4, i5 := LoadPair(c, 0, c0, 16, accum);
    var i6, i7 := LoadPair(c, 16, c0, m - 16, accum);
    var t4, t5, t6, t7 := Accumulate224(m, a, b, depth, i4, i5, i6, i7);
    StorePair(c, 0, c0, 16, t4, t5);
    StorePair(c, 16, c0, m - 16, t6, t7);
    forall i, n | 0 <= i < m && 0 <= n < 32
      ensures c[i, c0 + n] == Start(accum, old(c[i, c0 + n])) + Dot(a, b, i, n, depth)
    {
      if i < 16 {
        EntryC(t4, t5, i4, i5, a, b, 0, 16, depth, i, n);
      } else {
        EntryC(t6, t7, i6, i7, a, b, 16, m - 16, depth, i - 16, n);
      }
    }
  }

  /** Its loop: two A tiles against two B tiles, 32 terms at a time. */
  method Accumulate224(m: nat, a: Operand, b: Operand, depth: nat, i4: Tile, i5: Tile, i6: Tile, i7: Tile)
    returns (t4: Tile, t5: Tile, t6: Tile, t7: Tile)
    requires 16 < m <= 32 && AmxOperands(a, b, m, depth)
    ensures HoldsC(t4, i4, a, b, 0, 0, 16, 16, depth) && HoldsC(t5, i5, a, b, 0, 16, 16, 16, depth)
    ensures HoldsC(t6, i6, a, b, 16, 0, m - 16, 16, depth) && HoldsC(t7, i7, a, b, 16, 16, m - 16, 16, depth)
  {
    hide Dot; hide Read; hide Addr; hide TileDot; hide TileLoad; hide HoldsC; hide HoldsA; hide HoldsB; hide Holds;
    hide InBuffer;
    t4, t5, t6, t7 := i4, i5, i6, i7;
    var aStep, stride := if a.layout.form.PackedRows? then 512 else 32, AStride(a.layout);
    var a0, a1 := a.base, a.base + 16 * a.layout.depth;
    var b2, b3 := b.base, b.base + 16 * b.layout.depth;
    Pointers(a.layout, 0, 0);
    Pointers(b.layout, 0, 0);
    FewerRows(a, m, 16, depth);
    FewerRows(b, 32, 16, depth);
    EmptyC(t4, a, b, 0, 0, 16, 0);
    EmptyC(t5, a, b, 0, 16, 16, 0);
    EmptyC(t6, a, b, 16, 0, m - 16, 0);
    EmptyC(t7, a, b, 16, 16, m - 16, 0);
    for k := 0 to depth / 32
      invariant a0 == Place(a, 0, 32 * k) && a1 == Place(a, 16, 32 * k)
      invariant b2 == Place(b, 0, 32 * k) && b3 == Place(b, 16, 32 * k)
      invariant HoldsC(t4, i4, a, b, 0, 0, 16, 16, 32 * k) && HoldsC(t5, i5, a, b, 0, 16, 16, 16, 32 * k)
      invariant HoldsC(t6, i6, a, b, 16, 0, m - 16, 16, 32 * k) && HoldsC(t7, i7, a, b, 16, 16, m - 16, 16, 32 * k)
    {
      LoadedA(a, 0, 32 * k, 16, depth);
      LoadedA(a, 16, 32 * k, m - 16, depth);
      LoadedB(b, 0, 32 * k, depth);
      LoadedB(b, 16, 32 * k, depth);
      var t0 := TileLoad(a.buf, a0, stride, 16);
      var t2 := TileLoad(b.buf, b2, 32, 16);
      DotStep(t4, i4, a, b, t0, t2, 0, 0, 16, 32 * k);
      t4 := TileDot(t4, t0, t2);
      var t3 := TileLoad(b.buf, b3, 32, 16);
      DotStep(t5, i5, a, b, t0, t3, 0, 16, 16, 32 * k);
      t5 := TileDot(t5, t0, t3);
      var t1 := TileLoad(a.buf, a1, stride, m - 16);
      DotStep(t6, i6, a, b, t1, t2, 16, 0, m - 16, 32 * k);
      t6 := TileDot(t6, t1, t2);
      DotStep(t7, i7, a, b, t1, t3, 16, 16, m - 16, 32 * k);
      t7 := TileDot(t7, t1, t3);
      Pointers(a.layout, 0, 32 * k);
      Pointers(a.layout, 16, 32 * k);
      Pointers(b.layout, 0, 32 * k);
      Pointers(b.layout, 16, 32 * k);
      a0, a1 := a0 + aStep, a1 + aStep;
      b2, b3 := b2 + 512, b3 + 512;
    }
  }

  lemma EmptyC(t: Tile, a: Operand, b: Operand, x0: nat, n0: nat, rows: nat, k: nat)
    requires k == 0
    ensures HoldsC(t, t, a, b, x0, n0, rows, 16, k)
  {
    hide Dot;
    forall r, n | 0 <= r < rows && 0 <= n < 16 ensures DotFrom(a, b, x0, n0, r, n, k) == 0.0 {
      NoTerms(a, b, x0 + r, n0 + n);
    }
  }

  lemma NoTerms(a: Operand, b: Operand, i: nat, n: nat)
    ensures Dot(a, b, i, n, 0) == 0.0
  {}

  lemma EntryC(t: Tile, t': Tile, init: Tile, init': Tile, a: Operand, b: Operand, x0: nat, rows: nat, k: nat, r: nat,
               n: nat)
    requires HoldsC(t, init, a, b, x0, 0, rows, 16, k) && HoldsC(t', init', a, b, x0, 16, rows, 16, k)
    requires r < rows && n < 32
    ensures Beside(t, t')(r, n) == Beside(init, init')(r, n) + Dot(a, b, x0 + r, n, k)
  {
    hide Dot;
    if n >= 16 { assert t'(r, n - 16) == init'(r, n - 16) + DotFrom(a, b, x0, 16, r, n - 16, k); }
  }

  lemma FewerRows(m: Operand, rows: nat, fewer: nat, depth: nat)
    requires Holds(m, rows, depth) && fewer <= rows
    ensures Holds(m, fewer, depth)
  {}

  /** The 1-2-2 pattern, for 0 < m <= 16. */
  method Gemm122(m: nat, a: Operand, b: Operand, c: array2<real>, c0: nat, depth: nat, accum: bool)
    requires 0 < m <= 16 && AmxOperands(a, b, m, depth)
    requires m <= c.Length0 && c0 + 32 <= c.Length1
    modifies c
    ensures Multiplied(c, a, b, c0, m, depth, accum)
  {
    hide Dot; hide HoldsC; hide AmxOperands; hide Start;
    var i6, i7 := LoadPair(c, 0, c0, m, accum);
    var t6, t7 := Accumulate122(m, a, b, depth, i6, i7);
    StorePair(c, 0, c0, m, t6, t7);
    forall i, n | 0 <= i < m && 0 <= n < 32
      ensures c[i, c0 + n] == Start(accum, old(c[i, c0 + n])) + Dot(a, b, i, n, depth)
    {
      EntryC(t6, t7, i6, i7, a, b, 0, m, depth, i, n);
    }
  }

  /** Its loop, unrolled by two, and the tail. */
  method Accumulate122(m: nat, a: Operand, b: Operand, depth: nat, i6: Tile, i7: Tile) returns (t6: Tile, t7: Tile)
    requires 0 < m <= 16 && AmxOperands(a, b, m, depth)
    ensures HoldsC(t6, i6, a, b, 0, 0, m, 16, depth) && HoldsC(t7, i7, a, b, 0, 16, m, 16, depth)
  {
    hide Dot; hide Read; hide Addr; hide HoldsC; hide Holds; hide Place; hide AmxOperands;
    hide DepthStride; hide AStride;
    t6, t7 := i6, i7;
    AmxForms(a, b, m, depth);
    var aStep, stride := if a.layout.form.PackedRows? then 512 else 32, AStride(a.layout);
    var a0, a1 := a.base, a.base + aStep;
    var b2, b3 := b.base, b.base + 16 * b.layout.depth;
    var b4, b5 := b2 + 512, b3 + 512;
    Ahead(a, 0, 0);
    Ahead(b, 0, 0);
    Ahead(b, 16, 0);
    EmptyC(t6, a, b, 0, 0, m, 0);
    EmptyC(t7, a, b, 0, 16, m, 0);
    var groups, tail := Unroll(depth);
    ghost var done := 0;
    for k := 0 to groups
      invariant done == 64 * k
      invariant a0 == Place(a, 0, done) && a1 == Place(a, 0, done + 32)
      invariant b2 == Place(b, 0, done) && b3 == Place(b, 16, done)
      invariant b4 == Place(b, 0, done + 32) && b5 == Place(b, 16, done + 32)
      invariant HoldsC(t6, i6, a, b, 0, 0, m, 16, done) && HoldsC(t7, i7, a, b, 0, 16, m, 16, done)
    {
      t6, t7 := Step122(m, a, b, a0, b2, b3, stride, t6, t7, i6, i7, 2 * k, done, depth);
      t6, t7 := Step122(m, a, b, a1, b4, b5, stride, t6, t7, i6, i7, 2 * k + 1, done + 32, depth);
      Ahead(a, 0, done);
      Ahead(b, 0, done);
      Ahead(b, 16, done);
      a0, a1 := a0 + 2 * aStep, a1 + 2 * aStep;
      b2, b3, b4, b5 := b2 + 1024, b3 + 1024, b4 + 1024, b5 + 1024;
      done := done + 64;
    }
    if tail {
      t6, t7 := Step122(m, a, b, a0, b2, b3, stride, t6, t7, i6, i7, 2 * groups, done, depth);
    }
  }

  lemma AmxForms(a: Operand, b: Operand, m: nat, depth: nat)
    requires AmxOperands(a, b, m, depth)
    ensures AForm(a.layout) && b.layout.form.PackedPairs? && depth % 32 == 0
    ensures DepthStride(a.layout) == (if a.layout.form.PackedRows? then 512 else 32) && DepthStride(b.layout) == 512
  {}

  method Unroll(depth: nat) returns (groups: nat, tail: bool)
    requires depth % 32 == 0
    ensures depth == 64 * groups + if tail then 32 else 0
  {
    var times := depth / 32;
    groups, tail := times / 2, times % 2 == 1;
  }

  /** One A tile against two B tiles. */
  method Step122(m: nat, a: Operand, b: Operand, pa: int, pb: int, pb': int, stride: int, t6: Tile, t7: Tile,
                 ghost i6: Tile, ghost i7: Tile, ghost g: nat, ghost k: nat, ghost depth: nat)
    returns (r6: Tile, r7: Tile)
    requires m <= 16 && AmxOperands(a, b, m, depth) && k == 32 * g && k + 32 <= depth
    requires pa == Place(a, 0, k) && pb == Place(b, 0, k) && pb' == Place(b, 16, k) && stride == AStride(a.layout)
    requires HoldsC(t6, i6, a, b, 0, 0, m, 16, k) && HoldsC(t7, i7, a, b, 0, 16, m, 16, k)
    ensures HoldsC(r6, i6, a, b, 0, 0, m, 16, k + 32) && HoldsC(r7, i7, a, b, 0, 16, m, 16, k + 32)
  {
    hide Addr; hide Dot; hide Read; hide HoldsA; hide HoldsB; hide HoldsC; hide Holds; hide TileDot; hide TileLoad;
    FewerRows(b, 32, 16, depth);
    LoadedA(a, 0, k, m, depth);
    LoadedB(b, 0, k, depth);
    LoadedB(b, 16, k, depth);
    var ta := TileLoad(a.buf, pa, stride, m);
    var tb := TileLoad(b.buf, pb, 32, 16);
    DotStep(t6, i6, a, b, ta, tb, 0, 0, m, k);
    r6 := TileDot(t6, ta, tb);
    var tb' := TileLoad(b.buf, pb', 32, 16);
    DotStep(t7, i7, a, b, ta, tb', 0, 16, m, k);
    r7 := TileDot(t7, ta, tb');
  }

  /** Three tile steps ahead of a pointer. */
  lemma Ahead(m: Operand, x: nat, k: nat)
    requires AForm(m.layout) || m.layout.form.PackedPairs?
    ensures Place(m, 0, 0) == m.base && Place(m, 16, 0) == m.base + 16 * m.layout.depth
    ensures Place(m, x, k + 32) == Place(m, x, k) + DepthStride(m.layout)
    ensures Place(m, x, k + 64) == Place(m, x, k) + 2 * DepthStride(m.layout)
    ensures Place(m, x, k + 96) == Place(m, x, k) + 3 * DepthStride(m.layout)
  {
    hide Addr;
    Pointers(m.layout, x, k);
    Pointers(m.layout, x, k + 32);
    Pointers(m.layout, x, k + 64);
  }

  // ----- the vector product -----

  ghost predicate VecOperands(a: Operand, b: Operand, rows: nat, depth: nat) {
    a.layout.form.RowMajor? && b.layout.form.ColumnMajor? && Holds(a, rows, depth) && Holds(b, 32, depth)
  }

  /** Row i of the registers plus v times 32 consecutive elements of b. */
  function RowFma(regs: Tile, i: int, v: real, b: seq<real>, p: int): Tile
    requires 0 <= p && p + 32 <= |b|
  {
    (r, n) => if r == i && 0 <= n < 32 then regs(r, n) + v * b[p + n] else regs(r, n)
  }

  /** gemm_micro: `rows` rows by 32 columns held in registers. */
  method Gemm82(rows: nat, a: Operand, b: Operand, c: array2<real>, c0: nat, depth: nat, accum: bool)
    requires VecOperands(a, b, rows, depth)
    requires rows <= c.Length0 && c0 + 32 <= c.Length1
    modifies c
    ensures Multiplied(c, a, b, c0, rows, depth, accum)
  {
    hide Dot; hide VecOperands; hide Start;
    var init := LoadC(c, 0, c0, rows, 32, accum);
    var regs := AccumulateVec(rows, a, b, depth, init);
    StoreC(c, 0, c0, rows, 32, regs);
    forall i, n | 0 <= i < rows && 0 <= n < 32
      ensures c[i, c0 + n] == Start(accum, old(c[i, c0 + n])) + Dot(a, b, i, n, depth)
    {
      assert regs(i, n) == init(i, n) + DotFrom(a, b, 0, 0, i, n, depth);
    }
  }

  method AccumulateVec(rows: nat, a: Operand, b: Operand, depth: nat, init: Tile) returns (regs: Tile)
    requires VecOperands(a, b, rows, depth)
    ensures HoldsC(regs, init, a, b, 0, 0, rows, 32, depth)
  {
    hide Dot; hide Read; hide RowFma; hide Addr; hide Holds; hide HoldsC;
    regs := init;
    var pa, pb := a.base, b.base;
    VecStart(a, b);
    VecEmpty(init, a, b, rows, 0);
    for k := 0 to depth
      invariant pa == Place(a, 0, k) && pb == Place(b, 0, k)
      invariant HoldsC(regs, init, a, b, 0, 0, rows, 32, k)
    {
      VecRow(b, k, depth);
      var q := pa;
      HoldsNone(regs, init, a, b, rows, k);
      for i := 0 to rows
        invariant q == Place(a, i, k)
        invariant HoldsC(regs, init, a, b, 0, 0, i, 32, k + 1)
        invariant HoldsBelow(regs, init, a, b, i, rows, k)
      {
        VecElement(a, rows, depth, i, k);
        RowStep(regs, init, a, b, i, rows, k, a.buf[q], pb);
        regs := RowFma(regs, i, a.buf[q], b.buf, pb);
        q := q + a.layout.depth;
      }
      VecNext(a, b, k);
      pa, pb := pa + 1, pb + b.layout.outer;
    }
  }

  /** Rows from i on still hold k terms. */
  ghost predicate HoldsBelow(t: Tile, init: Tile, a: Operand, b: Operand, i: nat, rows: nat, k: nat) {
    forall r, n :: i <= r < rows && 0 <= n < 32 ==> t(r, n) == init(r, n) + DotFrom(a, b, 0, 0, r, n, k)
  }

  lemma HoldsNone(t: Tile, init: Tile, a: Operand, b: Operand, rows: nat, k: nat)
    requires HoldsC(t, init, a, b, 0, 0, rows, 32, k)
    ensures HoldsC(t, init, a, b, 0, 0, 0, 32, k + 1) && HoldsBelow(t, init, a, b, 0, rows, k)
  {
    hide DotFrom;
  }

  lemma VecEmpty(t: Tile, a: Operand, b: Operand, rows: nat, k: nat)
    requires k == 0
    ensures HoldsC(t, t, a, b, 0, 0, rows, 32, k)
  {
    hide Dot;
    forall r, n | 0 <= r < rows && 0 <= n < 32 ensures DotFrom(a, b, 0, 0, r, n, k) == 0.0 { NoTerms(a, b, r, n); }
  }

  lemma VecStart(a: Operand, b: Operand)
    requires a.layout.form.RowMajor? && b.layout.form.ColumnMajor?
    ensures Place(a, 0, 0) == a.base && Place(b, 0, 0) == b.base
  {}

  lemma VecNext(a: Operand, b: Operand, k: nat)
    requires a.layout.form.RowMajor? && b.layout.form.ColumnMajor?
    ensures Place(a, 0, k + 1) == Place(a, 0, k) + 1 && Place(b, 0, k + 1) == Place(b, 0, k) + b.layout.outer
  {
    assert (k + 1) * b.layout.outer == k * b.layout.outer + b.layout.outer;
  }

  lemma VecElement(a: Operand, rows: nat, depth: nat, i: nat, k: nat)
    requires a.layout.form.RowMajor? && Holds(a, rows, depth) && i < rows && k < depth
    ensures 0 <= Place(a, i, k) < |a.buf| && a.buf[Place(a, i, k)] == Read(a, i, k)
    ensures Place(a, i + 1, k) == Place(a, i, k) + a.layout.depth
  {
    assert (i + 1) * a.layout.depth == i * a.layout.depth + a.layout.depth;
  }

  lemma VecRow(b: Operand, k: nat, depth: nat)
    requires b.layout.form.ColumnMajor? && Holds(b, 32, depth) && k < depth
    ensures 0 <= Place(b, 0, k) && Place(b, 0, k) + 32 <= |b.buf|
    ensures forall n: nat :: n < 32 ==> Read(b, n, k) == b.buf[Place(b, 0, k) + n]
  {
    assert 0 <= Place(b, 0, k) && Place(b, 31, k) < |b.buf|;
  }

  lemma RowStep(t: Tile, init: Tile, a: Operand, b: Operand, i: nat, rows: nat, k: nat, v: real, p: int)
    requires HoldsC(t, init, a, b, 0, 0, i, 32, k + 1) && HoldsBelow(t, init, a, b, i, rows, k) && i < rows
    requires v == Read(a, i, k) && 0 <= p && p + 32 <= |b.buf|
    requires forall n: nat :: n < 32 ==> Read(b, n, k) == b.buf[p + n]
    ensures HoldsC(RowFma(t, i, v, b.buf, p), init, a, b, 0, 0, i + 1, 32, k + 1)
    ensures HoldsBelow(RowFma(t, i, v, b.buf, p), init, a, b, i + 1, rows, k)
  {
    hide Dot; hide Read;
    var u := RowFma(t, i, v, b.buf, p);
    forall r, n | 0 <= r <= i && 0 <= n < 32 ensures u(r, n) == init(r, n) + DotFrom(a, b, 0, 0, r, n, k + 1) {
      assert r < i ==> t(r, n) == init(r, n) + DotFrom(a, b, 0, 0, r, n, k + 1);
      assert r == i ==> t(r, n) == init(r, n) + DotFrom(a, b, 0, 0, r, n, k);
      DotNext(a, b, r, n, k);
    }
  }

  // ----- dispatch -----

  /** The vector kernel is instantiated for 1, 2, 4, 6 and 8 rows only. */
  function RowsTouched(isa: Isa, m: nat): nat {
    if isa.AMX? || m <= 2 then m else if m <= 4 then 4 else if m <= 6 then 6 else 8
  }

  function MaxRows(isa: Isa): nat { if isa.AMX? then 32 else 8 }

  ghost predicate Operands(isa: Isa, a: Operand, b: Operand, rows: nat, depth: nat) {
    if isa.AMX? then AmxOperands(a, b, rows, depth) else VecOperands(a, b, rows, depth)
  }

  /** Every kernel multiplies: 32 columns of c gain the plain product, for every m it is called with. */
  method Gemm(isa: Isa, m: nat, a: Operand, b: Operand, c: array2<real>, c0: nat, depth: nat, accum: bool)
    requires 0 < m <= MaxRows(isa) && Operands(isa, a, b, RowsTouched(isa, m), depth)
    requires RowsTouched(isa, m) <= c.Length0 && c0 + 32 <= c.Length1
    modifies c
    ensures Multiplied(c, a, b, c0, RowsTouched(isa, m), depth, accum)
  {
    hide AmxOperands; hide VecOperands; hide Multiplied;
    match isa {
      case VEC => Gemm82(RowsTouched(isa, m), a, b, c, c0, depth, accum);
      case AMX =>
        if m > 16 {
          Gemm224(m, a, b, c, c0, depth, accum);
        } else {
          Gemm122(m, a, b, c, c0, depth, accum);
        }
    }
  }
}
