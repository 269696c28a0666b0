/**
  Attention::operator() (csrc/cpu/cpu_attn_impl.hpp, lines 905-1087): Q times K, mask,
  softmax and P times V for all rows of an inner Q tile on one KV tile.  One call takes
  every row through exactly one TileStep.
 */
module KernelStep {
  import opened OnlineSoftmax
  import opened TileWalk
  import CacheLayout
  import TileGemm
  import LogitsMask
  import PagedCache
  import PagedTile
  import PA = PagedAttention
  import E = EndToEnd
  import Scheduler
  import QueryPack
  import Powers

  // ----- rows of a flat buffer -----

  lemma RowInside(i: nat, n: nat, m: nat)
    requires i < m
    ensures 0 <= i * n && i * n + n <= m * n
  {
    Powers.MulMonotone(i + 1, m, n);
    Powers.Distribute(i, 1, n);
  }

  lemma CellOfIndex(x: nat, n: nat, m: nat)
    requires n > 0 && x < m * n
    ensures 0 <= x / n < m && 0 <= x % n < n && x == x / n * n + x % n
  {
    Powers.Quotients(x, n);
    Powers.MulMonotone(m, x / n, n);
  }

  /** Cell x of the flat logits, as the kernel left it in rows of n. */
  function FlatCell(rows: seq<seq<real>>, n: nat, x: nat): Cell
    requires n > 0 && forall i :: 0 <= i < |rows| ==> |rows[i]| == n
  {
    if x < |rows| * n then
      CellOfIndex(x, n, |rows|);
      Num(rows[x / n][x % n])
    else NegInf
  }

  lemma FlatAt(rows: seq<seq<real>>, n: nat, i: nat, c: nat)
    requires n > 0 && (forall j :: 0 <= j < |rows| ==> |rows[j]| == n) && i < |rows| && c < n
    ensures 0 <= i * n + c < |rows| * n && FlatCell(rows, n, i * n + c) == Num(rows[i][c])
  {
    RowInside(i, n, |rows|);
    Powers.DivUnique(i * n + c, n, i, c);
  }

  // ----- one row -----

  /** What the row is before the step, and the tile it meets. */
  ghost predicate RowInput(q: Query, mask: LogitsMask.Mask, i: nat)
    requires mask.heads > 0
  {
    q.pos == LogitsMask.RowPos(mask, i) && q.window == mask.window
  }

  /** Row i of the masked buffer is the masked tile of the row's query. */
  lemma MaskedRow(mask: LogitsMask.Mask, q: Query, rows: seq<seq<real>>, buf: seq<Cell>, i: nat)
    requires LogitsMask.ValidMask(mask) && RowInput(q, mask, i) && |rows| == mask.qNum * mask.heads && i < |rows|
    requires forall j :: 0 <= j < |rows| ==> |rows[j]| == LogitsMask.Stride(mask)
    requires |rows| * LogitsMask.Stride(mask) <= |buf|
    requires forall k :: 0 <= k < |rows| * LogitsMask.Stride(mask) ==>
               buf[k] == if LogitsMask.KeepAt(mask, k) then FlatCell(rows, LogitsMask.Stride(mask), k) else NegInf
    requires forall c: nat :: c < LogitsMask.Stride(mask) ==> rows[i][c] == q.x(mask.start + c)
    ensures 0 <= i * LogitsMask.Stride(mask) && i * LogitsMask.Stride(mask) + LogitsMask.Stride(mask) <= |buf|
    ensures buf[i * LogitsMask.Stride(mask)..i * LogitsMask.Stride(mask) + LogitsMask.Stride(mask)]
         == MaskedTile(q, mask.start, mask.end).cells
  {
    hide FlatCell;
    var n := LogitsMask.Stride(mask);
    RowInside(i, n, |rows|);
    var row, cells := buf[i * n..i * n + n], MaskedTile(q, mask.start, mask.end).cells;
    forall c | 0 <= c < n ensures row[c] == cells[c] {
      FlatAt(rows, n, i, c);
      LogitsMask.RowOfIndex(i * n + c, i, n);
    }
  }

  /** What apply_softmax leaves of a row: new base and sum, and the rescaled output. */
  ghost predicate Softmaxed(exp: real -> real, cells: seq<Cell>, r: Row, first: bool, base: real, sum: real,
                            scaled: seq<real>) {
    && base == (if r.base - TileMax(cells, r.base) < -8.0 then TileMax(cells, r.base) else r.base)
    && sum == WSum(exp, cells, base) + (if base == r.base then 1.0 else exp(r.base - base)) * r.sum
    && |scaled| == |r.out|
    && forall d :: 0 <= d < |r.out| ==>
         scaled[d] == if first || base == r.base then r.out[d] else exp(r.base - base) * r.out[d]
  }

  /** The softmax and the gain of P.V make one TileStep. */
  lemma StepAssembled(exp: real -> real, r: Row, t: Tile, first: bool, base: real, sum: real, scaled: seq<real>,
                      out: seq<real>)
    requires ValidTile(t, |r.out|) && Softmaxed(exp, t.cells, r, first, base, sum, scaled) && |out| == |r.out|
    requires forall d :: 0 <= d < |out| ==>
               out[d] == TileGemm.Start(!first, scaled[d]) + VSum(exp, t.cells, t.vals, base, d)
    ensures Row(base, sum, out) == TileStep(exp, r, t, first, |r.out|)
  {
    hide VSum; hide WSum; hide TileMax;
    var r' := TileStep(exp, r, t, first, |r.out|);
    forall d | 0 <= d < |out| ensures out[d] == r'.out[d] {
      assert scaled[d] == if first || base == r.base then r.out[d] else exp(r.base - base) * r.out[d];
    }
    assert out == r'.out;
  }

  ghost function OutRow(output: array2<real>, i: nat): (out: seq<real>)
    requires i < output.Length0
    reads output
    ensures |out| == output.Length1
  {
    seq(output.Length1, d requires 0 <= d < output.Length1 reads output => output[i, d])
  }

  function Numbers(cells: seq<Cell>): (xs: seq<real>)
    ensures |xs| == |cells|
  {
    seq(|cells|, c requires 0 <= c < |cells| => if cells[c].Num? then cells[c].x else 0.0)
  }

  method PutRow(output: array2<real>, i: nat, row: seq<real>)
    requires i < output.Length0 && |row| == output.Length1
    modifies output
    ensures OutRow(output, i) == row
    ensures forall j, d :: 0 <= j < output.Length0 && 0 <= d < output.Length1 && j != i ==>
              output[j, d] == old(output[j, d])
  {
    forall d | 0 <= d < output.Length1 {
      output[i, d] := row[d];
    }
  }

  /** apply_softmax on one row given by its cells: the probabilities and the rescaled output. */
  method SoftmaxCells(exp: real -> real, cells: seq<Cell>, row: seq<real>, base0: real, sum0: real, first: bool)
    returns (base: real, sum: real, probs: seq<real>, scaled: seq<real>)
    ensures Softmaxed(exp, cells, Row(base0, sum0, row), first, base, sum, scaled)
    ensures |probs| == |cells| && forall c :: 0 <= c < |cells| ==> probs[c] == Weight(exp, cells[c], base)
  {
    hide WSum; hide TileMax; hide Weight;
    var logits := new Cell[|cells|](c requires 0 <= c < |cells| => cells[c]);
    var out := new Cell[|row|](d requires 0 <= d < |row| => Num(row[d]));
    assert logits[..] == cells;
    base, sum := ApplySoftmax(exp, logits, out, base0, sum0, first);
    probs, scaled := Numbers(logits[..]), Numbers(out[..]);
    forall d | 0 <= d < |row|
      ensures scaled[d] == if first || base == base0 then row[d] else exp(base0 - base) * row[d]
    {
      assert out[d] == if first || base == base0 then Num(row[d]) else Times(exp(base0 - base), Num(row[d]));
    }
  }

  /** apply_softmax on one row of the buffers. */
  method SoftmaxRow(exp: real -> real, cells: seq<Cell>, output: array2<real>, i: nat, base0: real, sum0: real,
                    first: bool) returns (base: real, sum: real, probs: seq<real>)
    requires i < output.Length0
    modifies output
    ensures Softmaxed(exp, cells, Row(base0, sum0, old(OutRow(output, i))), first, base, sum, OutRow(output, i))
    ensures |probs| == |cells| && forall c :: 0 <= c < |cells| ==> probs[c] == Weight(exp, cells[c], base)
    ensures forall j, d :: 0 <= j < output.Length0 && 0 <= d < output.Length1 && j != i ==>
              output[j, d] == old(output[j, d])
  {
    hide Weight;
    var row := seq(output.Length1, d requires 0 <= d < output.Length1 reads output => output[i, d]);
    assert row == OutRow(output, i);
    var scaled;
    base, sum, probs, scaled := SoftmaxCells(exp, cells, row, base0, sum0, first);
    assert |scaled| == |row|;
    hide Softmaxed;
    PutRow(output, i, scaled);
  }

  // ----- the whole inner tile -----

  /** The row's query reads these keys and values, and the rows are in the mask's order. */
  ghost predicate RowQuery(k: PA.Call, r: nat, h: nat, vk: PagedTile.Tokens, q: TileGemm.Operand, scale: real,
                           mask: LogitsMask.Mask, i: nat, query: Query)
    requires PagedCache.ValidShape(k.shape) && vk.shape == k.shape && mask.heads > 0
  {
    && RowInput(query, mask, i) && ValuesShaped(query, k.shape.headDim)
    && (forall j: int :: query.v(j) == PA.ValueOf(k, r, h, j))
    && (forall c: nat :: c < vk.count ==> PagedTile.Logit(vk, q, scale, i, c) == query.x(mask.start + c))
  }

  ghost predicate Inputs(k: PA.Call, r: nat, h: nat, vk: PagedTile.Tokens, vv: PagedTile.Tokens, q: TileGemm.Operand,
                         m: nat, scale: real, mask: LogitsMask.Mask, queries: seq<Query>) {
    && PA.TokensOf(k, PagedCache.Key, r, h, vk) && PA.TokensOf(k, PagedCache.Value, r, h, vv)
    && PagedTile.ValidTokens(vk) && PagedTile.ValidTokens(vv) && PagedTile.ValidQ(vk, q, m)
    && LogitsMask.ValidMask(mask) && mask.qNum * mask.heads == m == |queries|
    && mask.start == vk.start == vv.start && LogitsMask.Stride(mask) == vk.count == vv.count
    && forall i: nat :: i < m ==> RowQuery(k, r, h, vk, q, scale, mask, i, queries[i])
  }

  /** One row per query: the tile it meets. */
  ghost function TileOf(mask: LogitsMask.Mask, query: Query): (t: Tile)
    requires LogitsMask.ValidMask(mask)
    ensures |t.cells| == |t.vals| == LogitsMask.Stride(mask)
  {
    MaskedTile(query, mask.start, mask.end)
  }

  /** apply_mask on the logits, row after row. */
  method MaskRows(rows: seq<seq<real>>, mask: LogitsMask.Mask) returns (buf: seq<Cell>)
    requires LogitsMask.ValidMask(mask) && |rows| == mask.qNum * mask.heads
    requires forall i :: 0 <= i < |rows| ==> |rows[i]| == LogitsMask.Stride(mask)
    ensures |buf| >= |rows| * LogitsMask.Stride(mask)
    ensures forall x :: 0 <= x < |rows| * LogitsMask.Stride(mask) ==>
              buf[x] == if LogitsMask.KeepAt(mask, x) then FlatCell(rows, LogitsMask.Stride(mask), x) else NegInf
  {
    hide LogitsMask.KeepAt; hide FlatCell;
    var n := LogitsMask.Stride(mask);
    RowsNonNegative(|rows|, n);
    var flat := new Cell[|rows| * n + LogitsMask.Spill(mask)](x requires 0 <= x => FlatCell(rows, n, x));
    LogitsMask.ApplyMask(mask, flat);
    buf := flat[..];
  }

  /** QK, flattening and the mask: the buffer holds the masked tile of every row. */
  method MaskedLogits(k: PA.Call, r: nat, h: nat, vk: PagedTile.Tokens, vv: PagedTile.Tokens, q: TileGemm.Operand,
                      m: nat, scale: real, mask: LogitsMask.Mask, ghost queries: seq<Query>, logits: array2<real>)
    returns (buf: seq<Cell>)
    requires Inputs(k, r, h, vk, vv, q, m, scale, mask, queries)
    requires TileGemm.RowsTouched(k.shape.isa, m) <= logits.Length0 && logits.Length1 == vk.count
    modifies logits
    ensures forall i: nat :: i < m ==>
              && 0 <= i * vk.count && i * vk.count + vk.count <= |buf|
              && buf[i * vk.count..i * vk.count + vk.count] == TileOf(mask, queries[i]).cells
  {
    hide PagedTile.ValidTokens; hide PagedTile.Logit; hide LogitsMask.KeepAt; hide FlatCell; hide TileGemm.Holds;
    PagedTile.QkTile(vk, q, m, scale, logits);
    var n := vk.count;
    var rows := seq(m, i requires 0 <= i < m reads logits =>
      seq(n, c requires 0 <= c < n reads logits => logits[i, c]));
    buf := MaskRows(rows, mask);
    forall i: nat | i < m
      ensures 0 <= i * n && i * n + n <= |buf| && buf[i * n..i * n + n] == TileOf(mask, queries[i]).cells
    {
      assert RowQuery(k, r, h, vk, q, scale, mask, i, queries[i]);
      MaskedRow(mask, queries[i], rows, buf, i);
    }
  }

  lemma RowsNonNegative(m: nat, n: nat)
    ensures m * n >= 0
  {}

  /** Row i of the probabilities: rows of n, one after the other. */
  ghost predicate ProbRow(exp: real -> real, probs: seq<real>, n: nat, i: nat, cells: seq<Cell>, base: real) {
    && 0 <= i * n && i * n + n <= |probs| && |cells| == n
    && forall c: nat :: c < n ==> probs[i * n + c] == Weight(exp, cells[c], base)
  }

  lemma AppendRow(exp: real -> real, probs: seq<real>, row: seq<real>, n: nat, i: nat, cells: seq<Cell>, base: real)
    requires |probs| == i * n && |row| == n == |cells|
    requires forall c: nat :: c < n ==> row[c] == Weight(exp, cells[c], base)
    ensures |probs + row| == (i + 1) * n && ProbRow(exp, probs + row, n, i, cells, base)
  {
    Powers.Distribute(i, 1, n);
    forall c: nat | c < n ensures (probs + row)[i * n + c] == Weight(exp, cells[c], base) {
      assert (probs + row)[i * n + c] == row[c];
    }
  }

  lemma KeepRow(exp: real -> real, probs: seq<real>, more: seq<real>, n: nat, i: nat, cells: seq<Cell>, base: real)
    requires ProbRow(exp, probs, n, i, cells, base)
    ensures ProbRow(exp, probs + more, n, i, cells, base)
  {
    forall c: nat | c < n ensures (probs + more)[i * n + c] == Weight(exp, cells[c], base) {
      assert (probs + more)[i * n + c] == probs[i * n + c];
    }
  }

  /** The softmax over all rows of the masked buffer. */
  method SoftmaxRows(exp: real -> real, m: nat, n: nat, buf: seq<Cell>, output: array2<real>, base: array<real>,
                     sum: array<real>, first: bool) returns (probs: seq<real>)
    requires base != sum && m <= base.Length && m <= sum.Length && m <= output.Length0
    requires forall i: nat :: i < m ==> 0 <= i * n && i * n + n <= |buf|
    modifies output, base, sum
    ensures |probs| == m * n
    ensures forall i: nat :: i < m ==>
              && ProbRow(exp, probs, n, i, buf[i * n..i * n + n], base[i])
              && Softmaxed(exp, buf[i * n..i * n + n], old(Row(base[i], sum[i], OutRow(output, i))), first,
                           base[i], sum[i], OutRow(output, i))
  {
    hide Softmaxed; hide ProbRow; hide Weight;
    probs := [];
    for i := 0 to m
      invariant |probs| == i * n
      invariant forall j: nat :: j < i ==>
                  && ProbRow(exp, probs, n, j, buf[j * n..j * n + n], base[j])
                  && Softmaxed(exp, buf[j * n..j * n + n], old(Row(base[j], sum[j], OutRow(output, j))), first,
                               base[j], sum[j], OutRow(output, j))
      invariant forall j: nat :: i <= j < m ==>
                  base[j] == old(base[j]) && sum[j] == old(sum[j]) && OutRow(output, j) == old(OutRow(output, j))
    {
      var cells := buf[i * n..i * n + n];
      label Before:
      var b, s, p := SoftmaxRow(exp, cells, output, i, base[i], sum[i], first);
      base[i], sum[i] := b, s;
      forall j: nat | j < m && j != i ensures OutRow(output, j) == old@Before(OutRow(output, j)) {}
      AppendRow(exp, probs, p, n, i, cells, b);
      forall j: nat | j < i ensures ProbRow(exp, probs + p, n, j, buf[j * n..j * n + n], base[j]) {
        KeepRow(exp, probs, p, n, j, buf[j * n..j * n + n], base[j]);
      }
      probs := probs + p;
    }
  }

  /** The probabilities as the operand of P.V, with zero rows up to those the kernel touches. */
  function Probabilities(probs: seq<real>, rows: nat, n: nat): (p: TileGemm.Operand) {
    TileGemm.Operand(probs + seq(Powers.Product(rows, n), _ => 0.0), 0,
                     CacheLayout.Layout(CacheLayout.RowMajor, rows, n))
  }

  lemma ProbabilitiesHold(probs: seq<real>, rows: nat, n: nat)
    ensures TileGemm.Holds(Probabilities(probs, rows, n), rows, n)
  {
    var p := Probabilities(probs, rows, n);
    forall x: nat, k: nat | x < rows && k < n ensures 0 <= TileGemm.Place(p, x, k) < |p.buf| {
      RowInside(x, n, rows);
    }
  }

  lemma ProbabilityRead(exp: real -> real, probs: seq<real>, rows: nat, n: nat, i: nat, cells: seq<Cell>, base: real)
    requires ProbRow(exp, probs, n, i, cells, base)
    ensures forall c: nat :: c < n ==> TileGemm.Read(Probabilities(probs, rows, n), i, c) == Weight(exp, cells[c], base)
  {
    var p := Probabilities(probs, rows, n);
    forall c: nat | c < n ensures TileGemm.Read(p, i, c) == Weight(exp, cells[c], base) {
      assert TileGemm.Place(p, i, c) == i * n + c;
    }
  }

  /** P.V on a softmaxed row completes its step. */
  lemma RowStep(k: PA.Call, exp: real -> real, r: nat, h: nat, vv: PagedTile.Tokens, p: TileGemm.Operand, i: nat,
                buf: seq<Cell>, t: Tile, query: Query, row: Row, first: bool, base: real, sum: real,
                scaled: seq<real>, out: seq<real>)
    requires PA.TokensOf(k, PagedCache.Value, r, h, vv) && RowReady(k, r, h, vv, buf, i, t, query)
    requires |out| == |row.out| == k.shape.headDim && Softmaxed(exp, t.cells, row, first, base, sum, scaled)
    requires forall c: nat :: c < vv.count ==> TileGemm.Read(p, i, c) == Weight(exp, t.cells[c], base)
    requires |scaled| == |out| && forall d :: 0 <= d < |out| ==>
               out[d] == TileGemm.Start(!first, scaled[d]) + PagedTile.Weighted(vv, p, i, d, vv.count)
    ensures Stepped(exp, row, Row(base, sum, out), t, first, k.shape.headDim)
  {
    hide Softmaxed; hide PagedTile.Weighted; hide VSum; hide TileStep; hide Weight; hide TileGemm.Read; hide PA.ValueOf;
    assert forall j :: 0 <= j < |t.vals| ==> |t.vals[j]| == k.shape.headDim by {
      PA.RangeShaped(query, vv.start, vv.start + vv.count, k.shape.headDim);
    }
    forall d | 0 <= d < |out| ensures PagedTile.Weighted(vv, p, i, d, vv.count) == VSum(exp, t.cells, t.vals, base, d) {
      PA.KernelValues(k, exp, query, r, h, vv, p, i, t.cells, base, d);
    }
    StepAssembled(exp, row, t, first, base, sum, scaled, out);
  }

  /** A row has taken its step. */
  ghost predicate Stepped(exp: real -> real, before: Row, after: Row, t: Tile, first: bool, dim: nat) {
    |before.out| == dim && ValidTile(t, dim) && after == TileStep(exp, before, t, first, dim)
  }

  /** What the second half of the call needs of row i: its tile in the buffer, its values in the cache. */
  ghost predicate RowReady(k: PA.Call, r: nat, h: nat, vv: PagedTile.Tokens, buf: seq<Cell>, i: nat, t: Tile,
                           query: Query)
    requires PagedCache.ValidShape(k.shape)
  {
    && 0 <= i * vv.count && i * vv.count + vv.count <= |buf|
    && buf[i * vv.count..i * vv.count + vv.count] == t.cells
    && ValuesShaped(query, k.shape.headDim) && (forall j: int :: query.v(j) == PA.ValueOf(k, r, h, j))
    && |t.vals| == vv.count && t.vals == RangeVals(query, vv.start, vv.start + vv.count)
  }

  /** Softmax and P.V on masked logits. */
  method SoftmaxAndValues(k: PA.Call, exp: real -> real, r: nat, h: nat, vv: PagedTile.Tokens, m: nat, buf: seq<Cell>,
                          ghost tiles: seq<Tile>, ghost queries: seq<Query>, output: array2<real>,
                          base: array<real>, sum: array<real>, first: bool)
    requires PA.TokensOf(k, PagedCache.Value, r, h, vv) && PagedTile.ValidTokens(vv)
    requires 0 < m <= TileGemm.MaxRows(k.shape.isa) && |tiles| == |queries| == m
    requires forall i: nat :: i < m ==> RowReady(k, r, h, vv, buf, i, tiles[i], queries[i])
    requires TileGemm.RowsTouched(k.shape.isa, m) <= output.Length0 && output.Length1 == k.shape.headDim
    requires base != sum && m <= base.Length && m <= sum.Length
    modifies output, base, sum
    ensures forall i: nat :: i < m ==>
              Stepped(exp, old(Row(base[i], sum[i], OutRow(output, i))), Row(base[i], sum[i], OutRow(output, i)),
                      tiles[i], first, k.shape.headDim)
  {
    hide Softmaxed; hide ProbRow; hide Stepped; hide Probabilities; hide PagedTile.Weighted; hide TileGemm.Holds;
    hide PagedTile.ValidTokens;
    assert m <= output.Length0 by { RowsCover(k.shape.isa, m); }
    var n, rows := vv.count, TileGemm.RowsTouched(k.shape.isa, m);
    ghost var before := seq(m, i requires 0 <= i < m reads base, sum, output =>
      Row(base[i], sum[i], OutRow(output, i)));
    forall i: nat | i < m ensures 0 <= i * n && i * n + n <= |buf| {
      assert RowReady(k, r, h, vv, buf, i, tiles[i], queries[i]);
    }
    var probs := SoftmaxRows(exp, m, n, buf, output, base, sum, first);
    ghost var scaled := seq(m, i requires 0 <= i < m reads output => OutRow(output, i));
    var p := Probabilities(probs, rows, n);
    ProbabilitiesHold(probs, rows, n);
    assert PagedTile.ValidP(vv, p, m) by { ProbabilityForm(probs, rows, n); }
    PagedTile.PvTile(vv, p, m, output, first);
    forall i: nat | i < m
      ensures Stepped(exp, before[i], Row(base[i], sum[i], OutRow(output, i)), tiles[i], first, k.shape.headDim)
    {
      ProbabilityRead(exp, probs, rows, n, i, tiles[i].cells, base[i]);
      RowStep(k, exp, r, h, vv, p, i, buf, tiles[i], queries[i], before[i], first, base[i], sum[i], scaled[i],
              OutRow(output, i));
    }
  }

  lemma RowsCover(isa: CacheLayout.Isa, m: nat)
    requires m <= TileGemm.MaxRows(isa)
    ensures m <= TileGemm.RowsTouched(isa, m)
  {}

  lemma ProbabilityForm(probs: seq<real>, rows: nat, n: nat)
    ensures Probabilities(probs, rows, n).layout.form.RowMajor?
  {}

  /** The whole call takes every row of the inner tile through its TileStep, in place. */
  method Attend(k: PA.Call, exp: real -> real, r: nat, h: nat, vk: PagedTile.Tokens, vv: PagedTile.Tokens,
                q: TileGemm.Operand, m: nat, scale: real, mask: LogitsMask.Mask, ghost queries: seq<Query>,
                logits: array2<real>, output: array2<real>, base: array<real>, sum: array<real>, first: bool)
    requires Inputs(k, r, h, vk, vv, q, m, scale, mask, queries)
    requires TileGemm.RowsTouched(k.shape.isa, m) <= logits.Length0 && logits.Length1 == vk.count
    requires TileGemm.RowsTouched(k.shape.isa, m) <= output.Length0 && output.Length1 == k.shape.headDim
    requires base != sum && logits != output && m <= base.Length && m <= sum.Length
    modifies logits, output, base, sum
    ensures m <= output.Length0
    ensures forall i: nat :: i < m ==>
              Stepped(exp, old(Row(base[i], sum[i], OutRow(output, i))), Row(base[i], sum[i], OutRow(output, i)),
                      TileOf(mask, queries[i]), first, k.shape.headDim)
  {
    hide Inputs; hide Stepped; hide TileOf; hide PagedTile.ValidTokens; hide PA.TokensOf;
    InputFacts(k, r, h, vk, vv, q, m, scale, mask, queries);
    ghost var before := seq(m, i requires 0 <= i < m reads base, sum, output =>
      Row(base[i], sum[i], OutRow(output, i)));
    var buf := MaskedLogits(k, r, h, vk, vv, q, m, scale, mask, queries, logits);
    ghost var tiles := seq(m, i requires 0 <= i < m => TileOf(mask, queries[i]));
    forall i: nat | i < m ensures RowReady(k, r, h, vv, buf, i, tiles[i], queries[i]) {
      QueryFacts(k, r, h, vk, vv, q, m, scale, mask, queries, i);
    }
    forall i: nat | i < m ensures OutRow(output, i) == before[i].out {}
    SoftmaxAndValues(k, exp, r, h, vv, m, buf, tiles, queries, output, base, sum, first);
  }

  lemma InputFacts(k: PA.Call, r: nat, h: nat, vk: PagedTile.Tokens, vv: PagedTile.Tokens, q: TileGemm.Operand,
                   m: nat, scale: real, mask: LogitsMask.Mask, queries: seq<Query>)
    requires Inputs(k, r, h, vk, vv, q, m, scale, mask, queries)
    ensures PA.TokensOf(k, PagedCache.Value, r, h, vv) && PagedTile.ValidTokens(vv)
    ensures vk.shape == vv.shape == k.shape && LogitsMask.ValidMask(mask) && |queries| == m
    ensures 0 < m <= TileGemm.MaxRows(k.shape.isa) && vk.count == vv.count == LogitsMask.Stride(mask)
    ensures m <= TileGemm.RowsTouched(k.shape.isa, m) && mask.start == vv.start
  {}

  lemma QueryFacts(k: PA.Call, r: nat, h: nat, vk: PagedTile.Tokens, vv: PagedTile.Tokens, q: TileGemm.Operand,
                   m: nat, scale: real, mask: LogitsMask.Mask, queries: seq<Query>, i: nat)
    requires Inputs(k, r, h, vk, vv, q, m, scale, mask, queries) && i < m
    ensures ValuesShaped(queries[i], k.shape.headDim) && LogitsMask.ValidMask(mask)
    ensures PagedCache.ValidShape(k.shape) && forall j: int :: queries[i].v(j) == PA.ValueOf(k, r, h, j)
    ensures TileOf(mask, queries[i]).vals == RangeVals(queries[i], vv.start, vv.start + vv.count)
  {
    assert RowQuery(k, r, h, vk, q, scale, mask, i, queries[i]);
  }

  /**
    The rows of an iteration that starts t0 tokens into the Q tile are the rows of the
    end-to-end model: row (t - t0) * rows + row is query head h * rows + row of token first + t.
   */
  lemma RowsOfModel(k: PA.Call, rest: E.Model, c: Scheduler.Config, r: nat, h: nat, first: nat, t0: nat, t: nat,
      row: nat,
                    query: QueryPack.Query, g: QueryPack.Target, buf: seq<real>, vk: PagedTile.Tokens,
                    mask: LogitsMask.Mask, i: nat)
    requires PA.TokensOf(k, PagedCache.Key, r, h, vk) && rest.rows > 0 && row < rest.rows && t0 <= t < |query|
    requires QueryPack.ValidTarget(g) && QueryPack.ValidQuery(query, rest.rows, g.headDim)
    requires k.shape.isa == g.isa && k.shape.headDim == g.headDim && g.scale == k.scale
    requires QueryPack.Copied(g, buf, query, rest.rows, |query| * rest.rows)
    requires PA.HasQuery(k, r, h * rest.rows + row, first + t)
    requires query[t][row] == k.queries[r][first + t][h * rest.rows + row]
    requires r < |c.reqs| && mask.heads == rest.rows && mask.window == c.window && mask.start == vk.start
    requires mask.qStart == Scheduler.QPos(c, r, first + t0) && i == (t - t0) * rest.rows + row
    requires t0 * rest.rows >= 0 && (g.isa.AMX? ==> (t0 * rest.rows) % 16 == 0)
    ensures RowQuery(k, r, h, vk, QueryPack.Iteration(g, buf, t0 * rest.rows), g.scale, mask, i,
                     E.QueryOf(PA.CacheModel(k, rest), c, h, r, first + t, row))
  {
    hide QueryPack.Copied; hide PagedTile.Logit; hide PA.LogitOf; hide PA.TokensOf; hide PA.Entry;
    hide QueryPack.Iteration;
    PA.TokensShape(k, PagedCache.Key, r, h, vk);
    var rows := rest.rows;
    LogitsMask.RowOfIndex(i, t - t0, rows);
    Powers.Distribute(t0, t - t0, rows);
    QueryPack.RowAt(query, rows, g.headDim, t, row);
    forall n: nat | n < vk.count
      ensures PagedTile.Logit(vk, QueryPack.Iteration(g, buf, t0 * rows), g.scale, i, n)
           == PA.LogitOf(k, rows, r, h * rows + row, first + t, mask.start + n)
    {
      PA.KernelLogit(k, rows, r, h, first, query, g, buf, vk, t0 * rows, i, t, row, n);
    }
  }
}
