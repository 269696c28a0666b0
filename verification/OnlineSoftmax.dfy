/**
  The numeric core of the CPU attention kernel (csrc/cpu/cpu_attn_impl.hpp): one
  query row is processed KV tile by KV tile with a running base ("max"), a running
  sum and a running output, and the base is moved only when it lags by more than 8.
  Partial rows computed by different KV splits are merged afterwards.

  Arithmetic is over the reals.  The exponential is a parameter; everything used
  about it is in `ExpLaws`.  A masked logit is `NegInf` and weighs nothing.
 */
module OnlineSoftmax {

  datatype Cell = NegInf | Num(x: real)

  /** The sink logit of a row, if the model has one and this pass accounts for it. */
  datatype Sink = NoSink | Sink(logit: real)

  /** A row's running state: max_buffer[i], sum_buffer[i] and its partial output. */
  datatype Row = Row(base: real, sum: real, out: seq<real>)

  /** The logits of one row for one KV tile, and the value vectors of its positions. */
  datatype Tile = Tile(cells: seq<Cell>, vals: seq<seq<real>>)

  // ----- the exponential -----

  ghost predicate Positive(exp: real -> real, a: real) { exp(a) > 0.0 }
  ghost predicate Additive(exp: real -> real, a: real, b: real) { exp(a + b) == exp(a) * exp(b) }
  ghost predicate Monotone(exp: real -> real, a: real, b: real) { a <= b ==> exp(a) <= exp(b) }

  ghost predicate ExpLaws(exp: real -> real) {
    && (forall a :: Positive(exp, a))
    && (forall a, b :: Additive(exp, a, b))
    && (forall a, b :: Monotone(exp, a, b))
  }

  /** Moving a weight from one base to another is a multiplication. */
  lemma Rebase(exp: real -> real, x: real, from: real, to: real)
    requires ExpLaws(exp)
    ensures exp(x - to) == exp(from - to) * exp(x - from)
  {
    assert Additive(exp, from - to, x - from);
    assert (from - to) + (x - from) == x - to;
  }

  lemma SameBase(exp: real -> real, b: real)
    requires ExpLaws(exp)
    ensures exp(b - b) == 1.0
  {
    assert Additive(exp, b - b, b);
    assert (b - b) + b == b;
    assert Positive(exp, b);
    var e, k := exp(b - b), exp(b);
    assert (e - 1.0) * k == 0.0;
  }

  // ----- exact exponential sums -----

  function Weight(exp: real -> real, c: Cell, base: real): real {
    match c
    case NegInf => 0.0
    case Num(x) => exp(x - base)
  }

  /** The sum over a sequence of positions of exp(logit - base). */
  function WSum(exp: real -> real, cells: seq<Cell>, base: real): real {
    if cells == [] then 0.0
    else WSum(exp, cells[..|cells| - 1], base) + Weight(exp, cells[|cells| - 1], base)
  }

  /** The sum over positions of exp(logit - base) * value[d]. */
  function VSum(exp: real -> real, cells: seq<Cell>, vals: seq<seq<real>>, base: real, d: nat): real
    requires |vals| == |cells|
    requires forall j :: 0 <= j < |vals| ==> d < |vals[j]|
  {
    if cells == [] then 0.0
    else
      var n := |cells| - 1;
      VSum(exp, cells[..n], vals[..n], base, d) + Weight(exp, cells[n], base) * vals[n][d]
  }

  function SinkWeight(exp: real -> real, sink: Sink, base: real): real {
    match sink
    case NoSink => 0.0
    case Sink(s) => exp(s - base)
  }

  lemma {:induction false} WSumConcat(exp: real -> real, a: seq<Cell>, b: seq<Cell>, base: real)
    ensures WSum(exp, a + b, base) == WSum(exp, a, base) + WSum(exp, b, base)
  {
    if b == [] {
      assert a + b == a;
    } else {
      var n := |b| - 1;
      assert (a + b)[..|a + b| - 1] == a + b[..n];
      WSumConcat(exp, a, b[..n], base);
    }
  }

  lemma VSumLast(exp: real -> real, cells: seq<Cell>, vals: seq<seq<real>>, base: real, d: nat)
    requires |vals| == |cells| && forall j :: 0 <= j < |vals| ==> d < |vals[j]|
    ensures cells == [] ==> VSum(exp, cells, vals, base, d) == 0.0
    ensures cells != [] ==>
              var n := |cells| - 1;
              VSum(exp, cells, vals, base, d)
              == VSum(exp, cells[..n], vals[..n], base, d) + Weight(exp, cells[n], base) * vals[n][d]
  {}

  lemma {:induction false} VSumConcat(exp: real -> real, a: seq<Cell>, va: seq<seq<real>>, b: seq<Cell>,
                                      vb: seq<seq<real>>, base: real, d: nat)
    requires |va| == |a| && |vb| == |b|
    requires forall j :: 0 <= j < |va| ==> d < |va[j]|
    requires forall j :: 0 <= j < |vb| ==> d < |vb[j]|
    ensures VSum(exp, a + b, va + vb, base, d) == VSum(exp, a, va, base, d) + VSum(exp, b, vb, base, d)
  {
    hide VSum; hide Weight;
    VSumLast(exp, b, vb, base, d);
    if b == [] {
      assert a + b == a && va + vb == va;
    } else {
      var n := |b| - 1;
      assert (a + b)[..|a + b| - 1] == a + b[..n];
      assert (va + vb)[..|va + vb| - 1] == va + vb[..n];
      var c, vc, last := a + b, va + vb, Weight(exp, b[n], base) * vb[n][d];
      assert |vc| == |c| && c[|c| - 1] == b[n] && vc[|c| - 1] == vb[n];
      VSumLast(exp, c, vc, base, d);
      assert VSum(exp, c, vc, base, d) == VSum(exp, a + b[..n], va + vb[..n], base, d) + last;
      VSumConcat(exp, a, va, b[..n], vb[..n], base, d);
    }
  }

  lemma WeightRebase(exp: real -> real, c: Cell, from: real, to: real)
    requires ExpLaws(exp)
    ensures Weight(exp, c, to) == exp(from - to) * Weight(exp, c, from)
  {
    if c.Num? { Rebase(exp, c.x, from, to); }
  }

  lemma {:induction false} WSumRebase(exp: real -> real, cells: seq<Cell>, from: real, to: real)
    requires ExpLaws(exp)
    ensures WSum(exp, cells, to) == exp(from - to) * WSum(exp, cells, from)
  {
    if cells != [] {
      var n := |cells| - 1;
      WSumRebase(exp, cells[..n], from, to);
      WeightRebase(exp, cells[n], from, to);
    }
  }

  lemma {:induction false} VSumRebase(exp: real -> real, cells: seq<Cell>, vals: seq<seq<real>>, from: real,
                                      to: real, d: nat)
    requires ExpLaws(exp)
    requires |vals| == |cells|
    requires forall j :: 0 <= j < |vals| ==> d < |vals[j]|
    ensures VSum(exp, cells, vals, to, d) == exp(from - to) * VSum(exp, cells, vals, from, d)
  {
    if cells != [] {
      var n := |cells| - 1;
      VSumRebase(exp, cells[..n], vals[..n], from, to, d);
      WeightRebase(exp, cells[n], from, to);
      var k, w, v := exp(from - to), Weight(exp, cells[n], from), vals[n][d];
      assert (k * w) * v == k * (w * v);
    }
  }

  /** The whole denominator moves between bases by the same factor. */
  lemma MassRebase(exp: real -> real, sink: Sink, cells: seq<Cell>, from: real, to: real)
    requires ExpLaws(exp)
    ensures SinkWeight(exp, sink, to) + WSum(exp, cells, to)
         == exp(from - to) * (SinkWeight(exp, sink, from) + WSum(exp, cells, from))
  {
    WSumRebase(exp, cells, from, to);
    if sink.Sink? { Rebase(exp, sink.logit, from, to); }
    var k, s, w := exp(from - to), SinkWeight(exp, sink, from), WSum(exp, cells, from);
    assert k * (s + w) == k * s + k * w;
  }

  lemma {:induction false} WSumNonNegative(exp: real -> real, cells: seq<Cell>, base: real)
    requires ExpLaws(exp)
    ensures WSum(exp, cells, base) >= 0.0
    ensures (exists j :: 0 <= j < |cells| && cells[j].Num?) ==> WSum(exp, cells, base) > 0.0
  {
    if cells != [] {
      var n := |cells| - 1;
      WSumNonNegative(exp, cells[..n], base);
      if cells[n].Num? {
        assert Positive(exp, cells[n].x - base);
      } else if j :| 0 <= j < |cells| && cells[j].Num? {
        assert cells[..n][j].Num?;
      }
    }
  }

  // ----- what a row state stands for -----

  ghost predicate Shaped(cells: seq<Cell>, vals: seq<seq<real>>, dim: nat) {
    |vals| == |cells| && forall j :: 0 <= j < |vals| ==> |vals[j]| == dim
  }

  /** No logit of `cells` exceeds `bound`. */
  ghost predicate Below(cells: seq<Cell>, bound: real) {
    forall j :: 0 <= j < |cells| && cells[j].Num? ==> cells[j].x <= bound
  }

  ghost predicate SumExact(exp: real -> real, r: Row, sink: Sink, cells: seq<Cell>) {
    r.sum == SinkWeight(exp, sink, r.base) + WSum(exp, cells, r.base)
  }

  ghost predicate OutExact(exp: real -> real, r: Row, cells: seq<Cell>, vals: seq<seq<real>>, dim: nat)
    requires Shaped(cells, vals, dim)
  {
    |r.out| == dim && forall d :: 0 <= d < dim ==> r.out[d] == VSum(exp, cells, vals, r.base, d)
  }

  ghost predicate Bounded(r: Row, sink: Sink, cells: seq<Cell>) {
    Below(cells, r.base + 8.0) && (sink.Sink? ==> sink.logit <= r.base + 8.0)
  }

  /** The row holds the exact exponential sums of `cells` relative to its own base. */
  ghost predicate Represents(exp: real -> real, r: Row, sink: Sink, cells: seq<Cell>, vals: seq<seq<real>>, dim: nat) {
    && Shaped(cells, vals, dim)
    && SumExact(exp, r, sink, cells)
    && OutExact(exp, r, cells, vals, dim)
  }

  lemma AccumulateOut(exp: real -> real, from: real, to: real, o: real, o': real, d: nat,
                      cells: seq<Cell>, vals: seq<seq<real>>, more: seq<Cell>, moreVals: seq<seq<real>>)
    requires ExpLaws(exp)
    requires |vals| == |cells| && forall j :: 0 <= j < |vals| ==> d < |vals[j]|
    requires |moreVals| == |more| && forall j :: 0 <= j < |moreVals| ==> d < |moreVals[j]|
    requires o == VSum(exp, cells, vals, from, d)
    requires o' == exp(from - to) * o + VSum(exp, more, moreVals, to, d)
    ensures o' == VSum(exp, cells + more, vals + moreVals, to, d)
  {
    hide VSum; hide ExpLaws;
    VSumConcat(exp, cells, vals, more, moreVals, to, d);
    VSumRebase(exp, cells, vals, from, to, d);
  }

  lemma AccumulateSum(exp: real -> real, r: Row, r': Row, sink: Sink, cells: seq<Cell>, more: seq<Cell>)
    requires ExpLaws(exp)
    requires SumExact(exp, r, sink, cells)
    requires r'.sum == exp(r.base - r'.base) * r.sum + WSum(exp, more, r'.base)
    ensures SumExact(exp, r', sink, cells + more)
  {
    hide WSum; hide SinkWeight; hide ExpLaws;
    MassRebase(exp, sink, cells, r.base, r'.base);
    WSumConcat(exp, cells, more, r'.base);
    SameFactor(exp(r.base - r'.base), r.sum, SinkWeight(exp, sink, r.base) + WSum(exp, cells, r.base));
  }

  lemma SameFactor(f: real, a: real, b: real)
    requires a == b
    ensures f * a == f * b
  {}

  // ----- one KV tile -----

  function Max(a: real, b: real): real { if a < b then b else a }

  function TileMax(cells: seq<Cell>, init: real): (m: real)
    ensures init <= m
    ensures Below(cells, m)
    ensures m == init || Num(m) in cells
  {
    if cells == [] then init
    else
      var n := |cells| - 1;
      var m := TileMax(cells[..n], init);
      match cells[n]
      case NegInf => m
      case Num(x) => Max(m, x)
  }

  ghost predicate ValidTile(t: Tile, dim: nat) { Shaped(t.cells, t.vals, dim) }

  /**
    One pass of apply_softmax and P@V over a row.  `first` is the row's
    first-iteration flag: the old output is then neither rescaled nor accumulated.
   */
  function TileStep(exp: real -> real, r: Row, t: Tile, first: bool, dim: nat): (r': Row)
    requires |r.out| == dim
    requires ValidTile(t, dim)
    ensures |r'.out| == dim
  {
    var m := TileMax(t.cells, r.base);
    var lag := r.base - m;
    var rescale := lag < -8.0;
    var base := if rescale then m else r.base;
    var factor := if rescale then exp(lag) else 1.0;
    Row(base,
        WSum(exp, t.cells, base) + factor * r.sum,
        seq(dim, d requires 0 <= d < dim =>
          (if first then 0.0 else factor * r.out[d]) + VSum(exp, t.cells, t.vals, base, d)))
  }

  lemma TileStepFactor(exp: real -> real, r: Row, t: Tile, first: bool, dim: nat)
    requires ExpLaws(exp)
    requires |r.out| == dim && ValidTile(t, dim)
    ensures
      var r' := TileStep(exp, r, t, first, dim);
      && r.base <= r'.base
      && Below(t.cells, r'.base + 8.0)
      && r'.sum == WSum(exp, t.cells, r'.base) + exp(r.base - r'.base) * r.sum
      && forall d :: 0 <= d < dim ==>
           r'.out[d]
           == (if first then 0.0 else exp(r.base - r'.base) * r.out[d]) + VSum(exp, t.cells, t.vals, r'.base, d)
  {
    SameBase(exp, r.base);
  }

  /** Whether or not the tile rescales, exactness and the bound survive it. */
  lemma TileStepExact(exp: real -> real, r: Row, t: Tile, first: bool, dim: nat, sink: Sink, cells: seq<Cell>,
                      vals: seq<seq<real>>)
    requires ExpLaws(exp)
    requires |r.out| == dim && ValidTile(t, dim) && Shaped(cells, vals, dim)
    requires SumExact(exp, r, sink, cells) && Bounded(r, sink, cells)
    requires if first then cells == [] else OutExact(exp, r, cells, vals, dim)
    ensures Represents(exp, TileStep(exp, r, t, first, dim), sink, cells + t.cells, vals + t.vals, dim)
    ensures Bounded(TileStep(exp, r, t, first, dim), sink, cells + t.cells)
  {
    hide WSum; hide VSum; hide TileMax;
    var r' := TileStep(exp, r, t, first, dim);
    TileStepFactor(exp, r, t, first, dim);
    hide TileStep;
    AccumulateSum(exp, r, r', sink, cells, t.cells);
    forall d | 0 <= d < dim
      ensures r'.out[d] == VSum(exp, cells + t.cells, vals + t.vals, r'.base, d)
    {
      if first {
        assert cells + t.cells == t.cells && vals + t.vals == t.vals;
      } else {
        AccumulateOut(exp, r.base, r'.base, r.out[d], r'.out[d], d, cells, vals, t.cells, t.vals);
      }
    }
  }

  method RowMax(logits: array<Cell>, base: real) returns (m: real)
    ensures m == TileMax(logits[..], base)
  {
    m := base;
    for j := 0 to logits.Length
      invariant m == TileMax(logits[..j], base)
    {
      assert logits[..j + 1][..j] == logits[..j];
      if logits[j].Num? { m := Max(m, logits[j].x); }
    }
    assert logits[..logits.Length] == logits[..];
  }

  /** Subtract the base, exponentiate, sum. */
  method Exponentiate(exp: real -> real, logits: array<Cell>, base: real) returns (sum: real)
    modifies logits
    ensures sum == WSum(exp, old(logits[..]), base)
    ensures forall j :: 0 <= j < logits.Length ==> logits[j] == Num(Weight(exp, old(logits[j]), base))
  {
    ghost var cells := logits[..];
    sum := 0.0;
    for j := 0 to logits.Length
      invariant sum == WSum(exp, cells[..j], base)
      invariant forall i :: 0 <= i < j ==> logits[i] == Num(Weight(exp, cells[i], base))
      invariant forall i :: j <= i < logits.Length ==> logits[i] == cells[i]
    {
      assert cells[..j + 1][..j] == cells[..j];
      var w := Weight(exp, logits[j], base);
      logits[j] := Num(w);
      sum := sum + w;
    }
    assert cells[..logits.Length] == cells;
  }

  // Output elements are cells: a mask of another row can have put minus infinity there.

  function Times(factor: real, c: Cell): Cell { if c.Num? then Num(factor * c.x) else NegInf }

  function Plus(c: Cell, x: real): Cell { if c.Num? then Num(c.x + x) else NegInf }

  /** An output row whose first `lost` elements are minus infinity. */
  function Shown(out: seq<real>, lost: nat): (s: seq<Cell>)
    ensures |s| == |out|
  {
    seq(|out|, d requires 0 <= d < |out| => if d < lost then NegInf else Num(out[d]))
  }

  method ScaleRow(out: array<Cell>, factor: real)
    modifies out
    ensures forall d :: 0 <= d < out.Length ==> out[d] == Times(factor, old(out[d]))
  {
    for d := 0 to out.Length
      invariant forall i :: 0 <= i < d ==> out[i] == Times(factor, old(out[i]))
      invariant forall i :: d <= i < out.Length ==> out[i] == old(out[i])
    {
      out[d] := Times(factor, out[d]);
    }
  }

  /**
    apply_softmax on one row, in place: `logits` becomes the row of probabilities,
    `out` is rescaled if the base moves and this is not the row's first tile.
   */
  method ApplySoftmax(exp: real -> real, logits: array<Cell>, out: array<Cell>, base: real, sum: real, first: bool)
    returns (base': real, sum': real)
    requires logits != out
    modifies logits, out
    ensures base' == if base - TileMax(old(logits[..]), base) < -8.0 then TileMax(old(logits[..]), base) else base
    ensures sum' == WSum(exp, old(logits[..]), base') + (if base' == base then 1.0 else exp(base - base')) * sum
    ensures forall j :: 0 <= j < logits.Length ==> logits[j] == Num(Weight(exp, old(logits[j]), base'))
    ensures forall d :: 0 <= d < out.Length ==>
              out[d] == if first || base' == base then old(out[d]) else Times(exp(base - base'), old(out[d]))
  {
    hide WSum; hide TileMax; hide Times;
    var m := RowMax(logits, base);
    var lag := base - m;
    var rescale := lag < -8.0;
    base' := if rescale then m else base;
    sum' := Exponentiate(exp, logits, base');
    if rescale {
      var factor := exp(lag);
      sum' := sum' + factor * sum;
      if !first { ScaleRow(out, factor); }
    } else {
      sum' := sum' + sum;
    }
  }

  /** P@V for one row: the probabilities of a tile times its values, accumulated unless `first`. */
  method AccumulateValues(exp: real -> real, probs: array<Cell>, ghost cells: seq<Cell>, ghost base: real,
                          vals: seq<seq<real>>, out: array<Cell>, first: bool)
    requires probs != out && probs.Length == |cells| && Shaped(cells, vals, out.Length)
    requires forall j :: 0 <= j < probs.Length ==> probs[j] == Num(Weight(exp, cells[j], base))
    modifies out
    ensures forall d :: 0 <= d < out.Length ==>
              out[d] == Plus(if first then Num(0.0) else old(out[d]), VSum(exp, cells, vals, base, d))
  {
    for d := 0 to out.Length
      invariant forall i :: 0 <= i < d ==>
                  out[i] == Plus(if first then Num(0.0) else old(out[i]), VSum(exp, cells, vals, base, i))
      invariant forall i :: d <= i < out.Length ==> out[i] == old(out[i])
    {
      var acc := if first then Num(0.0) else out[d];
      ghost var start := acc;
      for j := 0 to probs.Length
        invariant unchanged(probs)
        invariant acc == Plus(start, VSum(exp, cells[..j], vals[..j], base, d))
        invariant forall i :: 0 <= i < d ==>
                    out[i] == Plus(if first then Num(0.0) else old(out[i]), VSum(exp, cells, vals, base, i))
        invariant forall i :: d <= i < out.Length ==> out[i] == old(out[i])
      {
        assert cells[..j + 1][..j] == cells[..j] && vals[..j + 1][..j] == vals[..j];
        acc := Plus(acc, probs[j].x * vals[j][d]);
      }
      assert cells[..probs.Length] == cells && vals[..probs.Length] == vals;
      out[d] := acc;
    }
  }

  /** Both phases together are exactly TileStep; lost elements stay lost, except that a first tile restores them. */
  method AttendTile(exp: real -> real, logits: array<Cell>, vals: seq<seq<real>>, out: array<Cell>,
                    base: real, sum: real, first: bool, ghost row: seq<real>, ghost lost: nat)
    returns (base': real, sum': real)
    requires |vals| == logits.Length && forall j :: 0 <= j < |vals| ==> |vals[j]| == out.Length
    requires logits != out && |row| == out.Length && (first || out[..] == Shown(row, lost))
    modifies logits, out
    ensures var r' := TileStep(exp, Row(base, sum, row), Tile(old(logits[..]), vals), first, out.Length);
            base' == r'.base && sum' == r'.sum && out[..] == Shown(r'.out, if first then 0 else lost)
  {
    hide VSum; hide WSum; hide TileMax;
    ghost var cells, before := logits[..], out[..];
    base', sum' := ApplySoftmax(exp, logits, out, base, sum, first);
    ghost var scaled := out[..];
    AccumulateValues(exp, logits, cells, base', vals, out, first);
    ghost var r' := TileStep(exp, Row(base, sum, row), Tile(cells, vals), first, out.Length);
    assert r'.base == base' && r'.sum == sum';
    forall d | 0 <= d < out.Length
      ensures out[d] == Shown(r'.out, if first then 0 else lost)[d]
    {
      assert scaled[d] == if first || base' == base then before[d] else Times(exp(base - base'), before[d]);
      assert out[d] == Plus(if first then Num(0.0) else scaled[d], VSum(exp, cells, vals, base', d));
      if !first { assert before[d] == Shown(row, lost)[d]; }
    }
  }

  // ----- a whole pass over the tiles of one KV range -----

  /** Line 1587-1621: the row before its first tile; its output buffer holds garbage. */
  function InitRow(sink: Sink, lowest: real, garbage: seq<real>): Row {
    match sink
    case NoSink => Row(lowest, 0.0, garbage)
    case Sink(s) => Row(s, 1.0, garbage)
  }

  function Cells(ts: seq<Tile>): seq<Cell> {
    if ts == [] then [] else Cells(ts[..|ts| - 1]) + ts[|ts| - 1].cells
  }

  function Vals(ts: seq<Tile>): seq<seq<real>> {
    if ts == [] then [] else Vals(ts[..|ts| - 1]) + ts[|ts| - 1].vals
  }

  ghost predicate ValidTiles(ts: seq<Tile>, dim: nat) {
    forall i :: 0 <= i < |ts| ==> ValidTile(ts[i], dim)
  }

  /** Folding TileStep over the tiles; only the very first one has its flag set. */
  function Pass(exp: real -> real, init: Row, ts: seq<Tile>, dim: nat): (r: Row)
    requires |init.out| == dim && ValidTiles(ts, dim)
    ensures |r.out| == dim
  {
    if ts == [] then init
    else
      var n := |ts| - 1;
      TileStep(exp, Pass(exp, init, ts[..n], dim), ts[n], n == 0, dim)
  }

  lemma {:induction false} TilesShaped(ts: seq<Tile>, dim: nat)
    requires ValidTiles(ts, dim)
    ensures Shaped(Cells(ts), Vals(ts), dim)
  {
    if ts != [] { TilesShaped(ts[..|ts| - 1], dim); }
  }

  /**
    After any non-empty sequence of KV tiles, sum and output are the exact
    exponential sums relative to the stored base, and every logit is at most base + 8.
   */
  lemma {:induction false} PassExact(exp: real -> real, sink: Sink, lowest: real, garbage: seq<real>, ts: seq<Tile>,
                                     dim: nat)
    requires ExpLaws(exp)
    requires |garbage| == dim && ValidTiles(ts, dim)
    ensures Shaped(Cells(ts), Vals(ts), dim)
    ensures
      var r := Pass(exp, InitRow(sink, lowest, garbage), ts, dim);
      SumExact(exp, r, sink, Cells(ts)) && Bounded(r, sink, Cells(ts)) &&
      (ts != [] ==> Represents(exp, r, sink, Cells(ts), Vals(ts), dim))
  {
    TilesShaped(ts, dim);
    if ts == [] {
      if sink.Sink? { SameBase(exp, sink.logit); }
    } else {
      var n := |ts| - 1;
      PassExact(exp, sink, lowest, garbage, ts[..n], dim);
      TileStepExact(exp, Pass(exp, InitRow(sink, lowest, garbage), ts[..n], dim), ts[n], n == 0, dim,
                    sink, Cells(ts[..n]), Vals(ts[..n]));
    }
  }

  /** The point of the threshold: no weight the pass computes exceeds exp(8). */
  lemma WeightsBounded(exp: real -> real, r: Row, sink: Sink, cells: seq<Cell>, j: nat)
    requires ExpLaws(exp) && Bounded(r, sink, cells) && j < |cells|
    ensures 0.0 <= Weight(exp, cells[j], r.base) <= exp(8.0)
  {
    assert Positive(exp, 8.0);
    if cells[j].Num? {
      assert Positive(exp, cells[j].x - r.base) && Monotone(exp, cells[j].x - r.base, 8.0);
    }
  }

  // ----- merging KV splits -----

  /** One head of one iteration of reduce_splits: fold `b` into the running `a`. */
  function MergeRow(exp: real -> real, a: Row, b: Row): (r: Row)
    requires |a.out| == |b.out|
    ensures |r.out| == |a.out|
  {
    var n := |a.out|;
    if a.base > b.base then
      var f := exp(b.base - a.base);
      Row(a.base, a.sum + f * b.sum, seq(n, d requires 0 <= d < n => a.out[d] + b.out[d] * f))
    else
      var f := exp(a.base - b.base);
      Row(b.base, f * a.sum + b.sum, seq(n, d requires 0 <= d < n => b.out[d] + a.out[d] * f))
  }

  lemma MergeFactor(exp: real -> real, a: Row, b: Row)
    requires ExpLaws(exp) && |a.out| == |b.out|
    ensures
      var r := MergeRow(exp, a, b);
      && r.base == Max(a.base, b.base)
      && r.sum == exp(a.base - r.base) * a.sum + exp(b.base - r.base) * b.sum
      && forall d :: 0 <= d < |a.out| ==>
           r.out[d] == exp(a.base - r.base) * a.out[d] + exp(b.base - r.base) * b.out[d]
  {
    SameBase(exp, a.base);
    SameBase(exp, b.base);
  }

  /** Merging is exact for arbitrary bases; the sink stays counted once. */
  lemma MergeExact(exp: real -> real, a: Row, sink: Sink, ca: seq<Cell>, va: seq<seq<real>>,
                   b: Row, cb: seq<Cell>, vb: seq<seq<real>>, dim: nat)
    requires ExpLaws(exp)
    requires Represents(exp, a, sink, ca, va, dim)
    requires Represents(exp, b, NoSink, cb, vb, dim)
    ensures Represents(exp, MergeRow(exp, a, b), sink, ca + cb, va + vb, dim)
    ensures Bounded(a, sink, ca) && Bounded(b, NoSink, cb) ==> Bounded(MergeRow(exp, a, b), sink, ca + cb)
  {
    hide WSum;
    hide VSum;
    var r := MergeRow(exp, a, b);
    MergeFactor(exp, a, b);
    WSumRebase(exp, cb, b.base, r.base);
    AccumulateSum(exp, a, r, sink, ca, cb);
    forall d | 0 <= d < dim
      ensures r.out[d] == VSum(exp, ca + cb, va + vb, r.base, d)
    {
      VSumRebase(exp, cb, vb, b.base, r.base, d);
      AccumulateOut(exp, a.base, r.base, a.out[d], r.out[d], d, ca, va, cb, vb);
    }
  }

  // ----- the value written to the output -----

  /** final_output multiplies by the reciprocal of the sum. */
  function Normalize(r: Row): seq<real>
    requires r.sum != 0.0
  {
    seq(|r.out|, d requires 0 <= d < |r.out| => (1.0 / r.sum) * r.out[d])
  }

  /** Plain attention: no base, no tiles, no splits. */
  function Attend(exp: real -> real, sink: Sink, cells: seq<Cell>, vals: seq<seq<real>>, d: nat): real
    requires |vals| == |cells|
    requires forall j :: 0 <= j < |vals| ==> d < |vals[j]|
    requires SinkWeight(exp, sink, 0.0) + WSum(exp, cells, 0.0) != 0.0
  {
    VSum(exp, cells, vals, 0.0, d) / (SinkWeight(exp, sink, 0.0) + WSum(exp, cells, 0.0))
  }

  lemma ScaledRatio(k: real, a: real, b: real)
    requires k != 0.0 && b != 0.0
    ensures k * b != 0.0
    ensures (1.0 / (k * b)) * (k * a) == a / b
  {
  }

  ghost predicate SomeMass(sink: Sink, cells: seq<Cell>) {
    sink.Sink? || exists j :: 0 <= j < |cells| && cells[j].Num?
  }

  lemma MassPositive(exp: real -> real, sink: Sink, cells: seq<Cell>, base: real)
    requires ExpLaws(exp) && SomeMass(sink, cells)
    ensures SinkWeight(exp, sink, base) + WSum(exp, cells, base) > 0.0
  {
    WSumNonNegative(exp, cells, base);
    if sink.Sink? { assert Positive(exp, sink.logit - base); }
  }

  /** Normalising any exact row gives plain attention, whatever its base is. */
  lemma NormalizeIsAttend(exp: real -> real, r: Row, sink: Sink, cells: seq<Cell>, vals: seq<seq<real>>, dim: nat)
    requires ExpLaws(exp) && SomeMass(sink, cells)
    requires Represents(exp, r, sink, cells, vals, dim)
    ensures r.sum > 0.0
    ensures SinkWeight(exp, sink, 0.0) + WSum(exp, cells, 0.0) > 0.0
    ensures |Normalize(r)| == dim
    ensures forall d :: 0 <= d < dim ==> Normalize(r)[d] == Attend(exp, sink, cells, vals, d)
  {
    MassPositive(exp, sink, cells, r.base);
    MassPositive(exp, sink, cells, 0.0);
    var k := exp(0.0 - r.base);
    assert Positive(exp, 0.0 - r.base);
    hide WSum; hide VSum; hide ExpLaws; hide SinkWeight;
    var mass := SinkWeight(exp, sink, 0.0) + WSum(exp, cells, 0.0);
    MassRebase(exp, sink, cells, 0.0, r.base);
    forall d | 0 <= d < dim
      ensures Normalize(r)[d] == Attend(exp, sink, cells, vals, d)
    {
      VSumRebase(exp, cells, vals, 0.0, r.base, d);
      NormalizedElement(r, k, mass, VSum(exp, cells, vals, 0.0, d), d);
    }
  }

  lemma NormalizedElement(r: Row, k: real, mass: real, v: real, d: nat)
    requires k > 0.0 && mass > 0.0 && d < |r.out| && r.sum == k * mass && r.out[d] == k * v
    ensures r.sum != 0.0 && Normalize(r)[d] == v / mass
  {
    ScaledRatio(k, v, mass);
  }
}
