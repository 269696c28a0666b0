/**
  How the main loop walks the KV range of a work item for one query row
  (csrc/cpu/cpu_attn_impl.hpp, lines 1491-1723 and apply_mask): which tiles it
  executes, which positions of a tile it masks, and that together they are exactly
  the positions the token may see.
 */
module TileWalk {
  import opened KvRanges
  import opened OnlineSoftmax

  /** Causal mask with an optional left window. */
  predicate Visible(pos: int, window: int, j: int) {
    j <= pos && (window != NO_WINDOW ==> pos - window <= j)
  }

  /** apply_mask, row by row: the columns of tile [start, end) that keep their logit. */
  predicate MaskKeeps(start: int, end: int, pos: int, window: int, j: int) {
    var left := if window != NO_WINDOW then KvRanges.Max(start, pos - window) else start;
    var right := Min(end, KvRanges.Max(start, pos + 0 + 1));
    left <= j < right
  }

  lemma MaskIsVisible(start: int, end: int, pos: int, window: int, j: int)
    requires start <= j < end
    ensures MaskKeeps(start, end, pos, window, j) <==> Visible(pos, window, j)
  {}

  /** One query row: its logit and value at every KV position, its own position, the window. */
  datatype Query = Query(x: int -> real, v: int -> seq<real>, pos: int, window: int)

  function CellAt(q: Query, j: int): Cell { if Visible(q.pos, q.window, j) then Num(q.x(j)) else NegInf }

  function RangeCells(q: Query, a: int, b: int): (s: seq<Cell>)
    requires a <= b
    ensures |s| == b - a
  {
    seq(b - a, i requires 0 <= i < b - a => CellAt(q, a + i))
  }

  function RangeVals(q: Query, a: int, b: int): (s: seq<seq<real>>)
    requires a <= b
    ensures |s| == b - a
  {
    seq(b - a, i requires 0 <= i < b - a => q.v(a + i))
  }

  ghost predicate ValuesShaped(q: Query, dim: nat) { forall j :: |q.v(j)| == dim }

  /** The masked logits and the values of the tile [a, b). */
  function MaskedTile(q: Query, a: int, b: int): Tile
    requires a <= b
  {
    Tile(seq(b - a, i requires 0 <= i < b - a =>
               if MaskKeeps(a, b, q.pos, q.window, a + i) then Num(q.x(a + i)) else NegInf),
         RangeVals(q, a, b))
  }

  lemma MaskedTileIsRange(q: Query, a: int, b: int)
    requires a <= b
    ensures MaskedTile(q, a, b) == Tile(RangeCells(q, a, b), RangeVals(q, a, b))
  {
    forall i | 0 <= i < b - a
      ensures MaskedTile(q, a, b).cells[i] == RangeCells(q, a, b)[i]
    {
      var j := a + i;
      MaskIsVisible(a, b, q.pos, q.window, j);
      assert RangeCells(q, a, b)[i] == CellAt(q, j);
      assert MaskedTile(q, a, b).cells[i] == if MaskKeeps(a, b, q.pos, q.window, j) then Num(q.x(j)) else NegInf;
    }
  }

  // ----- the walk -----

  /** The Q tile and the inner Q tile (max_q_token_num_per_iter) a row belongs to, and the KV tiling. */
  datatype Geometry = Geometry(qStart: int, qEnd: int, qLeft: int, qRight: int, kvTile: nat, align: nat)

  ghost predicate ValidGeometry(g: Geometry, q: Query) {
    && 0 <= g.qStart <= g.qLeft <= q.pos < g.qRight <= g.qEnd
    && g.align > 0 && g.kvTile > 0 && Aligned(g.kvTile, g.align)
    && q.window >= NO_WINDOW
  }

  /** Lines 1624-1665: the KV tiles executed between two rounded positions. */
  function Tiles(g: Geometry, q: Query, from: nat, end: nat): seq<Tile>
    requires ValidGeometry(g, q)
    decreases end - from
  {
    if from >= end then []
    else
      var right := Min(from + g.kvTile, end);
      var (l, r) := (KvLeft(from, g.qLeft, q.window), KvRight(right, g.qRight));
      var rest := Tiles(g, q, from + g.kvTile, end);
      if r <= l then rest
      else [MaskedTile(q, AlignDown(l, g.align), AlignUp(r, g.align))] + rest
  }

  function RoundedStart(g: Geometry, q: Query, kvStart: nat): nat
    requires ValidGeometry(g, q)
  {
    AlignDown(KvLeft(kvStart, g.qStart, q.window), g.align)
  }

  function RoundedEnd(g: Geometry, kvEnd: nat): nat
    requires g.align > 0 && g.qEnd >= 0
  {
    AlignUp(KvRight(kvEnd, g.qEnd), g.align)
  }

  // ----- sums over ranges -----

  lemma RangeConcat(q: Query, a: int, b: int, c: int)
    requires a <= b <= c
    ensures RangeCells(q, a, b) + RangeCells(q, b, c) == RangeCells(q, a, c)
    ensures RangeVals(q, a, b) + RangeVals(q, b, c) == RangeVals(q, a, c)
  {
    var s, t := RangeCells(q, a, b) + RangeCells(q, b, c), RangeCells(q, a, c);
    forall i | 0 <= i < c - a ensures s[i] == t[i] {
      if i >= b - a { assert s[i] == RangeCells(q, b, c)[i - (b - a)] == CellAt(q, b + (i - (b - a))); }
    }
    var s', t' := RangeVals(q, a, b) + RangeVals(q, b, c), RangeVals(q, a, c);
    forall i | 0 <= i < c - a ensures s'[i] == t'[i] {
      if i >= b - a { assert s'[i] == RangeVals(q, b, c)[i - (b - a)] == q.v(b + (i - (b - a))); }
    }
  }

  /** Two sequences of positions weigh the same, whatever the base and the dimension. */
  ghost predicate SameSums(exp: real -> real, a: Tile, b: Tile, dim: nat) {
    && ValidTile(a, dim) && ValidTile(b, dim)
    && (forall base :: WSum(exp, a.cells, base) == WSum(exp, b.cells, base))
    && (forall base, d :: 0 <= d < dim ==> VSum(exp, a.cells, a.vals, base, d) == VSum(exp, b.cells, b.vals, base, d))
  }

  function Range(q: Query, a: int, b: int): Tile
    requires a <= b
  {
    Tile(RangeCells(q, a, b), RangeVals(q, a, b))
  }

  function Join(a: Tile, b: Tile): Tile { Tile(a.cells + b.cells, a.vals + b.vals) }

  lemma JoinSums(exp: real -> real, a: Tile, a': Tile, b: Tile, b': Tile, dim: nat)
    requires SameSums(exp, a, a', dim) && SameSums(exp, b, b', dim)
    ensures SameSums(exp, Join(a, b), Join(a', b'), dim)
  {
    hide WSum; hide VSum;
    forall base ensures WSum(exp, Join(a, b).cells, base) == WSum(exp, Join(a', b').cells, base) {
      WSumConcat(exp, a.cells, b.cells, base);
      WSumConcat(exp, a'.cells, b'.cells, base);
    }
    forall base, d | 0 <= d < dim
      ensures VSum(exp, Join(a, b).cells, Join(a, b).vals, base, d)
              == VSum(exp, Join(a', b').cells, Join(a', b').vals, base, d)
    {
      VSumConcat(exp, a.cells, a.vals, b.cells, b.vals, base, d);
      VSumConcat(exp, a'.cells, a'.vals, b'.cells, b'.vals, base, d);
    }
  }

  lemma {:induction false} HiddenWeighsNothing(exp: real -> real, q: Query, a: int, b: int, base: real, d: nat,
                                               dim: nat)
    requires a <= b && ValuesShaped(q, dim) && d < dim
    requires forall j :: a <= j < b ==> !Visible(q.pos, q.window, j)
    ensures WSum(exp, RangeCells(q, a, b), base) == 0.0
    ensures VSum(exp, RangeCells(q, a, b), RangeVals(q, a, b), base, d) == 0.0
    decreases b - a
  {
    if a < b {
      HiddenWeighsNothing(exp, q, a, b - 1, base, d, dim);
      assert RangeCells(q, a, b)[..b - 1 - a] == RangeCells(q, a, b - 1);
      var j := b - 1;
      assert RangeCells(q, a, b)[b - 1 - a] == CellAt(q, a + (b - 1 - a)) == CellAt(q, j);
      assert RangeVals(q, a, b)[..b - 1 - a] == RangeVals(q, a, b - 1);
    }
  }

  /** Positions the row cannot see may be dropped. */
  lemma HiddenIsEmpty(exp: real -> real, q: Query, a: int, b: int, dim: nat)
    requires a <= b && ValuesShaped(q, dim) && dim > 0
    requires forall j :: a <= j < b ==> !Visible(q.pos, q.window, j)
    ensures SameSums(exp, Tile([], []), Range(q, a, b), dim)
  {
    hide WSum; hide VSum;
    EmptySums(exp);
    forall base ensures WSum(exp, Range(q, a, b).cells, base) == 0.0 {
      HiddenWeighsNothing(exp, q, a, b, base, 0, dim);
    }
    forall base, d | 0 <= d < dim
      ensures VSum(exp, Range(q, a, b).cells, Range(q, a, b).vals, base, d) == 0.0
    {
      HiddenWeighsNothing(exp, q, a, b, base, d, dim);
    }
  }

  lemma EmptySums(exp: real -> real)
    ensures forall base :: WSum(exp, [], base) == 0.0
    ensures forall base, d :: VSum(exp, [], [], base, d) == 0.0
  {}

  lemma SameSumsTransitive(exp: real -> real, a: Tile, b: Tile, c: Tile, dim: nat)
    requires SameSums(exp, a, b, dim) && SameSums(exp, b, c, dim)
    ensures SameSums(exp, a, c, dim)
  {
    hide WSum; hide VSum;
  }

  lemma JoinEmpty(t: Tile)
    ensures Join(Tile([], []), t) == t && Join(t, Tile([], [])) == t
  {
    assert [] + t.cells == t.cells && [] + t.vals == t.vals;
    assert t.cells + [] == t.cells && t.vals + [] == t.vals;
  }

  lemma RangeJoin(q: Query, a: int, b: int, c: int)
    requires a <= b <= c
    ensures Join(Range(q, a, b), Range(q, b, c)) == Range(q, a, c)
  {
    RangeConcat(q, a, b, c);
  }

  lemma RangeValid(exp: real -> real, q: Query, a: int, b: int, dim: nat)
    requires a <= b && ValuesShaped(q, dim)
    ensures SameSums(exp, Range(q, a, b), Range(q, a, b), dim)
  {}

  /** A range may be shrunk to any sub-range that keeps all visible positions. */
  lemma Shrink(exp: real -> real, q: Query, a: int, a': int, b': int, b: int, dim: nat)
    requires a <= a' <= b' <= b && ValuesShaped(q, dim) && dim > 0
    requires forall j :: a <= j < a' || b' <= j < b ==> !Visible(q.pos, q.window, j)
    ensures SameSums(exp, Range(q, a', b'), Range(q, a, b), dim)
  {
    hide WSum; hide VSum; hide RangeCells; hide RangeVals; hide Visible;
    var empty := Tile([], []);
    HiddenIsEmpty(exp, q, a, a', dim);
    HiddenIsEmpty(exp, q, b', b, dim);
    RangeValid(exp, q, a', b', dim);
    JoinSums(exp, empty, Range(q, a, a'), Range(q, a', b'), Range(q, a', b'), dim);
    JoinEmpty(Range(q, a', b'));
    RangeJoin(q, a, a', b');
    JoinSums(exp, Range(q, a', b'), Range(q, a, b'), empty, Range(q, b', b), dim);
    RangeJoin(q, a, b', b);
  }

  // ----- the executed tiles cover the range -----

  function Joined(ts: seq<Tile>): Tile { Tile(Cells(ts), Vals(ts)) }

  lemma {:induction false} JoinedCons(t: Tile, ts: seq<Tile>)
    ensures Joined([t] + ts) == Join(t, Joined(ts))
  {
    if ts == [] {
      assert [t] + ts == [t] && [t][..0] == [];
      JoinEmpty(t);
    } else {
      var n := |ts| - 1;
      assert ([t] + ts)[..|ts|] == [t] + ts[..n];
      JoinedCons(t, ts[..n]);
      var u := ts[n];
      assert (t.cells + Cells(ts[..n])) + u.cells == t.cells + (Cells(ts[..n]) + u.cells);
      assert (t.vals + Vals(ts[..n])) + u.vals == t.vals + (Vals(ts[..n]) + u.vals);
    }
  }

  /** One step of the walk: what is executed of [from, right) weighs as much as all of it. */
  lemma StepCovers(exp: real -> real, g: Geometry, q: Query, from: nat, right: nat, dim: nat)
    requires ValidGeometry(g, q) && ValuesShaped(q, dim) && dim > 0
    requires from < right && Aligned(from, g.align) && Aligned(right, g.align)
    ensures
      var (l, r) := (KvLeft(from, g.qLeft, q.window), KvRight(right, g.qRight));
      if r <= l then SameSums(exp, Tile([], []), Range(q, from, right), dim)
      else
        && from <= AlignDown(l, g.align) <= AlignUp(r, g.align) <= right
        && SameSums(exp, MaskedTile(q, AlignDown(l, g.align), AlignUp(r, g.align)), Range(q, from, right), dim)
  {
    hide Aligned; hide AlignDown; hide AlignUp; hide WSum; hide VSum; hide SameSums; hide RangeCells; hide RangeVals;
    var (l, r) := (KvLeft(from, g.qLeft, q.window), KvRight(right, g.qRight));
    if r <= l {
      HiddenIsEmpty(exp, q, from, right, dim);
    } else {
      AlignWithin(l, from, right, g.align);
      AlignWithin(r, from, right, g.align);
      var a, b := AlignDown(l, g.align), AlignUp(r, g.align);
      MaskedTileIsRange(q, a, b);
      Shrink(exp, q, from, a, b, right, dim);
    }
  }

  lemma {:induction false} WalkCovers(exp: real -> real, g: Geometry, q: Query, from: nat, end: nat, dim: nat)
    requires ValidGeometry(g, q) && ValuesShaped(q, dim) && dim > 0
    requires from <= end && Aligned(from, g.align) && Aligned(end, g.align)
    ensures ValidTiles(Tiles(g, q, from, end), dim)
    ensures SameSums(exp, Joined(Tiles(g, q, from, end)), Range(q, from, end), dim)
    decreases end - from
  {
    hide Aligned; hide AlignDown; hide AlignUp; hide WSum; hide VSum; hide RangeCells; hide RangeVals; hide MaskedTile;
    if from < end {
      var right := Min(from + g.kvTile, end);
      var (l, r) := (KvLeft(from, g.qLeft, q.window), KvRight(right, g.qRight));
      AlignedSum(from, g.kvTile, g.align);
      StepCovers(exp, g, q, from, right, dim);
      var rest := Tiles(g, q, from + g.kvTile, end);
      WalkRest(exp, g, q, from, right, end, dim);
      RangeJoin(q, from, right, end);
      if r <= l {
        JoinSums(exp, Tile([], []), Range(q, from, right), Joined(rest), Range(q, right, end), dim);
        JoinEmpty(Joined(rest));
      } else {
        var t := MaskedTile(q, AlignDown(l, g.align), AlignUp(r, g.align));
        JoinSums(exp, t, Range(q, from, right), Joined(rest), Range(q, right, end), dim);
        JoinedCons(t, rest);
      }
    } else {
      HiddenIsEmpty(exp, q, from, end, dim);
    }
  }

  lemma {:induction false} WalkRest(exp: real -> real, g: Geometry, q: Query, from: nat, right: nat, end: nat, dim: nat)
    requires ValidGeometry(g, q) && ValuesShaped(q, dim) && dim > 0
    requires from < end && Aligned(from, g.align) && Aligned(end, g.align) && right == Min(from + g.kvTile, end)
    ensures ValidTiles(Tiles(g, q, from + g.kvTile, end), dim)
    ensures SameSums(exp, Joined(Tiles(g, q, from + g.kvTile, end)), Range(q, right, end), dim)
    decreases end - from, 0
  {
    hide Aligned; hide AlignDown; hide AlignUp; hide WSum; hide VSum; hide RangeCells; hide RangeVals;
    AlignedSum(from, g.kvTile, g.align);
    if from + g.kvTile <= end {
      WalkCovers(exp, g, q, from + g.kvTile, end, dim);
    } else {
      HiddenIsEmpty(exp, q, end, end, dim);
    }
  }

  // ----- one row of one work item -----

  /** The row state after the walk over a work item's KV range. */
  function ItemRow(exp: real -> real, g: Geometry, q: Query, sink: Sink, kvStart: nat, kvEnd: nat,
                   lowest: real, garbage: seq<real>): (r: Row)
    requires ValidGeometry(g, q) && ValuesShaped(q, |garbage|) && |garbage| > 0
  {
    WalkShaped(g, q, RoundedStart(g, q, kvStart), RoundedEnd(g, kvEnd), |garbage|);
    Pass(exp, InitRow(sink, lowest, garbage), Tiles(g, q, RoundedStart(g, q, kvStart), RoundedEnd(g, kvEnd)), |garbage|)
  }

  lemma {:induction false} WalkShaped(g: Geometry, q: Query, from: nat, end: nat, dim: nat)
    requires ValidGeometry(g, q) && ValuesShaped(q, dim)
    ensures ValidTiles(Tiles(g, q, from, end), dim)
    decreases end - from
  {
    hide AlignDown; hide AlignUp; hide Aligned;
    if from < end { WalkShaped(g, q, from + g.kvTile, end, dim); }
  }

  lemma RepresentsSame(exp: real -> real, r: Row, sink: Sink, a: Tile, b: Tile, dim: nat)
    requires SameSums(exp, a, b, dim) && Represents(exp, r, sink, a.cells, a.vals, dim)
    ensures Represents(exp, r, sink, b.cells, b.vals, dim)
  {
    hide WSum; hide VSum;
  }

  /**
    The row of a work item that is responsible for the aligned range [lo, hi) holds the
    exact sums over that range, provided the token sees something in it; the emitted
    end `kvEnd` may fall short of `hi` only by positions after the token.
   */
  lemma ItemRowExact(exp: real -> real, g: Geometry, q: Query, sink: Sink, lo: nat, hi: nat, kvEnd: nat,
                     lowest: real, garbage: seq<real>, seen: nat)
    requires ExpLaws(exp) && ValidGeometry(g, q) && ValuesShaped(q, |garbage|) && |garbage| > 0
    requires Aligned(lo, g.align) && Aligned(hi, g.align) && kvEnd <= hi
    requires kvEnd < hi ==> q.pos < kvEnd
    requires lo <= seen < kvEnd && Visible(q.pos, q.window, seen)
    ensures Represents(exp, ItemRow(exp, g, q, sink, lo, kvEnd, lowest, garbage), sink,
                       RangeCells(q, lo, hi), RangeVals(q, lo, hi), |garbage|)
  {
    hide Aligned; hide AlignDown; hide AlignUp; hide RangeCells; hide RangeVals; hide Represents; hide SameSums;
    hide WSum; hide VSum;
    var dim := |garbage|;
    var from, end := RoundedStart(g, q, lo), RoundedEnd(g, kvEnd);
    AlignWithin(KvLeft(lo, g.qStart, q.window), lo, hi, g.align);
    AlignWithin(KvRight(kvEnd, g.qEnd), lo, hi, g.align);
    assert lo <= from <= seen < end <= hi;
    WalkCovers(exp, g, q, from, end, dim);
    Shrink(exp, q, lo, from, end, hi, dim);
    var ts := Tiles(g, q, from, end);
    SameSumsTransitive(exp, Joined(ts), Range(q, from, end), Range(q, lo, hi), dim);
    WalkShaped(g, q, from, end, dim);
    PassExact(exp, sink, lowest, garbage, ts, dim);
    SomethingExecuted(exp, q, ts, lo, hi, seen, dim);
    RepresentsSame(exp, Pass(exp, InitRow(sink, lowest, garbage), ts, dim), sink, Joined(ts), Range(q, lo, hi), dim);
  }

  /** If the token sees a position of the range, the walk executes a tile. */
  lemma SomethingExecuted(exp: real -> real, q: Query, ts: seq<Tile>, lo: nat, hi: nat, seen: nat, dim: nat)
    requires ExpLaws(exp) && lo <= seen < hi && Visible(q.pos, q.window, seen)
    requires SameSums(exp, Joined(ts), Range(q, lo, hi), dim)
    ensures ts != []
  {
    var cells := Range(q, lo, hi).cells;
    assert cells[seen - lo] == CellAt(q, lo + (seen - lo)) == CellAt(q, seen);
    WSumNonNegative(exp, cells, 0.0);
    assert WSum(exp, Cells(ts), 0.0) == WSum(exp, cells, 0.0) > 0.0;
  }

  lemma PassAppend(exp: real -> real, init: Row, ts: seq<Tile>, t: Tile, dim: nat)
    requires |init.out| == dim && ValidTiles(ts, dim) && ValidTile(t, dim)
    ensures ValidTiles(ts + [t], dim)
    ensures Pass(exp, init, ts + [t], dim) == TileStep(exp, Pass(exp, init, ts, dim), t, ts == [], dim)
  {
    assert (ts + [t])[..|ts|] == ts;
  }

  lemma TilesStep(g: Geometry, q: Query, from: nat, end: nat)
    requires ValidGeometry(g, q)
    ensures from >= end ==> Tiles(g, q, from, end) == []
    ensures
      var (l, r) := (KvLeft(from, g.qLeft, q.window), KvRight(Min(from + g.kvTile, end), g.qRight));
      var rest := Tiles(g, q, from + g.kvTile, end);
      from < end ==>
        Tiles(g, q, from, end)
        == if r <= l then rest else [MaskedTile(q, AlignDown(l, g.align), AlignUp(r, g.align))] + rest
  {}

  lemma PassOfNone(exp: real -> real, init: Row, dim: nat)
    requires |init.out| == dim
    ensures Pass(exp, init, [], dim) == init
  {}
}
