/**
  The whole CPU attention call: the scheduler's metadata, the parallel region in any
  interleaving, the tiled online softmax and the split reduction together write plain
  causal (windowed) attention for every token and head, except for output elements that
  the mask of a later inner Q tile has overwritten; which these are is known beforehand.
 */
module EndToEnd {
  import opened KvRanges
  import opened OnlineSoftmax
  import opened TileWalk
  import QTileWalk
  import opened Scheduler
  import opened PlanFacts
  import opened SplitProtocol
  import opened WorkPrograms
  import Flatten
  import Powers
  import Scratchpad

  datatype Stat = Stat(base: real, sum: real)

  type Stats = seq<Stat>
  type Accs = seq<seq<real>>
  type Outs = seq<seq<Cell>>
  type RowPart = Part<Stats, Accs>

  /**
    The read-only inputs.  `logit(req, queryHead, tok, pos)` is the scaled (softcapped,
    biased) Q.K^T entry, `value(req, head, pos)` the V row that kv head index `head`
    reads, `kvTile` the KV tile size the cache model gives for a number of Q tokens.
    `lowest` and `garbage` are what a row's buffers hold before its first tile.
   */
  datatype Model = Model(
    exp: real -> real,
    logit: (nat, nat, nat, int) -> real,
    value: (nat, nat, int) -> seq<real>,
    sink: nat -> Sink,
    rows: nat, dim: nat,
    kvTile: nat -> nat,
    lowest: real,
    garbage: (nat, nat, nat) -> seq<real>)

  /** An iteration has at most 32 rows; KV alignment and head dimension are never below its rows. */
  ghost predicate ValidModel(M: Model, c: Config)
    requires ValidConfig(c)
  {
    && ExpLaws(M.exp) && M.dim > 0 && M.rows > 0
    && c.maxTok <= c.align && c.maxTok <= M.dim
    && (forall r, h, j :: |M.value(r, h, j)| == M.dim)
    && (forall h, tok, i :: |M.garbage(h, tok, i)| == M.dim)
    && (forall n :: M.kvTile(n) > 0 && Aligned(M.kvTile(n), c.align))
  }

  ghost function QueryOf(M: Model, c: Config, h: nat, r: nat, tok: nat, row: nat): Query
    requires r < |c.reqs|
  {
    Query(j => M.logit(r, h * M.rows + row, tok, j), j => M.value(r, h, j), QPos(c, r, tok), c.window)
  }

  // ----- the kernels' results for one work item -----

  ghost predicate InItem(c: Config, it: Item, tok: nat) {
    && it.req < |c.reqs| && it.qStart <= tok < it.qStart + it.qNum <= c.reqs[it.req].qNum
    && 0 <= it.kvStart && 0 <= it.kvEnd
  }

  /** Lines 1491-1503 and 1630-1643: the Q tile and inner Q tile of a token of a work item. */
  ghost function GeometryOf(M: Model, c: Config, it: Item, tok: nat): Geometry
    requires ValidConfig(c) && InItem(c, it, tok)
  {
    var off := AlignDown(tok - it.qStart, c.tileTok);
    var num := Min(c.tileTok, it.qNum - off);
    var start := QPos(c, it.req, it.qStart) + off;
    var inner := AlignDown(tok - it.qStart - off, c.maxTok);
    Geometry(start, start + num, start + inner, start + inner + Min(c.maxTok, num - inner), M.kvTile(num), c.align)
  }

  lemma GeometryValid(M: Model, c: Config, it: Item, tok: nat, h: nat, row: nat)
    requires ValidConfig(c) && ValidModel(M, c) && InItem(c, it, tok)
    ensures ValidGeometry(GeometryOf(M, c, it, tok), QueryOf(M, c, h, it.req, tok, row))
    ensures ValuesShaped(QueryOf(M, c, h, it.req, tok, row), M.dim)
  {
    hide Aligned; hide AlignDown;
  }

  // ----- elements lost to other rows' masks -----

  /** The Q tile of a token, with the KV range it walks; its rows per token are the heads of a kv head. */
  ghost function QTileOf(M: Model, c: Config, it: Item, tok: nat): (t: QTileWalk.QTile)
    requires ValidConfig(c) && ValidModel(M, c) && InItem(c, it, tok)
    ensures QTileWalk.ValidQTile(t)
  {
    var g := GeometryOf(M, c, it, tok);
    QTileWalk.QTile(g.qStart, g.qEnd - g.qStart, c.maxTok, M.rows, g.kvTile, c.align, c.window,
                    AlignDown(KvLeft(it.kvStart, g.qStart, c.window), c.align),
                    AlignUp(KvRight(it.kvEnd, g.qEnd), c.align))
  }

  ghost predicate FirstOfTile(c: Config, it: Item, tok: nat)
    requires ValidConfig(c) && it.qStart <= tok
  {
    Aligned(tok - it.qStart, c.tileTok)
  }

  /** How far into the Q tile the inner tile of the token starts. */
  ghost function InnerStart(M: Model, c: Config, it: Item, tok: nat): (o: nat)
    requires ValidConfig(c) && ValidModel(M, c) && InItem(c, it, tok)
    ensures Aligned(o, c.maxTok)
  {
    AlignDown(tok - it.qStart - AlignDown(tok - it.qStart, c.tileTok), c.maxTok)
  }

  /** Output elements of the token's first row that the walk loses. */
  ghost function RowLoss(M: Model, c: Config, it: Item, tok: nat): nat
    requires ValidConfig(c) && ValidModel(M, c) && InItem(c, it, tok)
  {
    QTileWalk.Lost(QTileOf(M, c, it, tok), InnerStart(M, c, it, tok), FirstOfTile(c, it, tok))
  }

  /** The same, without walking: what a caller can compute from positions, window and tile sizes. */
  ghost function ItemLoss(M: Model, c: Config, it: Item, tok: nat): nat
    requires ValidConfig(c) && ValidModel(M, c) && InItem(c, it, tok)
  {
    if FirstOfTile(c, it, tok) then QTileWalk.Damage(QTileOf(M, c, it, tok), c.maxTok) else 0
  }

  /** RowOf and RowLoss are what the two loops compute for the rows of a token (QTileWalk.AttendRange). */
  lemma SameWalk(M: Model, c: Config, it: Item, tok: nat, h: nat, row: nat)
    requires ValidConfig(c) && ValidModel(M, c) && InItem(c, it, tok)
    ensures
      var t, g, q := QTileOf(M, c, it, tok), GeometryOf(M, c, it, tok), QueryOf(M, c, h, it.req, tok, row);
      && g == QTileWalk.InnerGeometry(t, InnerStart(M, c, it, tok)) && ValidGeometry(g, q)
      && t.from == RoundedStart(g, q, it.kvStart) && t.end == RoundedEnd(g, it.kvEnd)
      && QTileWalk.OwnQuery(t, InnerStart(M, c, it, tok), q)
      && (FirstOfTile(c, it, tok) ==> InnerStart(M, c, it, tok) == 0)
  {
    hide Aligned; hide AlignUp;
    GeometryValid(M, c, it, tok, h, row);
    if FirstOfTile(c, it, tok) { AlignedIsFixed(tok - it.qStart, c.tileTok); }
  }

  lemma MultipleBelow(x: nat, a: nat, k: nat)
    requires a > 0 && k * a <= x < k * a + a
    ensures AlignDown(x, a) == k * a && (Aligned(x, a) <==> x == k * a)
  {
    Powers.DivUnique(x, a, k, x - k * a);
  }

  /** Tokens of Q tile `k` of a work item: fewer than a full tile in the last one. */
  function TileTokens(c: Config, it: Item, k: nat): int { Min(c.tileTok, it.qNum - k * c.tileTok) }

  /** Lines 1491-1540: Q tile `k` of a work item by its offset alone, given its KV tile. */
  function QTileAt(c: Config, it: Item, rows: nat, kvTile: nat, k: nat): QTileWalk.QTile
    requires ValidConfig(c) && InItem(c, it, it.qStart) && k * c.tileTok < it.qNum
  {
    var num := TileTokens(c, it, k);
    var start := QPos(c, it.req, it.qStart + k * c.tileTok);
    QTileWalk.QTile(start, num, c.maxTok, rows, kvTile, c.align, c.window,
                    AlignDown(KvLeft(it.kvStart, start, c.window), c.align),
                    AlignUp(KvRight(it.kvEnd, start + num), c.align))
  }

  /** The Q tile of a token is the one whose offsets it lies between, and so is its inner Q tile. */
  lemma TokenTile(M: Model, c: Config, it: Item, tok: nat, k: nat, j: nat)
    requires ValidConfig(c) && ValidModel(M, c) && InItem(c, it, tok)
    requires k * c.tileTok <= tok - it.qStart < k * c.tileTok + c.tileTok
    requires j * c.maxTok <= tok - it.qStart - k * c.tileTok < j * c.maxTok + c.maxTok
    ensures QTileOf(M, c, it, tok) == QTileAt(c, it, M.rows, M.kvTile(TileTokens(c, it, k)), k)
    ensures InnerStart(M, c, it, tok) == j * c.maxTok
    ensures FirstOfTile(c, it, tok) <==> tok == it.qStart + k * c.tileTok
  {
    hide Aligned; hide AlignUp; hide AlignDown; hide ValidModel;
    MultipleBelow(tok - it.qStart, c.tileTok, k);
    MultipleBelow(tok - it.qStart - k * c.tileTok, c.maxTok, j);
  }

  lemma AlignedIsFixed(x: nat, a: nat)
    requires a > 0 && Aligned(x, a)
    ensures AlignDown(x, a) == x && AlignDown(0, a) == 0
  {
    AlignedQuotient(x, a);
  }

  /** An unsplit work item loses exactly what ItemLoss says. */
  lemma WholeLoss(M: Model, c: Config, it: Item, tok: nat)
    requires ValidConfig(c) && ValidModel(M, c) && InItem(c, it, tok)
    requires it.kvStart == 0 && it.kvEnd == c.reqs[it.req].seqLen
    ensures RowLoss(M, c, it, tok) == ItemLoss(M, c, it, tok)
  {
    hide Aligned; hide AlignDown; hide AlignUp; hide QTileWalk.Lost; hide QTileWalk.Damage;
    var t := QTileOf(M, c, it, tok);
    SameWalk(M, c, it, tok, 0, 0);
    if FirstOfTile(c, it, tok) {
      QTileWalk.LostIs(t);
    } else {
      QTileWalk.OthersLoseNothing(t, InnerStart(M, c, it, tok));
    }
  }

  /** A work item with one token, so every split, loses nothing. */
  lemma OneTokenLosesNothing(M: Model, c: Config, it: Item)
    requires ValidConfig(c) && ValidModel(M, c) && InItem(c, it, it.qStart) && it.qNum == 1
    ensures RowLoss(M, c, it, it.qStart) == 0 == ItemLoss(M, c, it, it.qStart)
  {
    hide Aligned; hide QTileWalk.Walk;
    AlignedMultiple(0, c.tileTok);
    var t := QTileOf(M, c, it, it.qStart);
    SameWalk(M, c, it, it.qStart, 0, 0);
    assert t.num == 1;
    QTileWalk.OneIteration(t, t.from, QTileWalk.Loss(0, true));
  }

  /** Nothing is lost without a window, or where the KV tile is wider than the alignment. */
  lemma NothingLost(M: Model, c: Config, it: Item, tok: nat)
    requires ValidConfig(c) && ValidModel(M, c) && InItem(c, it, tok)
    requires c.window == NO_WINDOW || GeometryOf(M, c, it, tok).kvTile != c.align
    ensures ItemLoss(M, c, it, tok) == 0
  {
    QTileWalk.NoDamage(QTileOf(M, c, it, tok), c.maxTok);
  }

  // ----- the rows -----

  /** Only the first KV split accounts for the sink. */
  ghost function SinkOf(M: Model, h: nat, it: Item, row: nat): Sink {
    if it.localId == 0 then M.sink(h * M.rows + row) else NoSink
  }

  ghost function RowOf(M: Model, c: Config, h: nat, it: Item, tok: nat, row: nat): (r: Row)
    requires ValidConfig(c) && ValidModel(M, c) && InItem(c, it, tok)
  {
    GeometryValid(M, c, it, tok, h, row);
    ItemRow(M.exp, GeometryOf(M, c, it, tok), QueryOf(M, c, h, it.req, tok, row), SinkOf(M, h, it, row),
            it.kvStart, it.kvEnd, M.lowest, M.garbage(h, tok, row))
  }

  ghost function PartOf(M: Model, c: Config, h: nat, it: Item, tok: nat): (p: RowPart)
    requires ValidConfig(c) && ValidModel(M, c) && InItem(c, it, tok)
    ensures |p.stat| == |p.acc| == M.rows
  {
    Part(seq(M.rows, i requires 0 <= i < M.rows =>
           Stat(RowOf(M, c, h, it, tok, i).base, RowOf(M, c, h, it, tok, i).sum)),
         seq(M.rows, i requires 0 <= i < M.rows => RowOf(M, c, h, it, tok, i).out))
  }

  ghost function RowIn(p: RowPart, i: nat): Row
    requires i < |p.stat| && i < |p.acc|
  {
    Row(p.stat[i].base, p.stat[i].sum, p.acc[i])
  }

  ghost predicate Mergeable(a: RowPart, b: RowPart) {
    && |a.stat| == |a.acc| == |b.stat| == |b.acc|
    && forall i :: 0 <= i < |a.acc| ==> |a.acc[i]| == |b.acc[i]|
  }

  /** reduce_splits works head by head. */
  ghost function MergeParts(exp: real -> real, a: RowPart, b: RowPart): RowPart {
    if !Mergeable(a, b) then a
    else
      var n := |a.stat|;
      Part(seq(n, i requires 0 <= i < n =>
             var r := MergeRow(exp, RowIn(a, i), RowIn(b, i)); Stat(r.base, r.sum)),
           seq(n, i requires 0 <= i < n => MergeRow(exp, RowIn(a, i), RowIn(b, i)).out))
  }

  /** final_output; the first `loss` elements of the first row are minus infinity. */
  ghost function FinalPart(p: RowPart, loss: nat): (o: Outs)
    ensures |o| == Min(|p.stat|, |p.acc|)
  {
    seq(Min(|p.stat|, |p.acc|), i requires 0 <= i < |p.stat| && i < |p.acc| =>
      Shown(if RowIn(p, i).sum == 0.0 then p.acc[i] else Normalize(RowIn(p, i)), if i == 0 then loss else 0))
  }

  ghost function ValuesOf(M: Model, c: Config): Values<Stats, Accs, Outs>
    requires ValidConfig(c) && ValidModel(M, c)
  {
    Values((h, it: Item, tok) =>
             if InItem(c, it, tok) then FinalPart(PartOf(M, c, h, it, tok), RowLoss(M, c, it, tok)) else [],
           (h, it: Item) => if InItem(c, it, it.qStart) then PartOf(M, c, h, it, it.qStart) else Part([], []),
           (a, b) => MergeParts(M.exp, a, b),
           p => FinalPart(p, 0),
           [])
  }

  // ----- plain attention -----

  ghost function FirstSeen(c: Config, r: nat, tok: nat): (p: nat)
    requires ValidConfig(c) && TileAt(c, r, tok)
    ensures p <= QPos(c, r, tok)
  {
    KvLeft(0, QPos(c, r, tok), c.window)
  }

  /** The positions a token attends to: its window up to and including itself. */
  ghost function Seen(M: Model, c: Config, h: nat, r: nat, tok: nat, row: nat): Tile
    requires ValidConfig(c) && TileAt(c, r, tok)
  {
    Range(QueryOf(M, c, h, r, tok, row), FirstSeen(c, r, tok), QPos(c, r, tok) + 1)
  }

  lemma SeenMass(M: Model, c: Config, h: nat, r: nat, tok: nat, row: nat)
    requires ValidConfig(c) && ValidModel(M, c) && TileAt(c, r, tok)
    ensures ValidTile(Seen(M, c, h, r, tok, row), M.dim)
    ensures SomeMass(M.sink(h * M.rows + row), Seen(M, c, h, r, tok, row).cells)
    ensures SinkWeight(M.exp, M.sink(h * M.rows + row), 0.0) + WSum(M.exp, Seen(M, c, h, r, tok, row).cells, 0.0) > 0.0
  {
    hide WSum;
    var q, a, b := QueryOf(M, c, h, r, tok, row), FirstSeen(c, r, tok), QPos(c, r, tok);
    var cells := Seen(M, c, h, r, tok, row).cells;
    assert cells[b - a] == CellAt(q, a + (b - a)) == CellAt(q, b);
    assert cells[b - a].Num?;
    MassPositive(M.exp, M.sink(h * M.rows + row), cells, 0.0);
  }

  /** exp-weighted mean of the values over the seen positions, the sink counted once. */
  ghost function Reference(M: Model, c: Config, h: nat, r: nat, tok: nat, row: nat, d: nat): real
    requires ValidConfig(c) && ValidModel(M, c) && TileAt(c, r, tok) && d < M.dim
  {
    SeenMass(M, c, h, r, tok, row);
    var s := Seen(M, c, h, r, tok, row);
    Attend(M.exp, M.sink(h * M.rows + row), s.cells, s.vals, d)
  }

  /** The output rows of one token and kv head are the reference. */
  ghost predicate IsReference(M: Model, c: Config, h: nat, r: nat, tok: nat, o: Outs)
    requires ValidConfig(c) && ValidModel(M, c) && TileAt(c, r, tok)
  {
    |o| == M.rows && forall row :: 0 <= row < M.rows ==>
      |o[row]| == M.dim && forall d :: 0 <= d < M.dim ==> o[row][d] == Num(Reference(M, c, h, r, tok, row, d))
  }

  /** The same, but for minus infinity in the first `loss` elements of the first row. */
  ghost predicate IsOutput(M: Model, c: Config, h: nat, r: nat, tok: nat, loss: nat, o: Outs)
    requires ValidConfig(c) && ValidModel(M, c) && TileAt(c, r, tok)
  {
    |o| == M.rows && forall row :: 0 <= row < M.rows ==>
      |o[row]| == M.dim && forall d :: 0 <= d < M.dim ==>
        o[row][d] == if row == 0 && d < loss then NegInf else Num(Reference(M, c, h, r, tok, row, d))
  }

  /** So an output is the reference exactly if nothing is lost. */
  lemma ReferenceIff(M: Model, c: Config, h: nat, r: nat, tok: nat, loss: nat, o: Outs)
    requires ValidConfig(c) && ValidModel(M, c) && TileAt(c, r, tok) && IsOutput(M, c, h, r, tok, loss, o)
    ensures IsReference(M, c, h, r, tok, o) <==> loss == 0
  {
    hide Reference;
    if loss > 0 { assert o[0][0] == NegInf; }
  }

  // ----- rows represent ranges -----

  /** Every row of `p` holds the exact sums over [lo, hi), sink included. */
  ghost predicate PartExact(M: Model, c: Config, h: nat, r: nat, tok: nat, p: RowPart, sinkIn: bool, lo: int, hi: int)
    requires r < |c.reqs| && lo <= hi
  {
    && |p.stat| == |p.acc| == M.rows
    && forall row :: 0 <= row < M.rows ==>
         RowExact(M, c, h, r, tok, RowIn(p, row), row, sinkIn, lo, hi)
  }

  ghost predicate RowExact(M: Model, c: Config, h: nat, r: nat, tok: nat, w: Row, row: nat, sinkIn: bool, lo: int,
                           hi: int)
    requires r < |c.reqs| && lo <= hi
  {
    var t := Range(QueryOf(M, c, h, r, tok, row), lo, hi);
    Represents(M.exp, w, if sinkIn then M.sink(h * M.rows + row) else NoSink, t.cells, t.vals, M.dim)
  }

  /** A work item whose KV range stands for the aligned [lo, hi) computes that range exactly. */
  lemma ItemExact(M: Model, c: Config, h: nat, it: Item, tok: nat, lo: nat, hi: nat, seen: nat)
    requires ValidConfig(c) && ValidModel(M, c) && InItem(c, it, tok)
    requires Aligned(lo, c.align) && Aligned(hi, c.align) && it.kvStart == lo && it.kvEnd <= hi
    requires it.kvEnd < hi ==> QPos(c, it.req, tok) < it.kvEnd
    requires lo <= seen < it.kvEnd && Visible(QPos(c, it.req, tok), c.window, seen)
    ensures PartExact(M, c, h, it.req, tok, PartOf(M, c, h, it, tok), it.localId == 0, lo, hi)
  {
    hide Represents; hide Aligned; hide RangeCells; hide RangeVals; hide GeometryOf; hide ItemRow;
    forall row | 0 <= row < M.rows
      ensures RowExact(M, c, h, it.req, tok, RowIn(PartOf(M, c, h, it, tok), row), row, it.localId == 0, lo, hi)
    {
      GeometryValid(M, c, it, tok, h, row);
      assert GeometryOf(M, c, it, tok).align == c.align by { GeometryAlign(M, c, it, tok); }
      ItemRowExact(M.exp, GeometryOf(M, c, it, tok), QueryOf(M, c, h, it.req, tok, row), SinkOf(M, h, it, row),
                   lo, hi, it.kvEnd, M.lowest, M.garbage(h, tok, row), seen);
    }
  }

  lemma GeometryAlign(M: Model, c: Config, it: Item, tok: nat)
    requires ValidConfig(c) && InItem(c, it, tok)
    ensures GeometryOf(M, c, it, tok).align == c.align
  {}

  /** Normalising rows that are exact on a range around the seen positions gives the reference. */
  lemma FinalIsOutput(M: Model, c: Config, h: nat, r: nat, tok: nat, p: RowPart, loss: nat, lo: nat, hi: nat)
    requires ValidConfig(c) && ValidModel(M, c) && TileAt(c, r, tok)
    requires lo <= FirstSeen(c, r, tok) && QPos(c, r, tok) < hi
    requires PartExact(M, c, h, r, tok, p, true, lo, hi)
    ensures IsOutput(M, c, h, r, tok, loss, FinalPart(p, loss))
  {
    hide Represents; hide RangeCells; hide RangeVals; hide WSum; hide VSum; hide Attend; hide Normalize;
    hide Reference; hide Shown; hide ValidModel;
    var o := FinalPart(p, loss);
    forall row | 0 <= row < M.rows
      ensures |o[row]| == M.dim
      ensures forall d :: 0 <= d < M.dim ==>
                o[row][d] == if row == 0 && d < loss then NegInf else Num(Reference(M, c, h, r, tok, row, d))
    {
      assert RowExact(M, c, h, r, tok, RowIn(p, row), row, true, lo, hi);
      RowIsReference(M, c, h, r, tok, RowIn(p, row), row, lo, hi);
      ShownElements(Normalize(RowIn(p, row)), if row == 0 then loss else 0);
    }
  }

  lemma ShownElements(out: seq<real>, lost: nat)
    ensures forall d :: 0 <= d < |out| ==> Shown(out, lost)[d] == if d < lost then NegInf else Num(out[d])
  {}

  lemma RowIsReference(M: Model, c: Config, h: nat, r: nat, tok: nat, w: Row, row: nat, lo: nat, hi: nat)
    requires ValidConfig(c) && ValidModel(M, c) && TileAt(c, r, tok)
    requires lo <= FirstSeen(c, r, tok) && QPos(c, r, tok) < hi
    requires RowExact(M, c, h, r, tok, w, row, true, lo, hi)
    ensures w.sum != 0.0 && |Normalize(w)| == M.dim
    ensures forall d :: 0 <= d < M.dim ==> Normalize(w)[d] == Reference(M, c, h, r, tok, row, d)
  {
    hide RangeCells; hide RangeVals; hide WSum; hide VSum; hide Normalize; hide SumExact; hide OutExact;
    var q, sink := QueryOf(M, c, h, r, tok, row), M.sink(h * M.rows + row);
    var s, t := Seen(M, c, h, r, tok, row), Range(q, lo, hi);
    SeenMass(M, c, h, r, tok, row);
    Shrink(M.exp, q, lo, FirstSeen(c, r, tok), QPos(c, r, tok) + 1, hi, M.dim);
    RepresentsSame(M.exp, w, sink, t, s, M.dim);
    NormalizeIsAttend(M.exp, w, sink, s.cells, s.vals, M.dim);
  }

  // ----- units compute the reference -----

  lemma WholeOutput(M: Model, c: Config, h: nat, u: Unit, tok: nat)
    requires ValidConfig(c) && ValidModel(M, c) && u.Whole? && ValidUnit(c, u) && Covers(u, u.req, tok)
    ensures
      var it := UnitItems(u, 0)[0];
      && InItem(c, it, tok)
      && IsOutput(M, c, h, u.req, tok, ItemLoss(M, c, it, tok),
                  FinalPart(PartOf(M, c, h, it, tok), RowLoss(M, c, it, tok)))
  {
    hide Aligned; hide AlignUp; hide PartExact; hide IsOutput; hide PartOf; hide FinalPart; hide RowLoss; hide ItemLoss;
    var it := UnitItems(u, 0)[0];
    var hi := AlignUp(u.seqLen, c.align);
    AlignedMultiple(0, c.align);
    ItemExact(M, c, h, it, tok, 0, hi, QPos(c, u.req, tok));
    WholeLoss(M, c, it, tok);
    FinalIsOutput(M, c, h, u.req, tok, PartOf(M, c, h, it, tok), RowLoss(M, c, it, tok), 0, hi);
  }

  /** One past the aligned range split `j` stands for. */
  ghost function SplitEnd(u: Unit, j: nat): int
    requires u.Split? && j < |u.marks|
  {
    if j + 1 == |u.marks| then u.right else u.marks[j + 1]
  }

  /** Every split of a group sees at least one position its token may attend to. */
  lemma SplitSees(c: Config, u: Unit, base: nat, j: nat) returns (seen: nat)
    requires ValidConfig(c) && u.Split? && ValidUnit(c, u) && u.qNum == 1 && j < |u.marks|
    ensures
      var it := SplitItem(u, base, j);
      && 0 <= it.kvStart <= seen < it.kvEnd <= SplitEnd(u, j)
      && Aligned(it.kvStart, c.align) && Aligned(SplitEnd(u, j), c.align)
      && Visible(QPos(c, u.req, u.qStart), c.window, seen)
      && (it.kvEnd < SplitEnd(u, j) ==> QPos(c, u.req, u.qStart) < it.kvEnd)
  {
    hide Aligned; hide AlignDown; hide AlignUp;
    var pos, left := QPos(c, u.req, u.qStart), TileLeft(c, u.req, u.qStart);
    var n, vs := |u.marks|, FirstSeen(c, u.req, u.qStart);
    assert left <= vs < left + c.align by { LeftBound(c, u.req, u.qStart); }
    assert c.align <= c.minSplit by { AlignedMultiple(0, c.align); AlignedGap(0, c.minSplit, c.align); }
    if j > 0 { MarksIncrease(c, u.marks, left, u.right, 0, j); }
    if j + 1 < n { MarksIncrease(c, u.marks, left, u.right, j, n - 1); }
    AlignedGap(u.marks[n - 1], u.right, c.align);
    seen := if j == 0 then vs else u.marks[j];
    if j == 0 { MarksIncrease(c, u.marks, left, u.right, 0, 1); }
    if j + 1 < n - 1 { MarksIncrease(c, u.marks, left, u.right, j + 1, n - 1); }
  }

  lemma LeftBound(c: Config, r: nat, tok: nat)
    requires ValidConfig(c) && TileAt(c, r, tok)
    ensures TileLeft(c, r, tok) <= FirstSeen(c, r, tok) < TileLeft(c, r, tok) + c.align
  {}

  lemma SplitPartExact(M: Model, c: Config, h: nat, u: Unit, base: nat, j: nat)
    requires ValidConfig(c) && ValidModel(M, c) && u.Split? && ValidUnit(c, u) && u.qNum == 1 && j < |u.marks|
    ensures InItem(c, SplitItem(u, base, j), u.qStart) && u.marks[j] <= SplitEnd(u, j)
    ensures PartExact(M, c, h, u.req, u.qStart, PartOf(M, c, h, SplitItem(u, base, j), u.qStart),
                      j == 0, u.marks[j], SplitEnd(u, j))
  {
    hide Aligned; hide PartExact; hide PartOf;
    var seen := SplitSees(c, u, base, j);
    ItemExact(M, c, h, SplitItem(u, base, j), u.qStart, u.marks[j], SplitEnd(u, j), seen);
  }

  /** Merging exact parts of adjacent ranges is exact on their union. */
  lemma MergePartsExact(M: Model, c: Config, h: nat, r: nat, tok: nat, a: RowPart, b: RowPart, lo: int, mid: int,
                        hi: int)
    requires ValidConfig(c) && ValidModel(M, c) && r < |c.reqs| && lo <= mid <= hi
    requires PartExact(M, c, h, r, tok, a, true, lo, mid) && PartExact(M, c, h, r, tok, b, false, mid, hi)
    ensures PartExact(M, c, h, r, tok, MergeParts(M.exp, a, b), true, lo, hi)
  {
    hide RangeCells; hide RangeVals; hide SumExact; hide MergeRow;
    forall row | 0 <= row < M.rows ensures |a.acc[row]| == |b.acc[row]| {
      assert RowExact(M, c, h, r, tok, RowIn(a, row), row, true, lo, mid);
      assert RowExact(M, c, h, r, tok, RowIn(b, row), row, false, mid, hi);
    }
    forall row | 0 <= row < M.rows
      ensures RowExact(M, c, h, r, tok, RowIn(MergeParts(M.exp, a, b), row), row, true, lo, hi)
    {
      var q, x, y := QueryOf(M, c, h, r, tok, row), RowIn(a, row), RowIn(b, row);
      assert RowExact(M, c, h, r, tok, x, row, true, lo, mid);
      assert RowExact(M, c, h, r, tok, y, row, false, mid, hi);
      MergeExact(M.exp, x, M.sink(h * M.rows + row), RangeCells(q, lo, mid), RangeVals(q, lo, mid),
                 y, RangeCells(q, mid, hi), RangeVals(q, mid, hi), M.dim);
      RangeConcat(q, lo, mid, hi);
      assert RowIn(MergeParts(M.exp, a, b), row) == MergeRow(M.exp, x, y);
    }
  }

  /** Folding the first `j` splits of a group. */
  ghost function FoldSplits(M: Model, c: Config, h: nat, u: Unit, base: nat, j: nat): RowPart
    requires ValidConfig(c) && ValidModel(M, c) && u.Split? && ValidUnit(c, u) && u.qNum == 1 && 1 <= j <= |u.marks|
  {
    SplitPartExact(M, c, h, u, base, j - 1);
    var last := PartOf(M, c, h, SplitItem(u, base, j - 1), u.qStart);
    if j == 1 then last else MergeParts(M.exp, FoldSplits(M, c, h, u, base, j - 1), last)
  }

  lemma {:induction false} FoldSplitsExact(M: Model, c: Config, h: nat, u: Unit, base: nat, j: nat)
    requires ValidConfig(c) && ValidModel(M, c) && u.Split? && ValidUnit(c, u) && u.qNum == 1 && 1 <= j <= |u.marks|
    ensures u.marks[0] <= SplitEnd(u, j - 1)
    ensures PartExact(M, c, h, u.req, u.qStart, FoldSplits(M, c, h, u, base, j), true, u.marks[0], SplitEnd(u, j - 1))
  {
    hide PartExact; hide PartOf; hide MergeParts; hide Aligned;
    SplitPartExact(M, c, h, u, base, j - 1);
    if j > 1 {
      FoldSplitsExact(M, c, h, u, base, j - 1);
      MergePartsExact(M, c, h, u.req, u.qStart, FoldSplits(M, c, h, u, base, j - 1),
                      PartOf(M, c, h, SplitItem(u, base, j - 1), u.qStart),
                      u.marks[0], u.marks[j - 1], SplitEnd(u, j - 1));
    }
  }

  lemma SplitReference(M: Model, c: Config, h: nat, u: Unit, base: nat)
    requires ValidConfig(c) && ValidModel(M, c) && u.Split? && ValidUnit(c, u) && u.qNum == 1
    ensures IsOutput(M, c, h, u.req, u.qStart, 0, FinalPart(FoldSplits(M, c, h, u, base, |u.marks|), 0))
  {
    hide PartExact; hide FoldSplits; hide FinalPart; hide IsOutput; hide Aligned;
    FoldSplitsExact(M, c, h, u, base, |u.marks|);
    LeftBound(c, u.req, u.qStart);
    FinalIsOutput(M, c, h, u.req, u.qStart, FoldSplits(M, c, h, u, base, |u.marks|), 0, u.marks[0], u.right);
  }

  // ----- what the protocol is expected to write -----

  ghost predicate Setting(M: Model, c: Config, m: Metadata, us: seq<Unit>)
  {
    ValidConfig(c) && ValidModel(M, c) && Implements(c, m, us) && c.threshold <= 1
  }

  ghost function Region(M: Model, c: Config, m: Metadata, us: seq<Unit>, heads: nat): Params<Stats, Accs, Outs>
    requires Setting(M, c, m, us)
  {
    ParamsOf(ValuesOf(M, c), m, c.threads, heads)
  }

  ghost function Certificate(M: Model, c: Config, m: Metadata, us: seq<Unit>, heads: nat): (cert: Cert)
    requires Setting(M, c, m, us)
    ensures WellFormed(Region(M, c, m, us, heads), cert) && cert.home.Keys == AllKeys(c, heads)
  {
    ScheduleIsWellFormed(c, ValuesOf(M, c), m, us, heads);
    CertOf(Region(M, c, m, us, heads), AllKeys(c, heads))
  }

  /** The value published for split `j` of unit `u`. */
  lemma PublishedPart(M: Model, c: Config, m: Metadata, us: seq<Unit>, heads: nat, h: nat, u: nat, j: nat)
    requires Setting(M, c, m, us) && h < heads
    requires u < |us| && us[u].Split? && j < |us[u].marks|
    ensures
      var base := SplitCount(us[..u]);
      var slot, cert := Slot(h, base + j), Certificate(M, c, m, us, heads);
      && slot in cert.pub
      && Val(Region(M, c, m, us, heads), cert, slot) == ValuesOf(M, c).part(h, SplitItem(us[u], base, j))
  {
    hide Tiled; hide Render; hide Reductions; hide ParamsOf; hide OpAt; hide ValuesOf; hide AttnOpOk; hide GroupOk;
    hide Certificate; hide ReduceProg;
    var v := ValuesOf(M, c);
    var p, cert, base := Region(M, c, m, us, heads), Certificate(M, c, m, us, heads), SplitCount(us[..u]);
    var slot := Slot(h, base + j);
    ItemAt(us, u, j);
    SplitIdBelow(us, ItemIndex(us, u, j));
    ParamsShape(v, m, c.threads, heads);
    assert SlotInRange(p, slot);
    var (t, i) := cert.pub[slot];
    var h', g, x, off := FindOp(v, m, c.threads, heads, t, i);
    ItemOpShape(v, h', m.items[x], off);
    SplitItemUnique(us, x, ItemIndex(us, u, j));
  }

  lemma {:induction false} FoldIsFoldSplits(M: Model, c: Config, m: Metadata, us: seq<Unit>, heads: nat, h: nat,
                                            u: nat, j: nat)
    requires Setting(M, c, m, us) && h < heads
    requires u < |us| && us[u].Split? && ValidUnit(c, us[u]) && us[u].qNum == 1 && 1 <= j <= |us[u].marks|
    ensures
      var red := Reduction(us[u].req, us[u].qStart, us[u].qNum, SplitCount(us[..u]), |us[u].marks|);
      var cert := Certificate(M, c, m, us, heads);
      && (forall i :: 0 <= i < |us[u].marks| ==> GroupOf(h, red).slots[i] in cert.pub)
      && Fold(Region(M, c, m, us, heads), cert, GroupOf(h, red), j)
         == FoldSplits(M, c, h, us[u], SplitCount(us[..u]), j)
  {
    hide Tiled; hide Render; hide Reductions; hide SplitCount; hide Certificate; hide PartOf; hide MergeParts;
    hide PartExact; hide WellFormed; hide Implements; hide Val; hide ParamsOf; hide ValuesOf; hide InItem;
    hide ValidUnit;
    var base := SplitCount(us[..u]);
    var red := Reduction(us[u].req, us[u].qStart, us[u].qNum, base, |us[u].marks|);
    forall i | 0 <= i < |us[u].marks|
      ensures GroupOf(h, red).slots[i] in Certificate(M, c, m, us, heads).pub
    {
      PublishedPart(M, c, m, us, heads, h, u, i);
    }
    PublishedPart(M, c, m, us, heads, h, u, j - 1);
    SplitPartExact(M, c, h, us[u], base, j - 1);
    ValuesPart(M, c, h, SplitItem(us[u], base, j - 1));
    RegionMerge(M, c, m, us, heads);
    if j > 1 { FoldIsFoldSplits(M, c, m, us, heads, h, u, j - 1); }
  }

  lemma ValuesPart(M: Model, c: Config, h: nat, it: Item)
    requires ValidConfig(c) && ValidModel(M, c) && InItem(c, it, it.qStart)
    ensures ValuesOf(M, c).part(h, it) == PartOf(M, c, h, it, it.qStart)
    ensures forall a, b :: ValuesOf(M, c).merge(a, b) == MergeParts(M.exp, a, b)
  {
    hide PartOf; hide MergeParts;
  }

  lemma RegionMerge(M: Model, c: Config, m: Metadata, us: seq<Unit>, heads: nat)
    requires Setting(M, c, m, us)
    ensures Region(M, c, m, us, heads).merge == ValuesOf(M, c).merge
    ensures Region(M, c, m, us, heads).final == ValuesOf(M, c).final
  {}

  /** Work item `it` computes the rows of this token. */
  predicate Serves(it: Item, r: nat, tok: nat) { it.req == r && it.qStart <= tok < it.qStart + it.qNum }

  /** The items of a unit serve the tokens of the unit. */
  lemma UnitServes(c: Config, u: Unit, base: nat, j: nat, tok: nat)
    requires ValidConfig(c) && ValidUnit(c, u) && j < |UnitItems(u, base)| && Serves(UnitItems(u, base)[j], u.req, tok)
    ensures Covers(u, u.req, tok) && InItem(c, UnitItems(u, base)[j], tok)
    ensures u.Whole? <==> UnitItems(u, base)[j].splitId < 0
    ensures u.Whole? ==> j == 0 && UnitItems(u, base)[j] == UnitItems(u, 0)[0]
    ensures u.Split? && c.threshold <= 1 ==>
            u.qNum == 1 == UnitItems(u, base)[j].qNum && UnitItems(u, base)[j].qStart == tok
  {
    hide Aligned;
    if u.Split? {
      SplitRanges(c, u, base, j);
      if j > 0 { MarksIncrease(c, u.marks, TileLeft(c, u.req, u.qStart), u.right, 0, j); }
    }
  }

  /** The unit behind a work item that serves a token. */
  lemma ServingUnit(M: Model, c: Config, m: Metadata, us: seq<Unit>, r: nat, tok: nat, x: nat) returns (u: nat)
    requires Setting(M, c, m, us) && TileAt(c, r, tok) && x < |m.items| && Serves(m.items[x], r, tok)
    ensures u < |us| && Covers(us[u], r, tok) && ValidUnit(c, us[u]) && InItem(c, m.items[x], tok)
    ensures us[u].Whole? <==> m.items[x].splitId < 0
    ensures us[u].Whole? ==> x == ItemIndex(us, u, 0) && m.items[x] == UnitItems(us[u], 0)[0]
    ensures us[u].Split? ==> us[u].qNum == 1 == m.items[x].qNum && m.items[x].qStart == tok
    ensures forall k :: 0 <= k < |us| && Covers(us[k], r, tok) ==> k == u
  {
    hide Tiled; hide Render; hide Reductions; hide SplitCount; hide ValidModel; hide Aligned; hide ItemIndex;
    hide ValidUnit; hide UnitItems; hide InItem;
    var j;
    u, j := ItemUnit(us, x);
    UnitsValid(c, us, |c.reqs|, 0, u);
    assert us[u].req == r by { ItemRequest(us[u], SplitCount(us[..u]), j); }
    UnitServes(c, us[u], SplitCount(us[..u]), j, tok);
    var k := ExactCover(c, us, r, tok);
  }

  lemma ItemRequest(u: Unit, base: nat, j: nat)
    requires j < |UnitItems(u, base)|
    ensures UnitItems(u, base)[j].req == u.req
  {}

  /** What the protocol writes for a key is plain attention, less the elements lost. */
  lemma ExpectedIsOutput(M: Model, c: Config, m: Metadata, us: seq<Unit>, heads: nat, key: Key, x: nat)
    requires Setting(M, c, m, us) && key in AllKeys(c, heads)
    requires x < |m.items| && Serves(m.items[x], key.req, key.tok)
    ensures InItem(c, m.items[x], key.tok)
    ensures IsOutput(M, c, key.head, key.req, key.tok, ItemLoss(M, c, m.items[x], key.tok),
                     Expected(Region(M, c, m, us, heads), Certificate(M, c, m, us, heads), key))
  {
    hide Tiled; hide Render; hide Reductions; hide SplitCount; hide PartOf; hide MergeParts; hide PartExact;
    hide IsOutput; hide ParamsOf; hide OpAt; hide ReduceProg; hide FoldSplits; hide FinalPart; hide Certificate;
    hide AttnOpOk; hide GroupOk; hide ItemLoss; hide RowLoss; hide ItemIndex;
    var v := ValuesOf(M, c);
    var p, cert := Region(M, c, m, us, heads), Certificate(M, c, m, us, heads);
    var (t, i) := cert.home[key];
    var u, g := WriteFacts(c, v, m, us, heads, key, t, i);
    var k := ServingUnit(M, c, m, us, key.req, key.tok, x);
    if t < |p.attn| {
      WholeWritten(M, c, m, us, heads, key, t, i, x);
    } else {
      SplitWritten(M, c, m, us, heads, key);
      var w := SplitWriter(M, c, m, us, heads, key, t, i);
      assert Covers(us[w], key.req, key.tok);
      OneTokenLosesNothing(M, c, m.items[x]);
    }
  }

  lemma WholeWritten(M: Model, c: Config, m: Metadata, us: seq<Unit>, heads: nat, key: Key, t: nat, i: nat, x: nat)
    requires Setting(M, c, m, us) && GroupsOk(Region(M, c, m, us, heads))
    requires t < |Region(M, c, m, us, heads).attn| && WrittenAt(Region(M, c, m, us, heads), key, t, i)
    requires TileAt(c, key.req, key.tok) && x < |m.items| && Serves(m.items[x], key.req, key.tok)
    ensures Region(M, c, m, us, heads).attn[t][i].Write? && InItem(c, m.items[x], key.tok)
    ensures IsOutput(M, c, key.head, key.req, key.tok, ItemLoss(M, c, m.items[x], key.tok),
                     Region(M, c, m, us, heads).attn[t][i].value)
  {
    hide Tiled; hide Render; hide Reductions; hide SplitCount; hide PartOf; hide IsOutput; hide ParamsOf; hide OpAt;
    hide ReduceProg; hide FinalPart; hide ItemLoss; hide RowLoss; hide ItemIndex;
    var v := ValuesOf(M, c);
    var h, g, y, off := FindOp(v, m, c.threads, heads, t, i);
    WriteOp(v, h, m.items[y], off, key);
    hide ItemOps;
    var u := ServingUnit(M, c, m, us, key.req, key.tok, x);
    var u' := ServingUnit(M, c, m, us, key.req, key.tok, y);
    WholeOutput(M, c, key.head, us[u], key.tok);
  }

  /** A write of an attention task comes from an unsplit item that serves the token. */
  lemma WriteOp(v: Values<Stats, Accs, Outs>, h: nat, it: Item, off: nat, key: Key)
    requires off < |ItemOps(v, h, it)| && WritesKey(ItemOps(v, h, it)[off], key)
    ensures it.splitId < 0 && h == key.head && Serves(it, key.req, key.tok)
    ensures ItemOps(v, h, it)[off] == Write(key, v.whole(h, it, key.tok))
  {}

  lemma RegionFinal(M: Model, c: Config, m: Metadata, us: seq<Unit>, heads: nat, part: RowPart)
    requires Setting(M, c, m, us)
    ensures Region(M, c, m, us, heads).final(part) == FinalPart(part, 0)
  {}

  lemma SplitWriter(M: Model, c: Config, m: Metadata, us: seq<Unit>, heads: nat, key: Key, t: nat, i: nat)
    returns (u: nat)
    requires Setting(M, c, m, us) && GroupsOk(Region(M, c, m, us, heads))
    requires |Region(M, c, m, us, heads).attn| <= t && WrittenAt(Region(M, c, m, us, heads), key, t, i)
    ensures u < |us| && us[u].Split? && ValidUnit(c, us[u]) && us[u].qNum == 1
    ensures key == Key(key.head, us[u].req, us[u].qStart) && key.head < heads
    ensures
      var p := Region(M, c, m, us, heads);
      p.groups[t - |p.attn|]
      == GroupOf(key.head, Reduction(us[u].req, us[u].qStart, us[u].qNum, SplitCount(us[..u]), |us[u].marks|))
  {
    hide Tiled; hide Render; hide Reductions; hide SplitCount; hide ParamsOf; hide ReduceProg; hide OpAt;
    hide ValuesOf; hide ValidModel;
    var p := Region(M, c, m, us, heads);
    var n := t - |p.attn|;
    ReduceOps(p, n, i);
    var h, k;
    h, k, u := GroupFacts(c, ValuesOf(M, c), m, us, heads, n);
    assert us[u].qNum == 1;
    assert p.groups[n].keys[i - 2 * |p.groups[n].slots| - 1] == key;
  }

  lemma SplitWritten(M: Model, c: Config, m: Metadata, us: seq<Unit>, heads: nat, key: Key)
    requires Setting(M, c, m, us) && key in AllKeys(c, heads)
    requires Certificate(M, c, m, us, heads).home[key].0 >= |Region(M, c, m, us, heads).attn|
    ensures TileAt(c, key.req, key.tok)
    ensures IsOutput(M, c, key.head, key.req, key.tok, 0,
                     Expected(Region(M, c, m, us, heads), Certificate(M, c, m, us, heads), key))
  {
    hide Tiled; hide Render; hide Reductions; hide SplitCount; hide IsOutput; hide ReduceProg; hide FoldSplits;
    hide FinalPart; hide Certificate; hide Fold; hide Implements; hide ValidModel; hide Region; hide AttnOpOk;
    hide GroupOk;
    var p, cert := Region(M, c, m, us, heads), Certificate(M, c, m, us, heads);
    var (t, i) := cert.home[key];
    var u := SplitWriter(M, c, m, us, heads, key, t, i);
    var n := |us[u].marks|;
    FoldIsFoldSplits(M, c, m, us, heads, key.head, u, n);
    SplitReference(M, c, key.head, us[u], SplitCount(us[..u]));
    RegionFinal(M, c, m, us, heads, FoldSplits(M, c, key.head, us[u], SplitCount(us[..u]), n));
    assert |p.groups[t - |p.attn|].slots| == n;
  }

  // ----- the theorem -----

  /**
    For every batch, thread count, window, KV-split choice, tile size and interleaving,
    from arbitrary stale scratch memory: when the parallel region has finished, exactly
    the (head, request, token) keys of the batch have been written, and each holds plain
    attention over exactly the positions its token sees, less the elements that ItemLoss
    counts; it is plain attention exactly if that count is zero.
   */
  lemma AttentionIsExact(M: Model, c: Config, m: Metadata, us: seq<Unit>, heads: nat,
                         s0: SplitProtocol.State<Stats, Accs, Outs>, sched: seq<nat>)
    requires Setting(M, c, m, us)
    requires Init(Region(M, c, m, us, heads), s0) && ValidSchedule(Region(M, c, m, us, heads), sched)
    ensures Inv(Region(M, c, m, us, heads), Certificate(M, c, m, us, heads), s0)
    ensures
      var s := Exec(Region(M, c, m, us, heads), Certificate(M, c, m, us, heads), s0, sched);
      AllFinished(s) ==>
        && s.out.Keys == AllKeys(c, heads)
        && forall key, x :: key in AllKeys(c, heads) && 0 <= x < |m.items| && Serves(m.items[x], key.req, key.tok) ==>
             && InItem(c, m.items[x], key.tok)
             && IsOutput(M, c, key.head, key.req, key.tok, ItemLoss(M, c, m.items[x], key.tok), s.out[key])
             && (IsReference(M, c, key.head, key.req, key.tok, s.out[key])
                 <==> ItemLoss(M, c, m.items[x], key.tok) == 0)
  {
    hide Implements; hide ParamsOf; hide WellFormed; hide Init; hide Inv; hide IsReference; hide Certificate;
    hide Exec; hide Expected; hide IsOutput; hide ItemLoss; hide ValidModel;
    var p, cert := Region(M, c, m, us, heads), Certificate(M, c, m, us, heads);
    FinishedOutputs(p, cert, s0, sched);
    forall key, x | key in AllKeys(c, heads) && 0 <= x < |m.items| && Serves(m.items[x], key.req, key.tok)
      ensures InItem(c, m.items[x], key.tok)
      ensures IsOutput(M, c, key.head, key.req, key.tok, ItemLoss(M, c, m.items[x], key.tok), Expected(p, cert, key))
      ensures IsReference(M, c, key.head, key.req, key.tok, Expected(p, cert, key))
              <==> ItemLoss(M, c, m.items[x], key.tok) == 0
    {
      ExpectedIsOutput(M, c, m, us, heads, key, x);
      ReferenceIff(M, c, key.head, key.req, key.tok, ItemLoss(M, c, m.items[x], key.tok), Expected(p, cert, key));
    }
  }

  /** Every token has a work item that serves it. */
  lemma Served(M: Model, c: Config, m: Metadata, us: seq<Unit>, r: nat, tok: nat) returns (x: nat)
    requires Setting(M, c, m, us) && TileAt(c, r, tok)
    ensures x < |m.items| && Serves(m.items[x], r, tok)
  {
    hide Implements; hide ValidModel;
    x := AssignedOnce(c, m, us, r, tok, QPos(c, r, tok));
  }

  /** No work item loses an element: windows, positions and tile sizes decide, before the call. */
  ghost predicate Lossless(M: Model, c: Config, m: Metadata)
    requires ValidConfig(c) && ValidModel(M, c)
  {
    forall x, tok :: 0 <= x < |m.items| && InItem(c, m.items[x], tok) ==> ItemLoss(M, c, m.items[x], tok) == 0
  }

  /** The whole batch comes out as plain attention exactly if the schedule is lossless. */
  lemma BatchIsExact(M: Model, c: Config, m: Metadata, us: seq<Unit>, heads: nat,
                     s0: SplitProtocol.State<Stats, Accs, Outs>, sched: seq<nat>)
    requires Setting(M, c, m, us) && heads > 0
    requires Init(Region(M, c, m, us, heads), s0) && ValidSchedule(Region(M, c, m, us, heads), sched)
    ensures Inv(Region(M, c, m, us, heads), Certificate(M, c, m, us, heads), s0)
    ensures
      var s := Exec(Region(M, c, m, us, heads), Certificate(M, c, m, us, heads), s0, sched);
      AllFinished(s) ==>
        && s.out.Keys == AllKeys(c, heads)
        && ((forall key :: key in AllKeys(c, heads) ==> IsReference(M, c, key.head, key.req, key.tok, s.out[key]))
            <==> Lossless(M, c, m))
  {
    hide Implements; hide ParamsOf; hide Init; hide Inv; hide IsReference; hide Certificate; hide Exec; hide IsOutput;
    hide ItemLoss; hide ValidModel; hide Region;
    AttentionIsExact(M, c, m, us, heads, s0, sched);
    var s := Exec(Region(M, c, m, us, heads), Certificate(M, c, m, us, heads), s0, sched);
    if AllFinished(s) {
      forall key | key in AllKeys(c, heads) && Lossless(M, c, m)
        ensures IsReference(M, c, key.head, key.req, key.tok, s.out[key])
      {
        var x := Served(M, c, m, us, key.req, key.tok);
      }
      forall x, tok | 0 <= x < |m.items| && InItem(c, m.items[x], tok)
        ensures IsReference(M, c, 0, m.items[x].req, tok, s.out[Key(0, m.items[x].req, tok)])
                <==> ItemLoss(M, c, m.items[x], tok) == 0
      {
        assert Key(0, m.items[x].req, tok) in AllKeys(c, heads);
      }
    }
  }

  /** A lossy item: the case of QTileWalk.LossCase as a request of 124 tokens, 24 of them new. */
  lemma LossyItem(M: Model, c: Config, kv: int)
    requires ValidConfig(c) && ValidModel(M, c) && c.reqs == [Request(124, 24)]
    requires c.maxTok == 8 && c.tileTok == 24 && c.align == 32 && c.window == 46 && M.rows == 1 && M.kvTile(24) == 32
    ensures InItem(c, Item(0, 0, 24, 0, 124, kv, -1, 0), 0) && ItemLoss(M, c, Item(0, 0, 24, 0, 124, kv, -1, 0), 0) == 5
  {
    var it := Item(0, 0, 24, 0, 124, kv, -1, 0);
    assert QTileOf(M, c, it, 0) == QTileWalk.LOSSY;
    QTileWalk.LossDamage();
  }

  /** On one thread the schedule for such a request is that one item. */
  lemma LossySchedule(c: Config, kv: nat) returns (m: Metadata, us: seq<Unit>)
    requires ValidConfig(c) && c.threads == 1 && c.reqs == [Request(124, 24)] && kv > 0
    ensures m == Metadata([Item(0, 0, 24, 0, 124, kv, -1, 0)], [], 0, [0, 1], 1) && us == [Whole(0, 0, 24, 124, kv)]
    ensures Implements(c, m, us)
  {
    m, us := Metadata([Item(0, 0, 24, 0, 124, kv, -1, 0)], [], 0, [0, 1], 1), [Whole(0, 0, 24, 124, kv)];
    assert us[..0] == [];
    assert Tiled(c, us, 0, 24);
  }

  /** So there are batches whose finished output is not plain attention, whatever the interleaving. */
  lemma LossyBatch(M: Model, c: Config, heads: nat, kv: nat,
                   s0: SplitProtocol.State<Stats, Accs, Outs>, sched: seq<nat>) returns (m: Metadata, us: seq<Unit>)
    requires ValidConfig(c) && ValidModel(M, c) && c.threads == 1 && c.reqs == [Request(124, 24)] && kv > 0
    requires c.maxTok == 8 && c.tileTok == 24 && c.align == 32 && c.window == 46 && c.threshold <= 1
    requires M.rows == 1 && M.kvTile(24) == 32 && heads > 0
    ensures Setting(M, c, m, us) && m.items == [Item(0, 0, 24, 0, 124, kv, -1, 0)]
    ensures
      var p, cert := Region(M, c, m, us, heads), Certificate(M, c, m, us, heads);
      Init(p, s0) && ValidSchedule(p, sched) ==>
        Inv(p, cert, s0) && (AllFinished(Exec(p, cert, s0, sched)) ==>
          var out := Exec(p, cert, s0, sched).out;
          out.Keys == AllKeys(c, heads) &&
          exists key :: key in AllKeys(c, heads) && !IsReference(M, c, key.head, key.req, key.tok, out[key]))
  {
    hide Implements; hide ParamsOf; hide Init; hide Inv; hide IsReference; hide Certificate; hide Exec; hide ItemLoss;
    hide ValidModel; hide Region;
    m, us := LossySchedule(c, kv);
    LossyItem(M, c, kv);
    assert !Lossless(M, c, m) by { assert InItem(c, m.items[0], 0); }
    if Init(Region(M, c, m, us, heads), s0) && ValidSchedule(Region(M, c, m, us, heads), sched) {
      BatchIsExact(M, c, m, us, heads, s0, sched);
    }
  }

  /**
    The parallel region always finishes: whatever the threads have done so far, there is
    a way to go on to the end, and the steps that are not spins are bounded up front.
   */
  lemma RegionFinishes(M: Model, c: Config, m: Metadata, us: seq<Unit>, heads: nat,
                       s0: SplitProtocol.State<Stats, Accs, Outs>, sched: seq<nat>) returns (rest: seq<nat>)
    requires Setting(M, c, m, us)
    requires Init(Region(M, c, m, us, heads), s0) && ValidSchedule(Region(M, c, m, us, heads), sched)
    ensures Inv(Region(M, c, m, us, heads), Certificate(M, c, m, us, heads), s0)
    ensures Moves(Region(M, c, m, us, heads), Certificate(M, c, m, us, heads), s0, sched)
            <= Work(Region(M, c, m, us, heads), s0)
    ensures ValidSchedule(Region(M, c, m, us, heads), rest)
    ensures
      var p, cert := Region(M, c, m, us, heads), Certificate(M, c, m, us, heads);
      AllFinished(Exec(p, cert, Exec(p, cert, s0, sched), rest))
  {
    hide Implements; hide ParamsOf; hide Init; hide Inv; hide Certificate; hide Exec; hide Work; hide Moves;
    hide ReduceProg;
    var p, cert := Region(M, c, m, us, heads), Certificate(M, c, m, us, heads);
    InitInv(p, cert, s0);
    BoundedMoves(p, cert, s0, sched);
    rest := CanFinish(p, cert, Exec(p, cert, s0, sched));
  }

  /**
    Every fair run finishes: once each thread has had a turn in each of more rounds than
    the work there was at the start, in any order within a round, all threads have left.
   */
  lemma FairRegionFinishes(M: Model, c: Config, m: Metadata, us: seq<Unit>, heads: nat,
                           s0: SplitProtocol.State<Stats, Accs, Outs>, rounds: seq<seq<nat>>)
    requires Setting(M, c, m, us) && Init(Region(M, c, m, us, heads), s0)
    requires forall i :: 0 <= i < |rounds| ==> Fair(Region(M, c, m, us, heads), rounds[i])
    ensures Inv(Region(M, c, m, us, heads), Certificate(M, c, m, us, heads), s0)
    ensures ValidSchedule(Region(M, c, m, us, heads), Flatten.Flat(rounds))
    ensures |rounds| > Work(Region(M, c, m, us, heads), s0) ==>
              AllFinished(Exec(Region(M, c, m, us, heads), Certificate(M, c, m, us, heads), s0, Flatten.Flat(rounds)))
  {
    hide Implements; hide ParamsOf; hide Init; hide Inv; hide Certificate; hide Exec; hide Work; hide ReduceProg;
    hide AllFinished; hide Fair;
    var p, cert := Region(M, c, m, us, heads), Certificate(M, c, m, us, heads);
    InitInv(p, cert, s0);
    FairRuns(p, cert, s0, rounds);
  }

  // ----- the sizes of the kernels -----

  /** The kernels there are: AMX takes bfloat16 only. */
  predicate Supported(k: Scratchpad.Kernel) { Scratchpad.Dispatched(k) && (k.maxQ == 32 ==> k.elem == 2) }

  /** schedule() is called with the constants of the kernel and the default tile of the machine's cache. */
  ghost predicate ForKernel(i: Input, k: Scratchpad.Kernel, cache: nat) {
    && Supported(k) && ValidInput(i) && i.maxQ == k.maxQ && i.align == k.align
    && i.tileSize == Scratchpad.DefaultTile(k, cache)
  }

  /** The sizes in the model are those of the kernel: line 1503 rounds the rows of a Q tile, 1508 picks its KV tile. */
  ghost predicate KernelSizes(M: Model, i: Input, k: Scratchpad.Kernel, cache: nat)
    requires ForKernel(i, k, cache)
  {
    && M.dim == k.headDim && M.rows == HeadsPerKv(i)
    && forall n: nat :: M.kvTile(n) == Scratchpad.KvTile(k, cache, AlignUp(n * HeadsPerKv(i), k.maxQ))
  }

  ghost predicate ShapedInputs(M: Model) {
    && ExpLaws(M.exp)
    && (forall r, h, j :: |M.value(r, h, j)| == M.dim)
    && (forall h, tok, i :: |M.garbage(h, tok, i)| == M.dim)
  }

  /** All size assumptions of the theorems hold for every kernel, cache and input. */
  lemma KernelModel(M: Model, i: Input, k: Scratchpad.Kernel, cache: nat, perThread: nat)
    requires ForKernel(i, k, cache) && KernelSizes(M, i, k, cache) && ShapedInputs(M) && Aligned(perThread, i.align)
    ensures ValidConfig(Derive(i, perThread)) && ValidModel(M, Derive(i, perThread))
  {
    DeriveValid(i, perThread);
    Powers.Quotients(k.maxQ, HeadsPerKv(i));
    var c := Derive(i, perThread);
    assert c.maxTok <= k.maxQ by { QuotientAtMost(k.maxQ, HeadsPerKv(i)); }
    forall n: nat ensures M.kvTile(n) > 0 && Aligned(M.kvTile(n), c.align) {
      assert M.kvTile(n) == Scratchpad.KvTile(k, cache, AlignUp(n * HeadsPerKv(i), k.maxQ));
      Scratchpad.KvTileAligned(k, cache, AlignUp(n * HeadsPerKv(i), k.maxQ));
    }
  }

  /** Lines 1499-1514: the rows of `n` tokens, rounded up to whole iterations, pick the KV tile. */
  function KvTileFor(i: Input, k: Scratchpad.Kernel, cache: nat, n: nat): (size: nat)
    requires ForKernel(i, k, cache)
    ensures size >= k.align
  {
    Scratchpad.KvTile(k, cache, AlignUp(n * HeadsPerKv(i), k.maxQ))
  }

  /**
    The loop of lines 1491-1540 over the Q tiles of a work item.  They divide the tokens, and each
    has the KV tile of the tokens it actually has.
   */
  method QTiles(i: Input, k: Scratchpad.Kernel, cache: nat, c: Config, it: Item)
    returns (tiles: seq<QTileWalk.QTile>)
    requires ForKernel(i, k, cache) && ValidConfig(c) && InItem(c, it, it.qStart) && c.align == k.align
    ensures |tiles| > 0 && (|tiles| - 1) * c.tileTok < it.qNum <= |tiles| * c.tileTok
    ensures forall n: nat :: n < |tiles| ==>
              && n * c.tileTok < it.qNum && TileTokens(c, it, n) > 0
              && tiles[n] == QTileAt(c, it, HeadsPerKv(i), KvTileFor(i, k, cache, TileTokens(c, it, n)), n)
  {
    hide Aligned; hide AlignUp; hide AlignDown; hide HeadsPerKv; hide Scratchpad.KvTile;
    tiles := [];
    var off := 0;
    while off < it.qNum
      invariant off == |tiles| * c.tileTok && (|tiles| > 0 ==> (|tiles| - 1) * c.tileTok < it.qNum)
      invariant forall n: nat :: n < |tiles| ==>
                  && n * c.tileTok < it.qNum && TileTokens(c, it, n) > 0
                  && tiles[n] == QTileAt(c, it, HeadsPerKv(i), KvTileFor(i, k, cache, TileTokens(c, it, n)), n)
    {
      var num := Min(c.tileTok, it.qNum - off);
      var kvTile := Scratchpad.KvTile(k, cache, AlignUp(num * HeadsPerKv(i), k.maxQ));
      var start := QPos(c, it.req, it.qStart + off);
      var from := AlignDown(KvLeft(it.kvStart, start, c.window), c.align);
      var end := AlignUp(KvRight(it.kvEnd, start + num), c.align);
      assert kvTile == KvTileFor(i, k, cache, num);
      assert off + c.tileTok == (|tiles| + 1) * c.tileTok by { Powers.Distribute(|tiles|, 1, c.tileTok); }
      tiles := tiles + [QTileWalk.QTile(start, num, c.maxTok, HeadsPerKv(i), kvTile, c.align, c.window, from, end)];
      off := off + c.tileTok;
    }
  }

  /** So every token of the model has the Q tile that the loop forms for it. */
  lemma KernelTile(M: Model, i: Input, k: Scratchpad.Kernel, cache: nat, c: Config, it: Item, tok: nat, n: nat)
    requires ForKernel(i, k, cache) && KernelSizes(M, i, k, cache)
    requires ValidConfig(c) && ValidModel(M, c) && InItem(c, it, tok)
    requires n * c.tileTok <= tok - it.qStart < n * c.tileTok + c.tileTok
    ensures QTileOf(M, c, it, tok) == QTileAt(c, it, HeadsPerKv(i), KvTileFor(i, k, cache, TileTokens(c, it, n)), n)
  {
    hide ValidModel;
    var o := tok - it.qStart - n * c.tileTok;
    Powers.Quotients(o, c.maxTok);
    TokenTile(M, c, it, tok, n, o / c.maxTok);
  }

  lemma QuotientAtMost(a: nat, b: nat)
    requires b > 0
    ensures 0 <= a / b <= a
  {
    Powers.Quotients(a, b);
    Powers.MulMonotone(1, b, a / b);
  }

  /** What schedule() accepts for a kernel is a setting for the theorems above. */
  lemma ScheduleGivesSetting(M: Model, i: Input, k: Scratchpad.Kernel, cache: nat, c: Config, m: Metadata,
                             us: seq<Unit>)
    requires ForKernel(i, k, cache) && KernelSizes(M, i, k, cache) && ShapedInputs(M)
    requires ValidConfig(c) && c == Derive(i, Budgeted(i, LenReqs(c, 0))) && Implements(c, m, us)
    ensures Setting(M, c, m, us)
  {
    hide Implements; hide ValidModel; hide KernelSizes; hide Budgeted; hide LenReqs;
    KernelModel(M, i, k, cache, Budgeted(i, LenReqs(c, 0)));
  }
}
