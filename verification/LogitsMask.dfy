/**
  apply_mask on the flat logits buffer (csrc/cpu/cpu_attn_impl.hpp, lines 1089-1138).
  With a sliding window the left fill of a row may be longer than the row; the excess
  lands in the next row.  The rows end up masked as they should all the same, because
  such a row is always followed by rows that are masked completely; but past the last
  row the fill can leave the logits buffer.
 */
module LogitsMask {
  import Powers
  import opened KvRanges
  import opened OnlineSoftmax
  import opened TileWalk
  import Scratchpad

  /** One call: rows are (token, head) pairs in token order, `end - start` columns each. */
  datatype Mask = Mask(qStart: int, qNum: nat, heads: nat, start: int, end: int, window: int)

  /** The tile was not skipped, and an inner Q tile has at most as many tokens as a row has columns. */
  predicate ValidMask(m: Mask) {
    && m.heads > 0 && m.window >= NO_WINDOW
    && m.qNum <= m.end - m.start && m.start < m.end
    && (m.window != NO_WINDOW ==> m.qStart - m.window < m.end)
  }

  function Stride(m: Mask): nat
    requires ValidMask(m)
  {
    m.end - m.start
  }

  function LeftPos(m: Mask, pos: int): int {
    if m.window != NO_WINDOW then KvRanges.Max(m.start, pos - m.window) else m.start
  }

  function RightPos(m: Mask, pos: int): int { Min(m.end, KvRanges.Max(m.start, pos + 0 + 1)) }

  /** Position of the token that row `row` belongs to. */
  function RowPos(m: Mask, row: nat): int
    requires m.heads > 0
  {
    m.qStart + row / m.heads
  }

  /** Should flat index `k` keep its logit? */
  predicate KeepAt(m: Mask, k: nat)
    requires ValidMask(m)
  {
    MaskKeeps(m.start, m.end, RowPos(m, k / Stride(m)), m.window, m.start + k % Stride(m))
  }

  /** How far the last row's left fill may run past the rows. */
  function Spill(m: Mask): (n: nat)
    requires ValidMask(m)
    ensures n < Stride(m)
  {
    if m.qNum == 0 || m.window == NO_WINDOW then 0 else KvRanges.Max(0, m.qStart + m.qNum - 1 - m.window - m.end)
  }

  lemma RowOfIndex(k: nat, row: nat, stride: nat)
    requires stride > 0 && row * stride <= k < row * stride + stride
    ensures k / stride == row && k % stride == k - row * stride
  {
    var q, r := k / stride, k % stride;
    assert k == q * stride + r && 0 <= r < stride;
    assert (q - row) * stride == (k - row * stride) - r;
    Powers.Apart(q - row, stride);
  }

  lemma RowsMonotone(m: Mask, row: nat, row': nat)
    requires m.heads > 0 && row <= row'
    ensures RowPos(m, row) <= RowPos(m, row')
  {
    var a, b := row / m.heads, row' / m.heads;
    assert row == a * m.heads + row % m.heads && row' == b * m.heads + row' % m.heads;
    assert (b - a) * m.heads == row' - row + row % m.heads - row' % m.heads;
    Powers.Apart(b - a, m.heads);
  }

  /** What the two fill loops of one row write is exactly this. */
  predicate Filled(m: Mask, base: int, pos: int, k: int) {
    || base <= k < base + (LeftPos(m, pos) - m.start)
    || base + (RightPos(m, pos) - m.start) <= k < base + (RightPos(m, pos) - m.start) + (m.end - RightPos(m, pos))
  }

  method FillRow(m: Mask, buf: array<Cell>, base: nat, pos: int)
    requires ValidMask(m)
    requires base + Stride(m) <= buf.Length && base + (LeftPos(m, pos) - m.start) <= buf.Length
    modifies buf
    ensures forall k :: 0 <= k < buf.Length ==> buf[k] == if Filled(m, base, pos, k) then NegInf else old(buf[k])
  {
    var left, right := LeftPos(m, pos) - m.start, m.end - RightPos(m, pos);
    var tail := base + RightPos(m, pos) - m.start;
    for i := 0 to left
      invariant forall k :: 0 <= k < buf.Length ==> buf[k] == if base <= k < base + i then NegInf else old(buf[k])
    {
      buf[base + i] := NegInf;
    }
    for i := 0 to right
      invariant forall k :: 0 <= k < buf.Length ==>
                  buf[k] == if base <= k < base + left || tail <= k < tail + i then NegInf else old(buf[k])
    {
      buf[tail + i] := NegInf;
    }
  }

  /** Row `row` is filled exactly where it must be masked, and never a cell that must be kept. */
  lemma FillMeansMasked(m: Mask, row: nat, k: nat)
    requires ValidMask(m) && row < m.qNum * m.heads
    ensures RowPos(m, row) < m.qStart + m.qNum
    ensures row * Stride(m) <= k < row * Stride(m) + Stride(m) ==>
              (Filled(m, row * Stride(m), RowPos(m, row), k) <==> !KeepAt(m, k))
    ensures Filled(m, row * Stride(m), RowPos(m, row), k) ==>
            row * Stride(m) <= k < row * Stride(m) + 2 * Stride(m) && !KeepAt(m, k)
    ensures Filled(m, row * Stride(m), RowPos(m, row), k) && row + 1 == m.qNum * m.heads ==>
              k < row * Stride(m) + Stride(m) + Spill(m)
  {
    var stride, pos := Stride(m), RowPos(m, row);
    LastToken(m, row);
    if row * stride <= k < row * stride + stride {
      RowOfIndex(k, row, stride);
    } else if Filled(m, row * stride, pos, k) {
      assert (row + 1) * stride == row * stride + stride;
      RowOfIndex(k, row + 1, stride);
      RowsMonotone(m, row, row + 1);
    }
  }

  lemma LastToken(m: Mask, row: nat)
    requires ValidMask(m) && row < m.qNum * m.heads
    ensures RowPos(m, row) < m.qStart + m.qNum
    ensures row + 1 == m.qNum * m.heads ==> RowPos(m, row) == m.qStart + m.qNum - 1
  {
    var q := row / m.heads;
    assert row == q * m.heads + row % m.heads;
    assert (m.qNum - q) * m.heads > row % m.heads;
    Powers.Apart(m.qNum - q, m.heads);
    if row + 1 == m.qNum * m.heads && q < m.qNum - 1 {
      Powers.Apart(m.qNum - 1 - q, m.heads);
      assert (m.qNum - q) * m.heads == (m.qNum - 1 - q) * m.heads + m.heads;
    }
  }

  /** Flat index of the first cell of row (token, head), and one past the last row. */
  function RowBase(m: Mask, token: nat, head: nat): nat
    requires ValidMask(m)
  {
    (token * m.heads + head) * Stride(m)
  }

  lemma RowBaseSteps(m: Mask, token: nat, head: nat)
    requires ValidMask(m)
    ensures RowBase(m, token, head + 1) == RowBase(m, token, head) + Stride(m)
    ensures RowBase(m, token, m.heads) == RowBase(m, token + 1, 0)
    ensures RowBase(m, 0, 0) == 0 && RowBase(m, m.qNum, 0) == m.qNum * m.heads * Stride(m)
  {
    var a := token * m.heads + head;
    assert (a + 1) * Stride(m) == a * Stride(m) + Stride(m);
    assert token * m.heads + m.heads == (token + 1) * m.heads + 0;
  }

  /** The inner loop: the rows of one token, one per head. */
  method MaskToken(m: Mask, buf: array<Cell>, base0: nat, token: nat, ghost was: seq<Cell>) returns (base: nat)
    requires ValidMask(m) && token < m.qNum && base0 == RowBase(m, token, 0)
    requires buf.Length >= RowBase(m, m.qNum, 0) + Spill(m)
    requires MaskedBelow(m, was, buf[..], base0, RowBase(m, m.qNum, 0))
    modifies buf
    ensures base == RowBase(m, token + 1, 0)
    ensures MaskedBelow(m, was, buf[..], base, RowBase(m, m.qNum, 0))
  {
    hide KeepAt; hide Filled; hide MaskedBelow; hide RowBase; hide Spill; hide LeftPos;
    base := base0;
    for head := 0 to m.heads
      invariant base == RowBase(m, token, head)
      invariant MaskedBelow(m, was, buf[..], base, RowBase(m, m.qNum, 0))
    {
      ghost var row := token * m.heads + head;
      assert base == row * Stride(m) by { RowBaseIs(m, token, head); }
      RowBaseSteps(m, token, head);
      RowStep(m, token, head, row);
      ghost var before := buf[..];
      FillRow(m, buf, base, m.qStart + token);
      MaskNext(m, was, before, buf[..], row);
      base := base + Stride(m);
    }
    RowBaseSteps(m, token, 0);
  }

  lemma RowBaseIs(m: Mask, token: nat, head: nat)
    requires ValidMask(m)
    ensures RowBase(m, token, head) == (token * m.heads + head) * Stride(m)
  {}

  /**
    apply_mask: afterwards every cell of every row holds its logit if the token of the
    row may see the position, and minus infinity otherwise; exactly the next Spill(m)
    cells, whatever they belong to, are minus infinity too.  `buf` is the memory from the
    logits buffer on.
   */
  method ApplyMask(m: Mask, buf: array<Cell>)
    requires ValidMask(m)
    requires buf.Length >= m.qNum * m.heads * Stride(m) + Spill(m)
    modifies buf
    ensures forall k :: 0 <= k < m.qNum * m.heads * Stride(m) ==>
              buf[k] == if KeepAt(m, k) then old(buf[k]) else NegInf
    ensures forall k :: m.qNum * m.heads * Stride(m) <= k < buf.Length ==>
              buf[k] == if k < m.qNum * m.heads * Stride(m) + Spill(m) then NegInf else old(buf[k])
  {
    hide KeepAt; hide RowBase;
    ghost var was := buf[..];
    var base := 0;
    RowBaseSteps(m, 0, 0);
    for token := 0 to m.qNum
      invariant base == RowBase(m, token, 0)
      invariant MaskedBelow(m, was, buf[..], base, RowBase(m, m.qNum, 0))
    {
      base := MaskToken(m, buf, base, token, was);
    }
  }

  /**
    The logits buffer holds maxQ rows of kvTile columns.  The mask stays inside it exactly
    if it does not spill, or the Q tile is not full, or the tile is narrower than kvTile.
   */
  lemma StaysInLogitsBuffer(m: Mask, maxQ: nat, kvTile: nat)
    requires ValidMask(m) && 0 < m.qNum && m.qNum * m.heads <= maxQ && Stride(m) <= kvTile
    ensures m.qNum * m.heads * Stride(m) + Spill(m) <= maxQ * kvTile
            <==> m.window == NO_WINDOW || m.qStart + m.qNum - 1 - m.window <= m.end
                 || m.qNum * m.heads < maxQ || Stride(m) < kvTile
  {
    var rows := m.qNum * m.heads;
    assert m.qNum <= rows by { Powers.Apart(m.heads, m.qNum); assert rows == m.heads * m.qNum; }
    Room(rows, Stride(m), maxQ, kvTile, Spill(m));
  }

  lemma Room(rows: nat, stride: nat, maxQ: nat, kvTile: nat, spill: nat)
    requires rows <= maxQ && stride <= kvTile && spill < stride && spill <= rows
    ensures rows * stride + spill <= maxQ * kvTile <==> spill == 0 || rows < maxQ || stride < kvTile
  {
    Powers.MulMonotone(stride, kvTile, rows);
    Powers.MulMonotone(rows, maxQ, kvTile);
    if rows < maxQ {
      Powers.MulMonotone(rows + 1, maxQ, kvTile);
      assert (rows + 1) * kvTile == rows * kvTile + kvTile;
    } else if stride < kvTile {
      Powers.MulMonotone(stride + 1, kvTile, rows);
      assert rows * (stride + 1) == rows * stride + rows;
    }
  }

  /** How many cells after a buffer of maxQ rows and kvTile columns the mask overwrites. */
  function Overrun(m: Mask, maxQ: nat, kvTile: nat): (n: nat)
    requires ValidMask(m)
  {
    KvRanges.Max(0, m.qNum * m.heads * Stride(m) + Spill(m) - maxQ * kvTile)
  }

  lemma OverrunIsSpill(m: Mask, maxQ: nat, kvTile: nat)
    requires ValidMask(m) && 0 < m.qNum && m.qNum * m.heads <= maxQ && Stride(m) <= kvTile
    ensures Overrun(m, maxQ, kvTile) == if m.qNum * m.heads == maxQ && Stride(m) == kvTile then Spill(m) else 0
  {
    StaysInLogitsBuffer(m, maxQ, kvTile);
  }

  /** Cells before `base` are final; later ones may only have been masked early. */
  ghost predicate MaskedBelow(m: Mask, was: seq<Cell>, now: seq<Cell>, base: int, end: int)
    requires ValidMask(m)
  {
    && |now| == |was| >= end
    && (forall k :: 0 <= k < end && k < base ==> now[k] == if KeepAt(m, k) then was[k] else NegInf)
    && (forall k :: base <= k < end && 0 <= k ==> now[k] == was[k] || (now[k] == NegInf && !KeepAt(m, k)))
    && (forall k :: 0 <= end <= k < |now| ==>
          if base < end then now[k] == was[k] || (now[k] == NegInf && k < end + Spill(m))
          else now[k] == if k < end + Spill(m) then NegInf else was[k])
  }

  lemma RowStep(m: Mask, token: nat, head: nat, row: nat)
    requires ValidMask(m) && token < m.qNum && head < m.heads && row == token * m.heads + head
    ensures row < m.qNum * m.heads && RowPos(m, row) == m.qStart + token
    ensures row * Stride(m) + Stride(m) <= m.qNum * m.heads * Stride(m)
    ensures row * Stride(m) + (LeftPos(m, m.qStart + token) - m.start) <= m.qNum * m.heads * Stride(m) + Spill(m)
  {
    var rows, stride := m.qNum * m.heads, Stride(m);
    RowOfIndex(row, token, m.heads);
    Powers.Apart(m.qNum - token, m.heads);
    assert (m.qNum - token) * m.heads == rows - token * m.heads;
    assert row < rows;
    Powers.Apart(rows - row, stride);
    assert (rows - row) * stride == rows * stride - row * stride;
    LastToken(m, row);
    if row + 1 < rows {
      Powers.Apart(rows - row - 1, stride);
      assert (rows - row - 1) * stride == rows * stride - row * stride - stride;
    }
  }

  /** What a row writes after the rows. */
  lemma FillAfterRows(m: Mask, row: nat, k: nat)
    requires ValidMask(m) && row < m.qNum * m.heads && m.qNum * m.heads * Stride(m) <= k
    ensures Filled(m, row * Stride(m), RowPos(m, row), k) ==> k < m.qNum * m.heads * Stride(m) + Spill(m)
    ensures row + 1 == m.qNum * m.heads && k < m.qNum * m.heads * Stride(m) + Spill(m) ==>
              Filled(m, row * Stride(m), RowPos(m, row), k)
  {
    var token := row / m.heads;
    LastToken(m, row);
    assert row == token * m.heads + row % m.heads;
    assert token < m.qNum;
    RowStep(m, token, row % m.heads, row);
    if row + 1 == m.qNum * m.heads { assert (row + 1) * Stride(m) == row * Stride(m) + Stride(m); }
  }

  lemma RowsEnd(m: Mask, row: nat)
    requires ValidMask(m) && row < m.qNum * m.heads
    ensures row * Stride(m) + Stride(m) <= m.qNum * m.heads * Stride(m)
    ensures row * Stride(m) + Stride(m) == m.qNum * m.heads * Stride(m) <==> row + 1 == m.qNum * m.heads
  {
    var rows, stride := m.qNum * m.heads, Stride(m);
    Powers.Apart(rows - row - 1, stride);
    assert (rows - row - 1) * stride == rows * stride - row * stride - stride;
  }

  lemma MaskNext(m: Mask, was: seq<Cell>, before: seq<Cell>, after: seq<Cell>, row: nat)
    requires ValidMask(m) && row < m.qNum * m.heads
    requires MaskedBelow(m, was, before, row * Stride(m), m.qNum * m.heads * Stride(m))
    requires |after| == |before|
    requires forall k :: 0 <= k < |after| ==>
               after[k] == if Filled(m, row * Stride(m), RowPos(m, row), k) then NegInf else before[k]
    ensures MaskedBelow(m, was, after, row * Stride(m) + Stride(m), m.qNum * m.heads * Stride(m))
  {
    hide KeepAt; hide Filled; hide Spill;
    RowsEnd(m, row);
    forall k: nat | m.qNum * m.heads * Stride(m) <= k
      ensures Filled(m, row * Stride(m), RowPos(m, row), k) ==> k < m.qNum * m.heads * Stride(m) + Spill(m)
      ensures row + 1 == m.qNum * m.heads && k < m.qNum * m.heads * Stride(m) + Spill(m) ==>
                Filled(m, row * Stride(m), RowPos(m, row), k)
    {
      FillAfterRows(m, row, k);
    }
    forall k: nat | k < m.qNum * m.heads * Stride(m)
      ensures k < row * Stride(m) ==> !Filled(m, row * Stride(m), RowPos(m, row), k)
      ensures row * Stride(m) <= k < row * Stride(m) + Stride(m) ==>
              (Filled(m, row * Stride(m), RowPos(m, row), k) <==> !KeepAt(m, k))
      ensures Filled(m, row * Stride(m), RowPos(m, row), k) ==> !KeepAt(m, k)
    {
      FillMeansMasked(m, row, k);
    }
  }
}
