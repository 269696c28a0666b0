/**
  The two loops over a Q tile (csrc/cpu/cpu_attn_impl.hpp, lines 1624-1723): for every KV
  tile, every inner Q tile of max_q_token_num_per_iter tokens is masked, softmaxed and
  multiplied.  The partial outputs of the whole Q tile lie right behind the logits buffer,
  so a mask that runs past the logits overwrites the first elements of output row 0.

  This module follows one row through both loops, the masks of all other rows included,
  and proves which output elements are lost, and exactly when.
 */
module QTileWalk {
  import Powers
  import opened KvRanges
  import opened OnlineSoftmax
  import opened TileWalk
  import opened LogitsMask
  import Scratchpad

  /** A Q tile of `num` tokens from position `start`, and the rounded KV range [from, end) it walks. */
  datatype QTile = QTile(start: nat, num: nat, maxTok: nat, heads: nat, kvTile: nat, align: nat, window: int,
                         from: nat, end: nat)

  /** maxTok * heads rows make one iteration: 8, 16 or 32 rows, against an alignment of 32, 16 or 32. */
  ghost predicate ValidQTile(t: QTile) {
    && t.num > 0 && t.maxTok > 0 && t.heads > 0 && t.align > 0 && t.kvTile > 0 && Aligned(t.kvTile, t.align)
    && t.maxTok <= t.align && t.window >= NO_WINDOW
    && Aligned(t.from, t.align) && Aligned(t.end, t.align)
  }

  /** The inner Q tile that starts `o` tokens into the Q tile. */
  function Left(t: QTile, o: nat): nat { t.start + o }

  function Right(t: QTile, o: nat): int { t.start + Min(o + t.maxTok, t.num) }

  function InnerGeometry(t: QTile, o: nat): Geometry {
    Geometry(t.start, t.start + t.num, Left(t, o), Right(t, o), t.kvTile, t.align)
  }

  function KvFrom(t: QTile, p: nat, o: nat): int { KvLeft(p, Left(t, o), t.window) }

  function KvTo(t: QTile, p: nat, o: nat): int { KvRight(Min(p + t.kvTile, t.end), Right(t, o)) }

  /** The inner Q tile is not skipped on the KV tile from `p`. */
  predicate Executed(t: QTile, p: nat, o: nat) { KvFrom(t, p, o) < KvTo(t, p, o) }

  function MaskOf(t: QTile, p: nat, o: nat): Mask
    requires ValidQTile(t) && o < t.num && Executed(t, p, o)
  {
    Mask(Left(t, o), Right(t, o) - Left(t, o), t.heads,
         AlignDown(KvFrom(t, p, o), t.align), AlignUp(KvTo(t, p, o), t.align), t.window)
  }

  /** Every mask the loops form is one apply_mask handles, no wider than a KV tile, with at most maxQ rows. */
  lemma WalkFormsMask(t: QTile, p: nat, o: nat)
    requires ValidQTile(t) && o < t.num && Executed(t, p, o) && Aligned(p, t.align)
    ensures
      var m := MaskOf(t, p, o);
      && ValidMask(m) && 0 < m.qNum <= t.maxTok && m.qNum * m.heads <= t.maxTok * t.heads
      && p <= m.start < m.end <= p + t.kvTile && m.end <= t.end && Stride(m) <= t.kvTile
      && Aligned(m.start, t.align) && Aligned(m.end, t.align)
  {
    hide Aligned; hide AlignDown; hide AlignUp;
    var m, right := MaskOf(t, p, o), Min(p + t.kvTile, t.end);
    AlignedSum(p, t.kvTile, t.align);
    AlignWithin(KvFrom(t, p, o), p, right, t.align);
    AlignWithin(KvTo(t, p, o), p, right, t.align);
    AlignedGap(m.start, m.end, t.align);
    Powers.Apart(t.maxTok - m.qNum, t.heads);
    assert (t.maxTok - m.qNum) * t.heads == t.maxTok * t.heads - m.qNum * t.heads;
  }

  /** Output elements this mask overwrites: the output buffer follows maxQ rows of kvTile logits. */
  function Hits(t: QTile, p: nat, o: nat): (n: nat)
    requires ValidQTile(t) && o < t.num && Executed(t, p, o) && Aligned(p, t.align)
    ensures n <= t.maxTok
  {
    WalkFormsMask(t, p, o);
    HitsBelow(t, p, o);
    Overrun(MaskOf(t, p, o), t.maxTok * t.heads, t.kvTile)
  }

  lemma HitsBelow(t: QTile, p: nat, o: nat)
    requires ValidQTile(t) && o < t.num && Executed(t, p, o) && Aligned(p, t.align)
    ensures ValidMask(MaskOf(t, p, o))
    ensures Overrun(MaskOf(t, p, o), t.maxTok * t.heads, t.kvTile) <= t.maxTok
  {
    hide Aligned; hide AlignDown; hide AlignUp; hide Overrun;
    WalkFormsMask(t, p, o);
    OverrunIsSpill(MaskOf(t, p, o), t.maxTok * t.heads, t.kvTile);
  }

  /** So apply_mask never needs more than the logits buffer and one output row of at least maxTok elements. */
  lemma MaskHasRoom(t: QTile, p: nat, o: nat, dim: nat)
    requires ValidQTile(t) && o < t.num && Executed(t, p, o) && Aligned(p, t.align) && t.maxTok <= dim
    ensures
      var m := MaskOf(t, p, o);
      ValidMask(m) && m.qNum * m.heads * Stride(m) + Spill(m) <= t.maxTok * t.heads * t.kvTile + dim
  {
    hide Aligned; hide AlignDown; hide AlignUp;
    HitsBelow(t, p, o);
  }

  // ----- what happens to a row -----

  /** The first `lost` output elements are minus infinity; `first`: the first tile of its own is still to come. */
  datatype Loss = Loss(lost: nat, first: bool)

  /** A mask overwrites n elements; the row's own first tile then replaces the whole output. */
  function Hit(s: Loss, n: nat, own: bool): Loss {
    var lost := KvRanges.Max(s.lost, n);
    if own then Loss(if s.first then 0 else lost, false) else Loss(lost, s.first)
  }

  /**
    One KV tile, inner Q tiles from `o` on, seen from a row of the inner tile `mine`;
    `top`: the row is row 0 of the Q tile, the one behind the logits buffer.
   */
  function Inners(t: QTile, mine: nat, top: bool, p: nat, o: nat, s: Loss): Loss
    requires ValidQTile(t) && Aligned(p, t.align)
    decreases t.num - o
  {
    if o >= t.num then s
    else Inners(t, mine, top, p, o + t.maxTok,
                if Executed(t, p, o) then Hit(s, if top then Hits(t, p, o) else 0, o == mine) else s)
  }

  function Walk(t: QTile, mine: nat, top: bool, p: nat, s: Loss): Loss
    requires ValidQTile(t) && Aligned(p, t.align)
    decreases t.end - p
  {
    if p >= t.end then s
    else
      AlignedSum(p, t.kvTile, t.align);
      Walk(t, mine, top, p + t.kvTile, Inners(t, mine, top, p, 0, s))
  }

  /** Elements a row has lost when the Q tile is done. */
  function Lost(t: QTile, mine: nat, top: bool): nat
    requires ValidQTile(t)
  {
    Walk(t, mine, top, t.from, Loss(0, true)).lost
  }

  // ----- when a mask reaches the output -----

  /**
    By how much the fill of a full inner Q tile runs over: its tokens' windows start on
    both sides of a KV tile boundary, and KV tiles are as narrow as the alignment.
   */
  function Overhang(t: QTile, o: nat): nat
    requires ValidQTile(t)
  {
    if t.window == NO_WINDOW || t.kvTile != t.align then 0
    else KvRanges.Max(0, Left(t, o) + t.maxTok - 1 - t.window - Boundary(t, o))
  }

  /** The first KV tile boundary after the window start of the inner tile's first token. */
  function Boundary(t: QTile, o: nat): (b: nat)
    requires ValidQTile(t)
    ensures b > 0 && Aligned(b, t.align)
  {
    AlignUp(KvRanges.Max(Left(t, o) - t.window, 0) + 1, t.align)
  }

  /** The largest overhang of the full inner Q tiles from `o` on. */
  function Damage(t: QTile, o: nat): nat
    requires ValidQTile(t)
    decreases t.num - o
  {
    if o + t.maxTok > t.num then 0 else KvRanges.Max(Overhang(t, o), Damage(t, o + t.maxTok)) as nat
  }

  lemma HitsAtMost(t: QTile, p: nat, o: nat)
    requires ValidQTile(t) && o < t.num && Executed(t, p, o) && Aligned(p, t.align)
    ensures Hits(t, p, o) <= if o + t.maxTok <= t.num then Overhang(t, o) else 0
  {
    hide Aligned; hide AlignDown; hide AlignUp; hide Overrun;
    var m := MaskOf(t, p, o);
    WalkFormsMask(t, p, o);
    OverrunIsSpill(m, t.maxTok * t.heads, t.kvTile);
    if Hits(t, p, o) > 0 {
      assert m.qNum == t.maxTok by { FullTile(m.qNum, t.maxTok, t.heads); }
      assert m.start == p && m.end == p + t.kvTile;
      assert t.kvTile == t.align by { NarrowTile(t, p, o); }
      BoundaryAtMost(t, o, m.end);
    }
  }

  lemma FullTile(n: nat, maxTok: nat, heads: nat)
    requires n <= maxTok && heads > 0 && n * heads == maxTok * heads
    ensures n == maxTok
  {
    Powers.Apart(maxTok - n, heads);
    assert (maxTok - n) * heads == maxTok * heads - n * heads;
  }

  lemma NarrowTile(t: QTile, p: nat, o: nat)
    requires ValidQTile(t) && o < t.num && Executed(t, p, o) && Aligned(p, t.align) && t.window != NO_WINDOW
    requires AlignDown(KvFrom(t, p, o), t.align) == p
    requires Left(t, o) + t.maxTok - 1 - t.window > p + t.kvTile
    ensures t.kvTile == t.align
  {
    hide Aligned;
    assert Left(t, o) - t.window < p + t.align;
    AlignedMultiple(0, t.align);
    AlignedGap(0, t.kvTile, t.align);
    if t.kvTile != t.align {
      AlignedMultiple(1, t.align);
      AlignedGap(t.align, t.kvTile, t.align);
    }
  }

  lemma BoundaryAtMost(t: QTile, o: nat, b: nat)
    requires ValidQTile(t) && Aligned(b, t.align) && b > 0 && Left(t, o) - t.window < b
    ensures Boundary(t, o) <= b
  {
    hide Aligned;
    AlignWithin(KvRanges.Max(Left(t, o) - t.window, 0) + 1, 0, b, t.align);
  }

  /** The KV range of an unsplit work item: from the window of the first token to past the last one. */
  ghost predicate WholeRange(t: QTile)
    requires ValidQTile(t)
  {
    t.from == AlignDown(KvLeft(0, t.start, t.window), t.align) && t.start + t.num <= t.end
  }

  /** The KV tile before the boundary is walked, the inner tile is executed on it, and overruns by the overhang. */
  lemma OverhangHits(t: QTile, o: nat)
    requires ValidQTile(t) && WholeRange(t) && o + t.maxTok <= t.num && Overhang(t, o) > 0
    ensures
      var p := Boundary(t, o) - t.align;
      && t.from <= p < t.end && Aligned(p, t.align) && Aligned(p - t.from, t.kvTile)
      && Executed(t, p, o) && Hits(t, p, o) == Overhang(t, o)
  {
    hide Aligned; hide AlignDown; hide AlignUp; hide Overrun;
    var b := Boundary(t, o);
    var p := b - t.align;
    AlignedMultiple(1, t.align);
    AlignedSum(b, t.align, t.align);
    BoundaryAfter(t, o);
    AlignedGap(t.from, b, t.align);
    AlignedSum(p, t.from, t.align);
    AlignedGap(p, t.end, t.align);
    assert KvFrom(t, p, o) < b == KvTo(t, p, o);
    var m := MaskOf(t, p, o);
    WalkFormsMask(t, p, o);
    AlignedGap(m.start, m.end, t.align);
    OverrunIsSpill(m, t.maxTok * t.heads, t.kvTile);
  }

  lemma BoundaryAfter(t: QTile, o: nat)
    requires ValidQTile(t) && WholeRange(t)
    ensures t.from < Boundary(t, o) && Left(t, o) - t.window < Boundary(t, o)
  {}

  /** On a row's own tiles after its first one, its inner tile cannot overrun any more. */
  lemma OwnHarmless(t: QTile, p: nat)
    requires ValidQTile(t) && Executed(t, p, 0) && Aligned(p, t.align)
    requires t.window != NO_WINDOW ==> t.start - t.window < p
    ensures Hits(t, p, 0) == 0
  {
    hide Aligned; hide AlignDown; hide AlignUp; hide Overrun;
    HitsAtMost(t, p, 0);
    var m := MaskOf(t, p, 0);
    WalkFormsMask(t, p, 0);
    OverrunIsSpill(m, t.maxTok * t.heads, t.kvTile);
    AlignedGap(m.start, m.end, t.align);
  }

  // ----- bounds over the walk -----

  lemma {:induction false} InnersKeep(t: QTile, mine: nat, top: bool, p: nat, o: nat, s: Loss)
    requires ValidQTile(t) && Aligned(p, t.align)
    ensures !s.first ==> !Inners(t, mine, top, p, o, s).first && s.lost <= Inners(t, mine, top, p, o, s).lost
    ensures !top && s.lost == 0 ==> Inners(t, mine, top, p, o, s).lost == 0
    decreases t.num - o
  {
    hide Hits; hide Aligned; hide Executed;
    if o < t.num {
      InnersKeep(t, mine, top, p, o + t.maxTok,
                 if Executed(t, p, o) then Hit(s, if top then Hits(t, p, o) else 0, o == mine) else s);
    }
  }

  lemma {:induction false} WalkKeeps(t: QTile, mine: nat, top: bool, p: nat, s: Loss)
    requires ValidQTile(t) && Aligned(p, t.align)
    ensures !s.first ==> !Walk(t, mine, top, p, s).first && s.lost <= Walk(t, mine, top, p, s).lost
    ensures !top && s.lost == 0 ==> Walk(t, mine, top, p, s).lost == 0
    decreases t.end - p
  {
    hide Inners; hide Aligned;
    if p < t.end {
      AlignedSum(p, t.kvTile, t.align);
      InnersKeep(t, mine, top, p, 0, s);
      WalkKeeps(t, mine, top, p + t.kvTile, Inners(t, mine, top, p, 0, s));
    }
  }

  /** Once row 0 has output, an executed inner tile after the first leaves its hit behind. */
  lemma {:induction false} InnersReach(t: QTile, p: nat, o: nat, s: Loss, target: nat)
    requires ValidQTile(t) && Aligned(p, t.align) && !s.first
    requires 0 < o <= target < t.num && Aligned(target - o, t.maxTok) && Executed(t, p, target)
    ensures Hits(t, p, target) <= Inners(t, 0, true, p, o, s).lost
    decreases t.num - o
  {
    hide Hits; hide Aligned; hide Executed;
    var s' := if Executed(t, p, o) then Hit(s, Hits(t, p, o), false) else s;
    if o == target {
      InnersKeep(t, 0, true, p, o + t.maxTok, s');
    } else {
      AlignedMultiple(0, t.maxTok);
      AlignedGap(0, target - o, t.maxTok);
      AlignedMultiple(1, t.maxTok);
      AlignedSum(target - o, t.maxTok, t.maxTok);
      InnersReach(t, p, o + t.maxTok, s', target);
    }
  }

  /** The same for the whole KV tile: row 0 must have output by then, or get it first. */
  lemma TileReach(t: QTile, p: nat, s: Loss, target: nat)
    requires ValidQTile(t) && Aligned(p, t.align) && (!s.first || Executed(t, p, 0))
    requires t.maxTok <= target < t.num && Aligned(target, t.maxTok) && Executed(t, p, target)
    ensures Hits(t, p, target) <= Inners(t, 0, true, p, 0, s).lost
    ensures !Inners(t, 0, true, p, 0, s).first
  {
    hide Hits; hide Executed; hide Aligned;
    var s' := if Executed(t, p, 0) then Hit(s, Hits(t, p, 0), true) else s;
    AlignedMultiple(1, t.maxTok);
    AlignedSum(target, t.maxTok, t.maxTok);
    InnersReach(t, p, t.maxTok, s', target);
    InnersKeep(t, 0, true, p, t.maxTok, s');
  }

  lemma OwnTile(t: QTile, mine: nat, top: bool, p: nat, o: nat, s: Loss)
    requires ValidQTile(t) && Aligned(p, t.align) && o <= mine < t.num && Executed(t, p, mine)
    requires Aligned(mine - o, t.maxTok)
    ensures !Inners(t, mine, top, p, o, s).first
    decreases t.num - o
  {
    hide Hits; hide Aligned; hide Executed;
    var s' := if Executed(t, p, o) then Hit(s, if top then Hits(t, p, o) else 0, o == mine) else s;
    if o == mine {
      InnersKeep(t, mine, top, p, o + t.maxTok, s');
    } else {
      AlignedMultiple(0, t.maxTok);
      AlignedGap(0, mine - o, t.maxTok);
      AlignedMultiple(1, t.maxTok);
      AlignedSum(mine - o, t.maxTok, t.maxTok);
      OwnTile(t, mine, top, p, o + t.maxTok, s');
    }
  }

  /** A hit at KV tile `to` survives to the end, if row 0 has its first tile at `own`, no later. */
  lemma {:induction false} WalkReaches(t: QTile, p: nat, s: Loss, own: nat, to: nat, target: nat)
    requires ValidQTile(t) && Aligned(p, t.align) && p <= to < t.end && Aligned(to - p, t.kvTile)
    requires Aligned(to, t.align)
    requires s.first ==> p <= own <= to && Aligned(own - p, t.kvTile) && Executed(t, own, 0)
    requires t.maxTok <= target < t.num && Aligned(target, t.maxTok) && Executed(t, to, target)
    ensures Hits(t, to, target) <= Walk(t, 0, true, p, s).lost
    decreases t.end - p
  {
    hide Hits; hide Aligned; hide Executed; hide Inners;
    AlignedSum(p, t.kvTile, t.align);
    var s' := Inners(t, 0, true, p, 0, s);
    InnersKeep(t, 0, true, p, 0, s);
    if s.first && own == p {
      AlignedMultiple(0, t.maxTok);
      OwnTile(t, 0, true, p, 0, s);
    }
    if p == to {
      TileReach(t, p, s, target);
      WalkKeeps(t, 0, true, p + t.kvTile, s');
    } else {
      NextStep(p, to, t.kvTile);
      if s'.first { NextStep(p, own, t.kvTile); }
      WalkReaches(t, p + t.kvTile, s', own, to, target);
    }
  }

  lemma NextStep(p: nat, q: nat, w: nat)
    requires w > 0 && p < q && Aligned(q - p, w)
    ensures p + w <= q && Aligned(q - (p + w), w)
  {
    hide Aligned;
    AlignedMultiple(0, w);
    AlignedGap(0, q - p, w);
    AlignedMultiple(1, w);
    AlignedSum(q - p, w, w);
    assert q - (p + w) == (q - p) - w;
  }

  /** Row 0 with output has been through a KV tile its first token's window reaches. */
  ghost predicate Bounded0(t: QTile, p: int, s: Loss)
    requires ValidQTile(t)
  {
    !s.first ==> s.lost <= Damage(t, t.maxTok) && (t.window != NO_WINDOW ==> t.start - t.window < p)
  }

  lemma {:induction false} InnersUpper(t: QTile, p: nat, o: nat, s: Loss)
    requires ValidQTile(t) && Aligned(p, t.align) && o > 0 && Damage(t, o) <= Damage(t, t.maxTok)
    requires Bounded0(t, p + t.kvTile, s)
    ensures Bounded0(t, p + t.kvTile, Inners(t, 0, true, p, o, s))
    decreases t.num - o
  {
    hide Hits; hide Aligned; hide Executed; hide Overhang;
    if o < t.num {
      if Executed(t, p, o) { HitsAtMost(t, p, o); }
      InnersUpper(t, p, o + t.maxTok, if Executed(t, p, o) then Hit(s, Hits(t, p, o), false) else s);
    }
  }

  lemma TileUpper(t: QTile, p: nat, s: Loss)
    requires ValidQTile(t) && Aligned(p, t.align) && Bounded0(t, p, s)
    ensures Bounded0(t, p + t.kvTile, Inners(t, 0, true, p, 0, s))
  {
    hide Hits; hide Aligned; hide Damage;
    if Executed(t, p, 0) && !s.first { OwnHarmless(t, p); }
    var s' := if Executed(t, p, 0) then Hit(s, Hits(t, p, 0), true) else s;
    assert Bounded0(t, p + t.kvTile, s');
    InnersUpper(t, p, t.maxTok, s');
  }

  lemma {:induction false} WalkUpper(t: QTile, p: nat, s: Loss)
    requires ValidQTile(t) && Aligned(p, t.align) && Bounded0(t, p, s)
    ensures !Walk(t, 0, true, p, s).first ==> Walk(t, 0, true, p, s).lost <= Damage(t, t.maxTok)
    decreases t.end - p
  {
    hide Inners; hide Aligned; hide Damage;
    if p < t.end {
      AlignedSum(p, t.kvTile, t.align);
      TileUpper(t, p, s);
      WalkUpper(t, p + t.kvTile, Inners(t, 0, true, p, 0, s));
    }
  }

  /** A row whose token the walk reaches gets its first tile. */
  lemma {:induction false} WalkStarts(t: QTile, mine: nat, top: bool, p: nat, s: Loss)
    requires ValidQTile(t) && Aligned(p, t.align) && mine < t.num && Aligned(mine, t.maxTok)
    requires p <= Left(t, mine) < t.end
    ensures !Walk(t, mine, top, p, s).first
    decreases t.end - p
  {
    hide Inners; hide Aligned;
    AlignedSum(p, t.kvTile, t.align);
    if Left(t, mine) < p + t.kvTile {
      assert Executed(t, p, mine);
      AlignedMultiple(0, t.maxTok);
      OwnTile(t, mine, top, p, 0, s);
      WalkKeeps(t, mine, top, p + t.kvTile, Inners(t, mine, top, p, 0, s));
    } else {
      WalkStarts(t, mine, top, p + t.kvTile, Inners(t, mine, top, p, 0, s));
    }
  }

  lemma {:induction false} WalkLower(t: QTile, o: nat)
    requires ValidQTile(t) && WholeRange(t) && t.maxTok <= o && Aligned(o, t.maxTok)
    ensures Damage(t, o) <= Lost(t, 0, true)
    decreases t.num - o
  {
    hide Aligned; hide Walk; hide Hits; hide AlignDown; hide AlignUp; hide Executed;
    if o + t.maxTok <= t.num {
      AlignedMultiple(1, t.maxTok);
      AlignedSum(o, t.maxTok, t.maxTok);
      WalkLower(t, o + t.maxTok);
      if Overhang(t, o) > 0 {
        OverhangHits(t, o);
        var to := Boundary(t, o) - t.align;
        var own := FirstOwn(t, o, to);
        WalkReaches(t, t.from, Loss(0, true), own, to, o);
      }
    }
  }

  /** Row 0 has a tile of its own no later than the KV tile on which a later inner tile overruns. */
  lemma FirstOwn(t: QTile, o: nat, to: nat) returns (own: nat)
    requires ValidQTile(t) && WholeRange(t) && t.kvTile == t.align && t.window != NO_WINDOW && t.maxTok <= o < t.num
    requires t.from <= to < t.end && Aligned(to, t.align) && Executed(t, to, o)
    ensures t.from <= own <= to && Aligned(own - t.from, t.kvTile) && Executed(t, own, 0)
  {
    hide Aligned; hide AlignUp;
    if to < Right(t, 0) {
      own := to;
    } else {
      own := AlignDown(t.start, t.align);
      AlignWithin(t.start, t.from, t.end, t.align);
      AlignedGap(own, t.end, t.align);
      AlignedGap(own, to, t.align);
    }
    AlignedSum(own, t.from, t.align);
    AlignedGap(to, t.end, t.align);
  }

  /** Exactly the largest overhang of the later full inner tiles is lost, in row 0 alone. */
  lemma LostIs(t: QTile)
    requires ValidQTile(t) && WholeRange(t)
    ensures Lost(t, 0, true) == Damage(t, t.maxTok)
  {
    hide Aligned; hide Walk; hide Damage; hide AlignDown;
    AlignedMultiple(0, t.maxTok);
    AlignedMultiple(1, t.maxTok);
    FromBefore(t);
    WalkStarts(t, 0, true, t.from, Loss(0, true));
    WalkUpper(t, t.from, Loss(0, true));
    WalkLower(t, t.maxTok);
  }

  lemma FromBefore(t: QTile)
    requires ValidQTile(t) && WholeRange(t)
    ensures t.from <= t.start < t.end
  {}

  lemma OthersLoseNothing(t: QTile, mine: nat)
    requires ValidQTile(t)
    ensures Lost(t, mine, false) == 0
  {
    WalkKeeps(t, mine, false, t.from, Loss(0, true));
  }

  /** A Q tile of a single iteration loses nothing either, whatever its KV range. */
  lemma {:induction false} OneIteration(t: QTile, p: nat, s: Loss)
    requires ValidQTile(t) && Aligned(p, t.align) && t.num <= t.maxTok && s.lost == 0 && Bounded0(t, p, s)
    ensures Walk(t, 0, true, p, s).lost == 0
    decreases t.end - p
  {
    hide Aligned; hide Damage;
    if p < t.end {
      AlignedSum(p, t.kvTile, t.align);
      if Executed(t, p, 0) && !s.first { OwnHarmless(t, p); }
      TileUpper(t, p, s);
      var s' := if Executed(t, p, 0) then Hit(s, Hits(t, p, 0), true) else s;
      assert Inners(t, 0, true, p, t.maxTok, s') == s';
      OneIteration(t, p + t.kvTile, s');
    }
  }

  /** Nothing is lost without a window, or with KV tiles wider than the alignment. */
  lemma {:induction false} NoDamage(t: QTile, o: nat)
    requires ValidQTile(t) && (t.window == NO_WINDOW || t.kvTile != t.align)
    ensures Damage(t, o) == 0
    decreases t.num - o
  {
    if o + t.maxTok <= t.num { NoDamage(t, o + t.maxTok); }
  }

  /**
    It does happen: float32 on the vector kernel, head dimension 256, 256 KiB of level-2
    cache of which half is used, 24 new tokens at positions 100 to 123, a left window of 46.
    On the KV tile [32, 64) the inner tile of positions 108 to 115 fills 37 columns of its
    last row of 32, after row 0 (position 100) has stored its output for that KV tile.
   */
  lemma LossCase()
    ensures ValidQTile(LOSSY) && WholeRange(LOSSY) && Executed(LOSSY, 32, 0)
    ensures Executed(LOSSY, 32, 8) && MaskOf(LOSSY, 32, 8) == Mask(108, 8, 1, 32, 64, 46)
    ensures Hits(LOSSY, 32, 8) == 5 && Lost(LOSSY, 0, true) == 5
  {
    assert Aligned(32, 32) && Aligned(128, 32);
    LossDamage();
    LostIs(LOSSY);
    LossMask();
    hide Lost; hide Overrun;
    OverrunIsSpill(Mask(108, 8, 1, 32, 64, 46), 8, 32);
  }

  const LOSSY := QTile(100, 24, 8, 1, 32, 32, 46, 32, 128)

  lemma LossMask()
    ensures ValidQTile(LOSSY) && Executed(LOSSY, 32, 8) && MaskOf(LOSSY, 32, 8) == Mask(108, 8, 1, 32, 64, 46)
  {
    assert AlignDown(62, 32) == 32 && AlignUp(64, 32) == 64;
  }

  lemma LossDamage()
    ensures ValidQTile(LOSSY) && Damage(LOSSY, 8) == 5
  {
    assert AlignUp(63, 32) == 64 && AlignUp(71, 32) == 96;
    assert Overhang(LOSSY, 8) == 5 && Overhang(LOSSY, 16) == 0;
    assert Damage(LOSSY, 24) == 0;
    assert Damage(LOSSY, 16) == 0;
  }

  /** These are the tile sizes the cache model gives there. */
  lemma LossSizes()
    ensures
      var k, cache := Scratchpad.Kernel(8, 32, 4, 4, 256), 128 * 1024;
      && Scratchpad.Dispatched(k) && Scratchpad.DefaultTile(k, cache) == LOSSY.num
      && Scratchpad.KvTile(k, cache, LOSSY.num) == LOSSY.kvTile
  {}

  // ----- the loops -----

  /** apply_mask past the end of the logits buffer: minus infinity in the first n output elements of row 0. */
  method Overwrite(out: array<Cell>, n: nat, ghost row: seq<real>, ghost lost: nat)
    requires n <= out.Length == |row|
    modifies out
    ensures old(out[..]) == Shown(row, lost) ==> out[..] == Shown(row, KvRanges.Max(lost, n))
  {
    for d := 0 to n
      invariant forall i :: 0 <= i < out.Length ==> out[i] == if i < d then NegInf else old(out[i])
    {
      out[d] := NegInf;
    }
    if old(out[..]) == Shown(row, lost) {
      forall i | 0 <= i < out.Length ensures out[i] == Shown(row, KvRanges.Max(lost, n))[i] {
        assert old(out[..])[i] == Shown(row, lost)[i];
      }
    }
  }

  /** The row in the middle of the walk: `r` its exact state, `s` what it has lost. */
  ghost predicate RowIs(out: seq<Cell>, base: real, sum: real, r: Row, s: Loss) {
    base == r.base && sum == r.sum && |out| == |r.out| && (s.first || out == Shown(r.out, s.lost))
  }

  /** What one row's own tile on the KV tile from `p` makes of it. */
  function OwnStep(exp: real -> real, t: QTile, q: Query, mine: nat, p: nat, r: Row, first: bool): (r': Row)
    requires ValidQTile(t) && mine < t.num && ValuesShaped(q, |r.out|)
    ensures |r'.out| == |r.out|
  {
    if Executed(t, p, mine) then
      TileStep(exp, r, MaskedTile(q, AlignDown(KvFrom(t, p, mine), t.align), AlignUp(KvTo(t, p, mine), t.align)),
               first, |r.out|)
    else r
  }

  /** Mask, softmax and P.V of the row's own inner tile. */
  method OwnTileStep(exp: real -> real, t: QTile, mine: nat, q: Query, p: nat, out: array<Cell>,
                     base0: real, sum0: real, first: bool, ghost r: Row, ghost lost: nat)
    returns (base: real, sum: real)
    requires ValidQTile(t) && mine < t.num && Executed(t, p, mine) && ValuesShaped(q, out.Length)
    requires base0 == r.base && sum0 == r.sum && |r.out| == out.Length && (first || out[..] == Shown(r.out, lost))
    modifies out
    ensures RowIs(out[..], base, sum, OwnStep(exp, t, q, mine, p, r, first), Loss(if first then 0 else lost, false))
  {
    hide Aligned; hide TileStep; hide AlignDown; hide AlignUp; hide Shown; hide CellAt;
    var a, b := AlignDown(KvFrom(t, p, mine), t.align), AlignUp(KvTo(t, p, mine), t.align);
    var vals := RangeVals(q, a, b);
    var logits := new Cell[b - a](i requires 0 <= i < b - a => CellAt(q, a + i));
    MaskedTileIsRange(q, a, b);
    assert logits[..] == MaskedTile(q, a, b).cells && MaskedTile(q, a, b).vals == vals;
    base, sum := AttendTile(exp, logits, vals, out, base0, sum0, first, r.out, lost);
  }

  /** Lines 1630-1720: the inner Q tiles on one KV tile, for one row. */
  method InnerLoop(exp: real -> real, t: QTile, mine: nat, top: bool, q: Query, p: nat, out: array<Cell>,
                   base0: real, sum0: real, first0: bool, ghost r: Row, ghost s: Loss)
    returns (base: real, sum: real, first: bool)
    requires ValidQTile(t) && Aligned(p, t.align) && mine < t.num && Aligned(mine, t.maxTok) && first0 == s.first
    requires out.Length >= t.maxTok && ValuesShaped(q, out.Length) && RowIs(out[..], base0, sum0, r, s)
    modifies out
    ensures RowIs(out[..], base, sum, OwnStep(exp, t, q, mine, p, r, s.first), Inners(t, mine, top, p, 0, s))
    ensures first == Inners(t, mine, top, p, 0, s).first == (s.first && !Executed(t, p, mine))
  {
    hide Aligned; hide TileStep; hide AlignDown; hide AlignUp; hide Shown; hide Hits; hide OwnStep; hide Executed;
    base, sum, first := base0, sum0, first0;
    var o: nat := 0;
    ghost var r', s' := r, s;
    AlignedMultiple(0, t.maxTok);
    while o < t.num
      invariant Aligned(o, t.maxTok) && first == s'.first
      invariant r' == if mine < o then OwnStep(exp, t, q, mine, p, r, s.first) else r
      invariant s'.first == (s.first && (mine < o ==> !Executed(t, p, mine)))
      invariant Inners(t, mine, top, p, o, s') == Inners(t, mine, top, p, 0, s)
      invariant RowIs(out[..], base, sum, r', s')
      decreases t.num - o
    {
      if Executed(t, p, o) {
        ghost var lost := KvRanges.Max(s'.lost, if top then Hits(t, p, o) else 0);
        if top { Overwrite(out, Hits(t, p, o), r'.out, s'.lost); }
        assert s'.first || out[..] == Shown(r'.out, lost);
        if o == mine {
          base, sum := OwnTileStep(exp, t, mine, q, p, out, base, sum, first, r', lost);
          r' := OwnStep(exp, t, q, mine, p, r, s.first);
          first := false;
        }
        s' := Hit(s', if top then Hits(t, p, o) else 0, o == mine);
      } else if o == mine {
        SkippedStep(exp, t, q, mine, p, r, s.first);
      }
      AlignedMultiple(1, t.maxTok);
      AlignedSum(o, t.maxTok, t.maxTok);
      if o < mine { AlignedGap(o, mine, t.maxTok); }
      o := o + t.maxTok;
    }
  }

  lemma SkippedStep(exp: real -> real, t: QTile, q: Query, mine: nat, p: nat, r: Row, first: bool)
    requires ValidQTile(t) && mine < t.num && ValuesShaped(q, |r.out|) && !Executed(t, p, mine)
    ensures OwnStep(exp, t, q, mine, p, r, first) == r
  {}

  lemma TileShaped(q: Query, a: int, b: int, dim: nat)
    requires a <= b && ValuesShaped(q, dim)
    ensures ValidTile(MaskedTile(q, a, b), dim)
  {}

  /** The query belongs to a token of the inner tile `mine`. */
  ghost predicate OwnQuery(t: QTile, mine: nat, q: Query) {
    mine < t.num && Left(t, mine) <= q.pos < Right(t, mine) && q.window == t.window
  }

  /** Lines 1587-1723 for one row, in place: the output may hold anything before, and minus infinities after. */
  method AttendRange(exp: real -> real, t: QTile, mine: nat, top: bool, q: Query, sink: Sink, lowest: real,
                     out: array<Cell>, ghost garbage: seq<real>) returns (base: real, sum: real, first: bool)
    requires ValidQTile(t) && Aligned(mine, t.maxTok) && OwnQuery(t, mine, q)
    requires out.Length >= t.maxTok && ValuesShaped(q, out.Length) && |garbage| == out.Length
    modifies out
    ensures
      var g := InnerGeometry(t, mine);
      && ValidGeometry(g, q) && ValidTiles(Tiles(g, q, t.from, t.end), |garbage|)
      && first == (Tiles(g, q, t.from, t.end) == [])
      && var r := Pass(exp, InitRow(sink, lowest, garbage), Tiles(g, q, t.from, t.end), |garbage|);
         base == r.base && sum == r.sum && (first || out[..] == Shown(r.out, Lost(t, mine, top)))
  {
    hide Aligned; hide AlignDown; hide AlignUp; hide TileStep; hide Pass; hide MaskedTile; hide Tiles; hide Shown;
    hide Inners; hide Walk;
    ghost var g, dim, done, s := InnerGeometry(t, mine), out.Length, [], Loss(0, true);
    ghost var all := Tiles(g, q, t.from, t.end);
    ghost var r := InitRow(sink, lowest, garbage);
    ghost var init := r;
    WalkShaped(g, q, t.from, t.end, dim);
    PassOfNone(exp, init, dim);
    base, sum, first := InitBase(sink, lowest), InitSum(sink), true;
    var p := t.from;
    while p < t.end
      invariant Aligned(p, t.align)
      invariant ValidTiles(done, dim) && done + Tiles(g, q, p, t.end) == all && r == Pass(exp, init, done, dim)
      invariant first == s.first == (done == [])
      invariant Walk(t, mine, top, p, s) == Walk(t, mine, top, t.from, Loss(0, true))
      invariant RowIs(out[..], base, sum, r, s)
      decreases t.end - p
    {
      AlignedSum(p, t.kvTile, t.align);
      TilesStep(g, q, p, t.end);
      WalkStep(t, mine, top, p, s);
      base, sum, first := InnerLoop(exp, t, mine, top, q, p, out, base, sum, first, r, s);
      ghost var r' := OwnStep(exp, t, q, mine, p, r, s.first);
      if Executed(t, p, mine) {
        ghost var tile := MaskedTile(q, AlignDown(KvFrom(t, p, mine), t.align), AlignUp(KvTo(t, p, mine), t.align));
        TileShaped(q, AlignDown(KvFrom(t, p, mine), t.align), AlignUp(KvTo(t, p, mine), t.align), dim);
        PassAppend(exp, init, done, tile, dim);
        done := done + [tile];
      }
      r, s := r', Inners(t, mine, top, p, 0, s);
      p := p + t.kvTile;
    }
    TilesStep(g, q, p, t.end);
    WalkStep(t, mine, top, p, s);
    assert done == all;
  }

  function InitBase(sink: Sink, lowest: real): real { if sink.Sink? then sink.logit else lowest }

  function InitSum(sink: Sink): real { if sink.Sink? then 1.0 else 0.0 }

  lemma WalkStep(t: QTile, mine: nat, top: bool, p: nat, s: Loss)
    requires ValidQTile(t) && Aligned(p, t.align)
    ensures p >= t.end ==> Walk(t, mine, top, p, s) == s
    ensures p < t.end ==>
              && Aligned(p + t.kvTile, t.align)
              && Walk(t, mine, top, p, s) == Walk(t, mine, top, p + t.kvTile, Inners(t, mine, top, p, 0, s))
  {
    hide Aligned; hide Inners;
    AlignedSum(p, t.kvTile, t.align);
  }
}
