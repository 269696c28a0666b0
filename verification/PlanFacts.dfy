/**
  What a plan that covers the requests says about the emitted vectors, position by
  position: which unit a token, a work item, a split id or a reduction item belongs
  to, and that there is exactly one.
 */
module PlanFacts {
  import opened KvRanges
  import opened Scheduler
  import opened Flatten

  // ----- the emitted vectors as concatenations -----

  function ItemParts(us: seq<Unit>): (p: seq<seq<Item>>)
    ensures |p| == |us|
  {
    seq(|us|, u requires 0 <= u < |us| => UnitItems(us[u], SplitCount(us[..u])))
  }

  function MarksOf(u: Unit): seq<int> { if u.Split? then u.marks else [] }

  function MarkParts(us: seq<Unit>): (p: seq<seq<int>>)
    ensures |p| == |us|
  {
    seq(|us|, u requires 0 <= u < |us| => MarksOf(us[u]))
  }

  function ReductionOf(u: Unit, base: nat): seq<Reduction> {
    if u.Split? then [Reduction(u.req, u.qStart, u.qNum, base, |u.marks|)] else []
  }

  function ReductionParts(us: seq<Unit>): (p: seq<seq<Reduction>>)
    ensures |p| == |us|
  {
    seq(|us|, u requires 0 <= u < |us| => ReductionOf(us[u], SplitCount(us[..u])))
  }

  lemma {:induction false} ItemsFlattened(us: seq<Unit>)
    ensures Render(us) == Flat(ItemParts(us))
  {
    hide UnitItems; hide SplitCount;
    if us != [] {
      var n := |us| - 1;
      ItemsFlattened(us[..n]);
      forall u | 0 <= u < n ensures us[..n][..u] == us[..u] {}
      assert ItemParts(us)[..n] == ItemParts(us[..n]);
    }
  }

  lemma {:induction false} MarksFlattened(us: seq<Unit>)
    ensures SplitCount(us) == |Flat(MarkParts(us))|
  {
    if us != [] {
      var n := |us| - 1;
      MarksFlattened(us[..n]);
      assert MarkParts(us)[..n] == MarkParts(us[..n]);
    }
  }

  lemma {:induction false} ReductionsFlattened(us: seq<Unit>)
    ensures Reductions(us) == Flat(ReductionParts(us))
  {
    hide SplitCount;
    if us != [] {
      var n := |us| - 1;
      ReductionsFlattened(us[..n]);
      forall u | 0 <= u < n ensures us[..n][..u] == us[..u] {}
      assert ReductionParts(us)[..n] == ReductionParts(us[..n]);
    }
  }

  lemma Flattened(us: seq<Unit>)
    ensures Render(us) == Flat(ItemParts(us))
    ensures SplitCount(us) == |Flat(MarkParts(us))|
    ensures Reductions(us) == Flat(ReductionParts(us))
  {
    ItemsFlattened(us);
    MarksFlattened(us);
    ReductionsFlattened(us);
  }

  lemma SplitStart(us: seq<Unit>, u: nat)
    requires u <= |us|
    ensures SplitCount(us[..u]) == Start(MarkParts(us), u)
  {
    Flattened(us[..u]);
    assert MarkParts(us)[..u] == MarkParts(us[..u]);
  }

  /** Where item `j` of unit `u` sits among the work items. */
  function ItemIndex(us: seq<Unit>, u: nat, j: nat): nat
    requires u < |us|
  {
    Start(ItemParts(us), u) + j
  }

  lemma ItemAt(us: seq<Unit>, u: nat, j: nat)
    requires u < |us| && j < |UnitItems(us[u], SplitCount(us[..u]))|
    ensures ItemIndex(us, u, j) < |Render(us)|
    ensures Render(us)[ItemIndex(us, u, j)] == UnitItems(us[u], SplitCount(us[..u]))[j]
  {
    hide Flat; hide Render; hide SplitCount; hide Reductions; hide UnitItems;
    Flattened(us);
    FlatAt(ItemParts(us), u, j);
  }

  lemma ItemUnit(us: seq<Unit>, x: nat) returns (u: nat, j: nat)
    requires x < |Render(us)|
    ensures u < |us| && j < |UnitItems(us[u], SplitCount(us[..u]))| && x == ItemIndex(us, u, j)
    ensures Render(us)[x] == UnitItems(us[u], SplitCount(us[..u]))[j]
  {
    Flattened(us);
    u, j := Locate(ItemParts(us), x);
  }

  /** Every split id below the total was given to exactly one work item. */
  lemma SplitItemExists(us: seq<Unit>, s: nat) returns (u: nat, j: nat)
    requires s < SplitCount(us)
    ensures u < |us| && us[u].Split? && j < |us[u].marks| && s == SplitCount(us[..u]) + j
    ensures ItemIndex(us, u, j) < |Render(us)|
    ensures Render(us)[ItemIndex(us, u, j)] == SplitItem(us[u], SplitCount(us[..u]), j)
  {
    Flattened(us);
    u, j := Locate(MarkParts(us), s);
    SplitStart(us, u);
    ItemAt(us, u, j);
  }

  lemma SplitPlaceUnique(us: seq<Unit>, u: nat, j: nat, u': nat, j': nat)
    requires u < |us| && us[u].Split? && j < |us[u].marks|
    requires u' < |us| && us[u'].Split? && j' < |us[u'].marks|
    requires SplitCount(us[..u]) + j == SplitCount(us[..u']) + j'
    ensures u == u' && j == j'
  {
    SplitStart(us, u);
    SplitStart(us, u');
    PositionsDiffer(MarkParts(us), u, j, u', j');
  }

  lemma SplitItemUnique(us: seq<Unit>, x: nat, y: nat)
    requires x < |Render(us)| && y < |Render(us)|
    requires Render(us)[x].splitId == Render(us)[y].splitId >= 0
    ensures x == y
  {
    var u, j := ItemUnit(us, x);
    var u', j' := ItemUnit(us, y);
    SplitPlaceUnique(us, u, j, u', j');
  }

  lemma SplitIdBelow(us: seq<Unit>, x: nat)
    requires x < |Render(us)|
    ensures -1 <= Render(us)[x].splitId < SplitCount(us)
  {
    var u, j := ItemUnit(us, x);
    if us[u].Split? {
      Flattened(us);
      SplitStart(us, u);
      FlatAt(MarkParts(us), u, j);
    }
  }

  lemma ReductionUnit(us: seq<Unit>, m: nat) returns (u: nat)
    requires m < |Reductions(us)|
    ensures u < |us| && us[u].Split? && m == Start(ReductionParts(us), u)
    ensures Reductions(us)[m] == Reduction(us[u].req, us[u].qStart, us[u].qNum, SplitCount(us[..u]), |us[u].marks|)
  {
    Flattened(us);
    var j;
    u, j := Locate(ReductionParts(us), m);
  }

  lemma ReductionAt(us: seq<Unit>, u: nat) returns (m: nat)
    requires u < |us| && us[u].Split?
    ensures m < |Reductions(us)| && m == Start(ReductionParts(us), u)
    ensures Reductions(us)[m] == Reduction(us[u].req, us[u].qStart, us[u].qNum, SplitCount(us[..u]), |us[u].marks|)
  {
    Flattened(us);
    FlatAt(ReductionParts(us), u, 0);
    m := Start(ReductionParts(us), u);
  }

  /** The id range of a reduction lies below the total, and the ranges partition it. */
  lemma ReductionRange(us: seq<Unit>, m: nat)
    requires m < |Reductions(us)|
    ensures Reductions(us)[m].splitStart + Reductions(us)[m].splitNum <= SplitCount(us)
  {
    var u := ReductionUnit(us, m);
    Flattened(us);
    SplitStart(us, u);
    StartNext(MarkParts(us), u);
    StartMonotone(MarkParts(us), u + 1, |us|);
    StartEnd(MarkParts(us));
  }

  lemma ReductionsDisjoint(us: seq<Unit>, m: nat, j: nat, m': nat, j': nat)
    requires m < |Reductions(us)| && m' < |Reductions(us)|
    requires j < Reductions(us)[m].splitNum && j' < Reductions(us)[m'].splitNum
    requires Reductions(us)[m].splitStart + j == Reductions(us)[m'].splitStart + j'
    ensures m == m' && j == j'
  {
    var u := ReductionUnit(us, m);
    var u' := ReductionUnit(us, m');
    SplitPlaceUnique(us, u, j, u', j');
  }

  lemma ReductionOfSplit(us: seq<Unit>, s: nat) returns (m: nat, j: nat)
    requires s < SplitCount(us)
    ensures m < |Reductions(us)| && j < Reductions(us)[m].splitNum && s == Reductions(us)[m].splitStart + j
  {
    var u;
    u, j := SplitItemExists(us, s);
    m := ReductionAt(us, u);
  }

  // ----- exact cover -----

  predicate Covers(u: Unit, r: nat, tok: nat) { u.req == r && u.qStart <= tok < u.qStart + u.qNum }

  lemma {:induction false} UnitsValid(c: Config, us: seq<Unit>, r: nat, tok: nat, k: nat)
    requires ValidConfig(c) && r <= |c.reqs| && Tiled(c, us, r, tok) && k < |us|
    ensures ValidUnit(c, us[k])
    ensures us[k].req < r || (us[k].req == r && us[k].qStart + us[k].qNum <= tok)
    decreases r, tok
  {
    if tok > 0 {
      var n := |us| - 1;
      if k < n { UnitsValid(c, us[..n], r, us[n].qStart, k); }
    } else if r > 0 {
      UnitsValid(c, us, r - 1, c.reqs[r - 1].qNum, k);
    }
  }

  lemma {:induction false} UnitsOrdered(c: Config, us: seq<Unit>, r: nat, tok: nat, k: nat, l: nat)
    requires ValidConfig(c) && r <= |c.reqs| && Tiled(c, us, r, tok) && k < l < |us|
    ensures us[k].req < us[l].req || (us[k].req == us[l].req && us[k].qStart + us[k].qNum <= us[l].qStart)
    decreases r, tok
  {
    if tok > 0 {
      var n := |us| - 1;
      if l < n {
        UnitsOrdered(c, us[..n], r, us[n].qStart, k, l);
      } else {
        UnitsValid(c, us[..n], r, us[n].qStart, k);
      }
    } else if r > 0 {
      UnitsOrdered(c, us, r - 1, c.reqs[r - 1].qNum, k, l);
    }
  }

  lemma {:induction false} CoverExists(c: Config, us: seq<Unit>, r: nat, tok: nat, r': nat, tok': nat) returns (k: nat)
    requires ValidConfig(c) && r <= |c.reqs| && Tiled(c, us, r, tok)
    requires (r' < r && tok' < c.reqs[r'].qNum) || (r' == r && tok' < tok)
    ensures k < |us| && Covers(us[k], r', tok')
    decreases r, tok
  {
    if tok > 0 {
      var n := |us| - 1;
      if Covers(us[n], r', tok') { k := n; } else { k := CoverExists(c, us[..n], r, us[n].qStart, r', tok'); }
    } else {
      k := CoverExists(c, us, r - 1, c.reqs[r - 1].qNum, r', tok');
    }
  }

  /** Each token of each request belongs to exactly one unit. */
  lemma ExactCover(c: Config, us: seq<Unit>, r: nat, tok: nat) returns (k: nat)
    requires ValidConfig(c) && Tiled(c, us, |c.reqs|, 0) && TileAt(c, r, tok)
    ensures k < |us| && Covers(us[k], r, tok) && ValidUnit(c, us[k])
    ensures forall l :: 0 <= l < |us| && Covers(us[l], r, tok) ==> l == k
  {
    k := CoverExists(c, us, |c.reqs|, 0, r, tok);
    UnitsValid(c, us, |c.reqs|, 0, k);
    forall l | 0 <= l < |us| && Covers(us[l], r, tok) ensures l == k {
      if l < k { UnitsOrdered(c, us, |c.reqs|, 0, l, k); }
      if k < l { UnitsOrdered(c, us, |c.reqs|, 0, k, l); }
    }
  }

  // ----- KV ranges -----

  /** The splits of a tile follow each other from its aligned start to the end of the sequence. */
  lemma SplitRanges(c: Config, u: Unit, base: nat, j: nat)
    requires ValidConfig(c) && u.Split? && ValidUnit(c, u) && j < |u.marks|
    ensures |u.marks| >= 2
    ensures
      var it := SplitItem(u, base, j);
      && it.localId == j && it.splitId == base + j
      && Aligned(it.kvStart, c.align) && it.kvStart < it.kvEnd
      && (j == 0 ==> it.kvStart == TileLeft(c, u.req, u.qStart))
      && (if j + 1 < |u.marks| then it.kvEnd == SplitItem(u, base, j + 1).kvStart else it.kvEnd == c.reqs[u.req].seqLen)
  {
    hide Aligned;
    if j + 1 == |u.marks| { AlignedGap(u.marks[j], u.right, c.align); }
  }

  /** A position from that start on lies in the range of exactly one split. */
  lemma {:induction false} SplitOfPosition(c: Config, u: Unit, base: nat, pos: int, n: nat) returns (j: nat)
    requires ValidConfig(c) && u.Split? && ValidUnit(c, u) && n < |u.marks|
    requires TileLeft(c, u.req, u.qStart) <= pos < SplitItem(u, base, n).kvEnd
    ensures j <= n && SplitItem(u, base, j).kvStart <= pos < SplitItem(u, base, j).kvEnd
    decreases n
  {
    hide Aligned; hide ValidMarks;
    SplitRanges(c, u, base, n);
    j := n;
    if pos < u.marks[n] {
      if n == 0 { assert false; }
      SplitRanges(c, u, base, n - 1);
      j := SplitOfPosition(c, u, base, pos, n - 1);
    }
  }

  lemma SplitOfPositionUnique(c: Config, u: Unit, base: nat, pos: int, i: nat, j: nat)
    requires ValidConfig(c) && u.Split? && ValidUnit(c, u) && i < |u.marks| && j < |u.marks|
    requires SplitItem(u, base, i).kvStart <= pos < SplitItem(u, base, i).kvEnd
    requires SplitItem(u, base, j).kvStart <= pos < SplitItem(u, base, j).kvEnd
    ensures i == j
  {
    hide Aligned;
    var left := TileLeft(c, u.req, u.qStart);
    if i + 1 < j { MarksIncrease(c, u.marks, left, u.right, i + 1, j); }
    if j + 1 < i { MarksIncrease(c, u.marks, left, u.right, j + 1, i); }
  }

  /** Work item `it` makes token `tok` of request `r` look at KV position `pos`. */
  predicate Assigns(it: Item, r: nat, tok: nat, pos: int) {
    it.req == r && it.qStart <= tok < it.qStart + it.qNum && it.kvStart <= pos < it.kvEnd
  }

  /** Every position a token may attend to is assigned by exactly one work item. */
  lemma AssignedOnce(c: Config, m: Metadata, us: seq<Unit>, r: nat, tok: nat, pos: int) returns (x: nat)
    requires ValidConfig(c) && Implements(c, m, us) && TileAt(c, r, tok)
    requires KvLeft(0, QPos(c, r, tok), c.window) <= pos <= QPos(c, r, tok)
    ensures x < |m.items| && Assigns(m.items[x], r, tok, pos)
    ensures forall y :: 0 <= y < |m.items| && Assigns(m.items[y], r, tok, pos) ==> y == x
  {
    hide Aligned; hide Render; hide Tiled; hide Reductions; hide SplitCount; hide ItemIndex;
    var k := ExactCover(c, us, r, tok);
    var u, base := us[k], SplitCount(us[..k]);
    var j: nat := 0;
    if u.Split? {
      SplitRanges(c, u, base, |u.marks| - 1);
      StartsBefore(c, r, u.qStart, tok);
      j := SplitOfPosition(c, u, base, pos, |u.marks| - 1);
    }
    ItemAt(us, k, j);
    x := ItemIndex(us, k, j);
    forall y | 0 <= y < |m.items| && Assigns(m.items[y], r, tok, pos) ensures y == x {
      var k', j' := ItemUnit(us, y);
      assert Covers(us[k'], r, tok);
      if u.Split? { SplitOfPositionUnique(c, u, base, pos, j, j'); }
    }
  }

  /** Windows of earlier tokens start no later. */
  lemma StartsBefore(c: Config, r: nat, first: nat, tok: nat)
    requires ValidConfig(c) && TileAt(c, r, first) && first <= tok && TileAt(c, r, tok)
    ensures TileLeft(c, r, first) <= KvLeft(0, QPos(c, r, tok), c.window)
  {}
}
