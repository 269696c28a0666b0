/**
  AttentionScheduler::schedule (csrc/cpu/cpu_attn_impl.hpp): requests are cut into
  Q tiles, and the KV work of the tiles is handed greedily to threads.  A tile is
  accepted by the current thread, pushed to the next one, taken whole because it
  may not be split, or split along KV.

  The emitted vectors are specified through a ghost plan, a sequence of units.  A
  unit is one unsplit work item or one complete split group; `Render` and
  `Reductions` say which work items and reduction items a plan stands for, and
  `Tiled` says that a plan covers the requests token by token, in order.
 */
module Scheduler {
  import opened KvRanges

  datatype Request = Request(seqLen: nat, qNum: nat)

  /** AttentionWorkItemGroup. */
  datatype Item = Item(req: nat, qStart: nat, qNum: nat, kvStart: int, kvEnd: int,
                       totalKv: int, splitId: int, localId: nat)

  /** ReductionWorkItemGroup. */
  datatype Reduction = Reduction(req: nat, qStart: nat, qNum: nat, splitStart: nat, splitNum: nat)

  /** The constants schedule() derives from its input before it starts splitting. */
  datatype Config = Config(reqs: seq<Request>, threads: nat, maxTok: nat, align: nat, minSplit: nat,
                           threshold: nat, tileTok: nat, perThread: int, window: int)

  ghost predicate ValidConfig(c: Config) {
    && c.threads > 0 && c.maxTok > 0 && c.align > 0 && c.tileTok > 0
    && c.minSplit > 0 && Aligned(c.minSplit, c.align)
    && c.perThread >= 0 && Aligned(c.perThread, c.align)
    && c.window >= NO_WINDOW
    && forall r :: 0 <= r < |c.reqs| ==> c.reqs[r].qNum <= c.reqs[r].seqLen
  }

  // ----- Q tiles -----

  predicate TileAt(c: Config, r: nat, tok: nat) { r < |c.reqs| && tok < c.reqs[r].qNum }

  /** Absolute position of token `tok` of request `r`. */
  function QPos(c: Config, r: nat, tok: nat): int
    requires r < |c.reqs|
  {
    c.reqs[r].seqLen - c.reqs[r].qNum + tok
  }

  function TileNum(c: Config, r: nat, tok: nat): (n: nat)
    requires ValidConfig(c) && TileAt(c, r, tok)
    ensures 0 < n && tok + n == Min(tok + c.maxTok, c.reqs[r].qNum)
  {
    Min(c.maxTok, c.reqs[r].qNum - tok)
  }

  function TileLeft(c: Config, r: nat, tok: nat): (p: nat)
    requires ValidConfig(c) && TileAt(c, r, tok)
    ensures Aligned(p, c.align) && p <= QPos(c, r, tok)
  {
    AlignDown(KvLeft(0, QPos(c, r, tok), c.window), c.align)
  }

  function TileRight(c: Config, r: nat, tok: nat): (p: nat)
    requires ValidConfig(c) && TileAt(c, r, tok)
    ensures Aligned(p, c.align) && QPos(c, r, tok) < p
    ensures tok + TileNum(c, r, tok) == c.reqs[r].qNum ==> c.reqs[r].seqLen <= p < c.reqs[r].seqLen + c.align
  {
    AlignUp(KvRight(c.reqs[r].seqLen, QPos(c, r, tok) + TileNum(c, r, tok)), c.align)
  }

  function TileLen(c: Config, r: nat, tok: nat): (n: nat)
    requires ValidConfig(c) && TileAt(c, r, tok)
    ensures n > 0
  {
    TileRight(c, r, tok) - TileLeft(c, r, tok)
  }

  /** KV length of the tiles of request `r` from token `tok` on. */
  function LenFrom(c: Config, r: nat, tok: nat): nat
    requires ValidConfig(c) && r < |c.reqs|
    decreases c.reqs[r].qNum - tok
  {
    if tok >= c.reqs[r].qNum then 0
    else TileLen(c, r, tok) + LenFrom(c, r, tok + c.maxTok)
  }

  /** KV length of all requests from `r` on. */
  function LenReqs(c: Config, r: nat): nat
    requires ValidConfig(c) && r <= |c.reqs|
    decreases |c.reqs| - r
  {
    if r == |c.reqs| then 0 else LenFrom(c, r, 0) + LenReqs(c, r + 1)
  }

  // ----- plans -----

  /**
    Whole: one unsplit work item.  Split: one tile whose KV range starts at each of
    `marks` in turn; `right` is the aligned end, while the last work item is emitted
    with the unaligned `seqLen` as its end.
   */
  datatype Unit =
    | Whole(req: nat, qStart: nat, qNum: nat, seqLen: nat, kvLen: int)
    | Split(req: nat, qStart: nat, qNum: nat, seqLen: nat, marks: seq<int>, right: int)

  function SplitItem(u: Unit, base: nat, j: nat): Item
    requires u.Split? && j < |u.marks|
  {
    var last := j + 1 == |u.marks|;
    Item(u.req, u.qStart, u.qNum, u.marks[j], if last then u.seqLen else u.marks[j + 1],
         (if last then u.right else u.marks[j + 1]) - u.marks[j], base + j, j)
  }

  /** The first `k` work items of a split group whose split ids start at `base`. */
  function SplitItems(u: Unit, base: nat, k: nat): (s: seq<Item>)
    requires u.Split? && k <= |u.marks|
    ensures |s| == k
  {
    seq(k, j requires 0 <= j < k => SplitItem(u, base, j))
  }

  function UnitItems(u: Unit, base: nat): seq<Item> {
    match u
    case Whole(r, q, n, len, kv) => [Item(r, q, n, 0, len, kv, -1, 0)]
    case Split(_, _, _, _, marks, _) => SplitItems(u, base, |marks|)
  }

  function SplitCount(us: seq<Unit>): nat {
    if us == [] then 0
    else
      var u := us[|us| - 1];
      SplitCount(us[..|us| - 1]) + if u.Split? then |u.marks| else 0
  }

  function Render(us: seq<Unit>): seq<Item> {
    if us == [] then []
    else
      var n := |us| - 1;
      Render(us[..n]) + UnitItems(us[n], SplitCount(us[..n]))
  }

  function Reductions(us: seq<Unit>): seq<Reduction> {
    if us == [] then []
    else
      var n := |us| - 1;
      var u := us[n];
      Reductions(us[..n]) +
        if u.Split? then [Reduction(u.req, u.qStart, u.qNum, SplitCount(us[..n]), |u.marks|)] else []
  }

  lemma PlanAppend(us: seq<Unit>, u: Unit)
    ensures SplitCount(us + [u]) == SplitCount(us) + if u.Split? then |u.marks| else 0
    ensures Render(us + [u]) == Render(us) + UnitItems(u, SplitCount(us))
    ensures Reductions(us + [u]) == Reductions(us) +
              if u.Split? then [Reduction(u.req, u.qStart, u.qNum, SplitCount(us), |u.marks|)] else []
  {
    assert (us + [u])[..|us|] == us;
  }

  /** The cut points of a split tile: from its aligned start, each cut at least minSplit long. */
  ghost predicate ValidMarks(c: Config, marks: seq<int>, left: int, right: int)
    requires ValidConfig(c)
  {
    && |marks| >= 2
    && marks[0] == left
    && marks[|marks| - 1] < right
    && (forall j :: 0 <= j < |marks| ==> Aligned(marks[j], c.align))
    && (forall j :: 0 <= j < |marks| - 1 ==> marks[j] + c.minSplit <= marks[j + 1])
  }

  lemma {:induction false} MarksIncrease(c: Config, marks: seq<int>, left: int, right: int, i: nat, j: nat)
    requires ValidConfig(c) && ValidMarks(c, marks, left, right) && i < j < |marks|
    ensures marks[i] + c.minSplit <= marks[j]
    decreases j
  {
    if i + 1 < j { MarksIncrease(c, marks, left, right, i, j - 1); }
    assert marks[j - 1] + c.minSplit <= marks[(j - 1) + 1];
  }

  ghost predicate ValidUnit(c: Config, u: Unit)
    requires ValidConfig(c)
  {
    && TileAt(c, u.req, u.qStart)
    && u.qNum > 0 && u.qStart + u.qNum <= c.reqs[u.req].qNum
    && u.seqLen == c.reqs[u.req].seqLen
    && (u.Whole? ==> u.kvLen > 0)
    && (u.Split? ==>
        && u.qStart + u.qNum == c.reqs[u.req].qNum
        && u.qNum == TileNum(c, u.req, u.qStart) <= c.threshold
        && u.right == TileRight(c, u.req, u.qStart)
        && ValidMarks(c, u.marks, TileLeft(c, u.req, u.qStart), u.right))
  }

  /** The plan covers, unit after unit, all requests before `r` and tokens [0, tok) of `r`. */
  ghost predicate Tiled(c: Config, us: seq<Unit>, r: nat, tok: nat)
    requires ValidConfig(c) && r <= |c.reqs|
    decreases r, tok
  {
    if tok > 0 then
      && us != []
      && var u := us[|us| - 1];
      && ValidUnit(c, u) && u.req == r && u.qStart + u.qNum == tok
      && Tiled(c, us[..|us| - 1], r, u.qStart)
    else if r > 0 then Tiled(c, us, r - 1, c.reqs[r - 1].qNum)
    else us == []
  }

  lemma TiledAppend(c: Config, us: seq<Unit>, u: Unit)
    requires ValidConfig(c) && ValidUnit(c, u)
    requires Tiled(c, us, u.req, u.qStart)
    ensures Tiled(c, us + [u], u.req, u.qStart + u.qNum)
  {
    assert (us + [u])[..|us|] == us;
  }

  // ----- scheduler state -----

  datatype State = State(items: seq<Item>, reds: seq<Reduction>, counts: seq<nat>,
                         thread: nat, remaining: int, splits: nat, localId: nat)

  function Total(s: seq<nat>): nat {
    if s == [] then 0 else Total(s[..|s| - 1]) + s[|s| - 1]
  }

  function KvTotal(s: seq<Item>): int {
    if s == [] then 0 else KvTotal(s[..|s| - 1]) + s[|s| - 1].totalKv
  }

  lemma {:induction false} TotalBump(s: seq<nat>, t: nat)
    requires t < |s|
    ensures Total(s[t := s[t] + 1]) == Total(s) + 1
  {
    var n := |s| - 1;
    var s' := s[t := s[t] + 1];
    if t == n {
      assert s'[..n] == s[..n];
    } else {
      assert s'[..n] == s[..n][t := s[..n][t] + 1];
      TotalBump(s[..n], t);
    }
  }

  lemma KvTotalAppend(s: seq<Item>, i: Item)
    ensures KvTotal(s + [i]) == KvTotal(s) + i.totalKv
  {
    assert (s + [i])[..|s|] == s;
  }

  /** workitems.emplace_back plus ++workitem_num_per_thread[curr_thread_id]. */
  function Emit(st: State, i: Item): State
    requires st.thread < |st.counts|
  {
    st.(items := st.items + [i], counts := st.counts[st.thread := st.counts[st.thread] + 1])
  }

  function NextThread(c: Config, st: State): State {
    st.(thread := st.thread + 1, remaining := c.perThread)
  }

  /** Threads before the current one have work, threads after it have none. */
  ghost predicate ThreadsOk(c: Config, st: State)
    requires ValidConfig(c)
  {
    && st.thread < c.threads == |st.counts|
    && (forall t :: 0 <= t < st.thread ==> st.counts[t] > 0)
    && (forall t :: st.thread < t < c.threads ==> st.counts[t] == 0)
    && Total(st.counts) == |st.items|
    && Aligned(st.remaining, c.align)
  }

  lemma EmitThreads(c: Config, st: State, i: Item)
    requires ValidConfig(c) && ThreadsOk(c, st)
    ensures ThreadsOk(c, Emit(st, i)) && Emit(st, i).counts[st.thread] > 0
    ensures KvTotal(Emit(st, i).items) == KvTotal(st.items) + i.totalKv
  {
    hide Aligned; hide Total; hide KvTotal;
    TotalBump(st.counts, st.thread);
    KvTotalAppend(st.items, i);
  }

  /** A thread that holds nothing still has its whole budget. */
  ghost predicate Budget(c: Config, st: State, curr: Item)
    requires ValidConfig(c) && ThreadsOk(c, st)
  {
    curr.totalKv == 0 && st.counts[st.thread] == 0 ==> st.remaining == c.perThread
  }

  function FreshItem(c: Config, r: nat, tok: nat, kv: int): Item
    requires r < |c.reqs|
  {
    Item(r, tok, 0, kv, c.reqs[r].seqLen, 0, -1, 0)
  }

  function WholeOf(c: Config, curr: Item): Unit
    requires curr.req < |c.reqs|
  {
    Whole(curr.req, curr.qStart, curr.qNum, c.reqs[curr.req].seqLen, curr.totalKv)
  }

  /** curr_workitem collects tokens [qStart, tok), unsplit; the plan covers everything before it. */
  ghost predicate Collecting(c: Config, r: nat, tok: nat, curr: Item, us: seq<Unit>)
    requires ValidConfig(c)
  {
    && r < |c.reqs| && curr.req == r && tok <= c.reqs[r].qNum
    && curr == Item(r, curr.qStart, curr.qNum, 0, c.reqs[r].seqLen, curr.totalKv, -1, 0)
    && curr.qStart + curr.qNum == tok
    && curr.totalKv >= 0 && (curr.totalKv == 0 <==> curr.qNum == 0)
    && Tiled(c, us, r, curr.qStart)
  }

  ghost predicate PlanOf(st: State, us: seq<Unit>) {
    st.items == Render(us) && st.reds == Reductions(us) && st.splits == SplitCount(us)
  }

  /** Between tiles: `tok` is the next tile's first token. */
  ghost predicate Ready(c: Config, r: nat, tok: nat, st: State, curr: Item, us: seq<Unit>)
    requires ValidConfig(c)
  {
    && r < |c.reqs| && curr.req == r && ThreadsOk(c, st) && Budget(c, st, curr) && PlanOf(st, us)
    && KvTotal(st.items) + curr.totalKv + LenFrom(c, r, tok) + LenReqs(c, r + 1) == LenReqs(c, 0)
    && (tok < c.reqs[r].qNum ==> st.localId == 0 && Collecting(c, r, tok, curr, us))
    && (tok >= c.reqs[r].qNum ==>
          || Collecting(c, r, c.reqs[r].qNum, curr, us)
          || (curr.totalKv == 0 && Tiled(c, us, r, c.reqs[r].qNum)))
  }

  /** Emitting the collected item turns it into a Whole unit of the plan. */
  lemma EmitWhole(c: Config, r: nat, tok: nat, st: State, curr: Item, us: seq<Unit>)
    requires ValidConfig(c) && ThreadsOk(c, st) && PlanOf(st, us)
    requires Collecting(c, r, tok, curr, us) && curr.totalKv > 0
    ensures PlanOf(Emit(st, curr), us + [WholeOf(c, curr)])
    ensures Tiled(c, us + [WholeOf(c, curr)], r, tok)
  {
    PlanAppend(us, WholeOf(c, curr));
    TiledAppend(c, us, WholeOf(c, curr));
  }

  // ----- the middle of a split -----

  function OpenUnit(c: Config, r: nat, tok: nat, marks: seq<int>): Unit
    requires ValidConfig(c) && TileAt(c, r, tok)
  {
    Split(r, tok, TileNum(c, r, tok), c.reqs[r].seqLen, marks, TileRight(c, r, tok))
  }

  /** All splits but the one starting at the last mark have been emitted. */
  ghost predicate Splitting(c: Config, r: nat, tok: nat, st: State, us: seq<Unit>, marks: seq<int>)
    requires ValidConfig(c) && TileAt(c, r, tok)
  {
    var base, k := SplitCount(us), |marks| - 1;
    && TileNum(c, r, tok) <= c.threshold && tok + TileNum(c, r, tok) == c.reqs[r].qNum
    && ValidMarks(c, marks, TileLeft(c, r, tok), TileRight(c, r, tok))
    && Tiled(c, us, r, tok)
    && st.items == Render(us) + SplitItems(OpenUnit(c, r, tok, marks), base, k)
    && st.reds == Reductions(us) + [Reduction(r, tok, TileNum(c, r, tok), base, k)]
    && st.splits == base + k && st.localId == k
  }

  lemma SplitItemsExtend(u: Unit, m: int, base: nat)
    requires u.Split? && |u.marks| > 0
    ensures
      var u' := u.(marks := u.marks + [m]);
      SplitItems(u', base, |u.marks|) == SplitItems(u, base, |u.marks| - 1) + [SplitItem(u', base, |u.marks| - 1)]
  {}

  /** ++reduce_workitems.back().split_num */
  function BumpLast(reds: seq<Reduction>): seq<Reduction>
    requires reds != []
  {
    var n := |reds| - 1;
    reds[n := reds[n].(splitNum := reds[n].splitNum + 1)]
  }

  /** Emitting one more split that ends at `m`. */
  lemma SplitFurther(c: Config, r: nat, tok: nat, st: State, us: seq<Unit>, marks: seq<int>, m: int, st': State)
    requires ValidConfig(c) && TileAt(c, r, tok) && Splitting(c, r, tok, st, us, marks)
    requires Aligned(m, c.align) && marks[|marks| - 1] + c.minSplit <= m < TileRight(c, r, tok)
    requires st'.items == st.items + [SplitItem(OpenUnit(c, r, tok, marks + [m]), SplitCount(us), |marks| - 1)]
    requires st'.reds == BumpLast(st.reds) && st'.splits == st.splits + 1 && st'.localId == st.localId + 1
    ensures Splitting(c, r, tok, st', us, marks + [m])
  {
    hide Aligned; hide Tiled; hide Render; hide Reductions; hide SplitCount;
    SplitItemsExtend(OpenUnit(c, r, tok, marks), m, SplitCount(us));
  }

  /** Emitting the last split closes the group. */
  lemma SplitClose(c: Config, r: nat, tok: nat, st: State, us: seq<Unit>, marks: seq<int>, st': State)
    requires ValidConfig(c) && TileAt(c, r, tok) && Splitting(c, r, tok, st, us, marks)
    requires st'.items == st.items + [SplitItem(OpenUnit(c, r, tok, marks), SplitCount(us), |marks| - 1)]
    requires st'.reds == BumpLast(st.reds) && st'.splits == st.splits + 1
    ensures PlanOf(st', us + [OpenUnit(c, r, tok, marks)])
    ensures Tiled(c, us + [OpenUnit(c, r, tok, marks)], r, c.reqs[r].qNum)
  {
    hide Aligned; hide Tiled; hide Render; hide Reductions; hide SplitCount;
    var u, base, k := OpenUnit(c, r, tok, marks), SplitCount(us), |marks| - 1;
    PlanAppend(us, u);
    TiledAppend(c, us, u);
    assert SplitItems(u, base, k + 1) == SplitItems(u, base, k) + [SplitItem(u, base, k)];
  }

  /** The first split of a tile opens the group. */
  lemma SplitOpen(c: Config, r: nat, tok: nat, st: State, us: seq<Unit>, m: int, st': State)
    requires ValidConfig(c) && TileAt(c, r, tok) && PlanOf(st, us) && Tiled(c, us, r, tok)
    requires TileNum(c, r, tok) <= c.threshold && tok + TileNum(c, r, tok) == c.reqs[r].qNum
    requires Aligned(m, c.align) && TileLeft(c, r, tok) + c.minSplit <= m < TileRight(c, r, tok)
    requires st'.items == st.items + [SplitItem(OpenUnit(c, r, tok, [TileLeft(c, r, tok), m]), SplitCount(us), 0)]
    requires st'.reds == st.reds + [Reduction(r, tok, TileNum(c, r, tok), SplitCount(us), 1)]
    requires st'.splits == st.splits + 1 && st'.localId == 1
    ensures Splitting(c, r, tok, st', us, [TileLeft(c, r, tok), m])
  {
    hide Aligned; hide Tiled; hide Render; hide Reductions; hide SplitCount;
    var marks := [TileLeft(c, r, tok), m];
    assert SplitItems(OpenUnit(c, r, tok, marks), SplitCount(us), 1)
        == [SplitItem(OpenUnit(c, r, tok, marks), SplitCount(us), 0)];
  }

  // ----- the splitting loop -----

  /** What the while loop over one tile's KV length maintains. */
  ghost predicate TileLoop(c: Config, r: nat, tok: nat, st: State, curr: Item, us: seq<Unit>,
                           marks: seq<int>, kvPos: int, kvLen: int)
    requires ValidConfig(c) && TileAt(c, r, tok)
  {
    && ThreadsOk(c, st) && Budget(c, st, curr)
    && kvLen > 0 && kvPos + kvLen == TileRight(c, r, tok) && Aligned(kvPos, c.align)
    && KvTotal(st.items) + curr.totalKv + kvLen + LenFrom(c, r, tok + c.maxTok) + LenReqs(c, r + 1) == LenReqs(c, 0)
    && (marks == [] ==>
          kvPos == TileLeft(c, r, tok) && st.localId == 0 && PlanOf(st, us) && Collecting(c, r, tok, curr, us))
    && (marks != [] ==>
          && Splitting(c, r, tok, st, us, marks) && marks[|marks| - 1] == kvPos
          && curr == FreshItem(c, r, tok, kvPos)
          && st.counts[st.thread] == 0)
  }

  lemma AcceptedAligned(c: Config, remaining: int, kvPos: int, kvLen: int, right: int)
    requires ValidConfig(c) && kvPos + kvLen == right
    requires Aligned(remaining, c.align) && Aligned(kvPos, c.align) && Aligned(right, c.align)
    ensures Aligned(remaining - kvLen, c.align) && Aligned(remaining - kvLen - c.minSplit, c.align)
  {
    hide Aligned;
    AlignedSum(right, kvPos, c.align);
    AlignedSum(remaining, kvLen, c.align);
    AlignedSum(remaining - kvLen, c.minSplit, c.align);
  }

  /** Lines 470-493: this thread takes all that is left of the tile. */
  method TakeRest(c: Config, r: nat, tok: nat, st0: State, curr0: Item, ghost us0: seq<Unit>,
                  ghost marks: seq<int>, ghost kvPos: int, kvLen: int)
    returns (st: State, curr: Item, ghost us: seq<Unit>)
    requires ValidConfig(c) && TileAt(c, r, tok)
    requires TileLoop(c, r, tok, st0, curr0, us0, marks, kvPos, kvLen)
    ensures ThreadsOk(c, st) && Ready(c, r, tok + c.maxTok, st, curr, us)
    ensures st.thread == st0.thread && st.localId == st0.localId
    ensures st.remaining == st0.remaining - kvLen - if st0.remaining < kvLen then c.minSplit else 0
    ensures marks == [] ==> us == us0 && st == st0.(remaining := st.remaining)
    ensures marks == [] ==> curr == curr0.(qNum := curr0.qNum + TileNum(c, r, tok), totalKv := curr0.totalKv + kvLen)
    ensures marks != [] ==> us == us0 + [OpenUnit(c, r, tok, marks)] && curr == FreshItem(c, r, tok + c.maxTok, 0)
    ensures marks != [] ==> st.counts == st0.counts[st0.thread := st0.counts[st0.thread] + 1]
  {
    hide Aligned; hide Tiled; hide Render; hide Reductions; hide SplitCount; hide LenFrom; hide LenReqs; hide KvTotal;
    hide Total;
    st, curr, us := st0, curr0, us0;
    AcceptedAligned(c, st.remaining, kvPos, kvLen, TileRight(c, r, tok));
    if marks != [] { MarksIncrease(c, marks, TileLeft(c, r, tok), TileRight(c, r, tok), 0, |marks| - 1); }
    curr := curr.(qNum := curr.qNum + TileNum(c, r, tok), totalKv := curr.totalKv + kvLen);
    st := st.(remaining := st.remaining - kvLen);
    if st.remaining < 0 {
      st := st.(remaining := st.remaining - c.minSplit);
    }
    if curr.kvStart != 0 {
      // the tail of a split: a work item of its own
      curr := curr.(splitId := st.splits, localId := st.localId);
      ghost var before := st;
      EmitThreads(c, st, curr);
      st := Emit(st, curr);
      st := st.(reds := BumpLast(st.reds), splits := st.splits + 1);
      SplitClose(c, r, tok, before, us, marks, st);
      us := us + [OpenUnit(c, r, tok, marks)];
      curr := FreshItem(c, r, tok + c.maxTok, 0);
    }
  }

  /** Write back what has been collected, if anything. */
  method WriteBack(c: Config, r: nat, tok: nat, st0: State, curr: Item, ghost us0: seq<Unit>)
    returns (st: State, ghost us: seq<Unit>)
    requires ValidConfig(c) && ThreadsOk(c, st0) && PlanOf(st0, us0) && Collecting(c, r, tok, curr, us0)
    ensures ThreadsOk(c, st) && PlanOf(st, us) && Tiled(c, us, r, tok)
    ensures st == if curr.totalKv > 0 then Emit(st0, curr) else st0
    ensures us == if curr.totalKv > 0 then us0 + [WholeOf(c, curr)] else us0
    ensures curr.totalKv > 0 ==> st.counts[st.thread] > 0
    ensures KvTotal(st.items) == KvTotal(st0.items) + curr.totalKv
  {
    hide Aligned; hide Tiled; hide Render; hide Reductions; hide SplitCount; hide KvTotal; hide Total;
    st, us := st0, us0;
    if curr.totalKv > 0 {
      EmitThreads(c, st, curr);
      EmitWhole(c, r, tok, st, curr, us);
      us := us + [WholeOf(c, curr)];
      st := Emit(st, curr);
    }
  }

  /** Lines 501-510: write back what was collected and move to the next thread. */
  method PushToNext(c: Config, r: nat, tok: nat, st0: State, curr0: Item, ghost us0: seq<Unit>)
    returns (st: State, curr: Item, ghost us: seq<Unit>)
    requires ValidConfig(c) && ThreadsOk(c, st0) && PlanOf(st0, us0) && Collecting(c, r, tok, curr0, us0)
    requires st0.thread < c.threads - 1
    requires curr0.totalKv > 0 || st0.counts[st0.thread] > 0
    ensures ThreadsOk(c, st) && PlanOf(st, us) && Collecting(c, r, tok, curr, us)
    ensures st.thread == st0.thread + 1 && st.remaining == c.perThread && st.localId == st0.localId
    ensures curr == FreshItem(c, r, tok, 0) && st.counts[st.thread] == 0
    ensures st == NextThread(c, if curr0.totalKv > 0 then Emit(st0, curr0) else st0)
    ensures us == if curr0.totalKv > 0 then us0 + [WholeOf(c, curr0)] else us0
    ensures KvTotal(st.items) == KvTotal(st0.items) + curr0.totalKv
  {
    hide Aligned; hide Tiled; hide Render; hide Reductions; hide SplitCount; hide KvTotal; hide Total;
    curr := curr0;
    st, us := WriteBack(c, r, tok, st0, curr, us0);
    if curr.totalKv > 0 {
      curr := FreshItem(c, r, tok, 0);
    }
    st := NextThread(c, st);
  }

  /** Lines 522-541: a tile that may not be split. */
  method TakeWhole(c: Config, r: nat, tok: nat, st0: State, curr0: Item, ghost us0: seq<Unit>, kvLen: int)
    returns (st: State, curr: Item, ghost us: seq<Unit>)
    requires ValidConfig(c) && TileAt(c, r, tok)
    requires TileLoop(c, r, tok, st0, curr0, us0, [], TileLeft(c, r, tok), kvLen)
    requires st0.thread < c.threads - 1
    ensures ThreadsOk(c, st) && Ready(c, r, tok + c.maxTok, st, curr, us)
    ensures
      var push := curr0.qNum % c.tileTok == 0 && (curr0.totalKv > 0 || st0.counts[st0.thread] > 0);
      var st1 := if push then NextThread(c, if curr0.totalKv > 0 then Emit(st0, curr0) else st0) else st0;
      var curr1 := if push then FreshItem(c, r, tok, 0) else curr0;
      && st == st1.(remaining := st1.remaining - kvLen)
      && curr == curr1.(qNum := curr1.qNum + TileNum(c, r, tok), totalKv := curr1.totalKv + kvLen)
      && us == if push && curr0.totalKv > 0 then us0 + [WholeOf(c, curr0)] else us0
  {
    hide Aligned; hide Tiled; hide Render; hide Reductions; hide SplitCount; hide LenFrom; hide LenReqs; hide KvTotal;
    hide Total;
    st, curr, us := st0, curr0, us0;
    if curr.qNum % c.tileTok == 0 && (curr.totalKv > 0 || st.counts[st.thread] > 0) {
      st, curr, us := PushToNext(c, r, tok, st, curr, us);
    }
    AcceptedAligned(c, st.remaining, TileLeft(c, r, tok), kvLen, TileRight(c, r, tok));
    curr := curr.(qNum := curr.qNum + TileNum(c, r, tok), totalKv := curr.totalKv + kvLen);
    st := st.(remaining := st.remaining - kvLen);
  }

  /** Lines 551-576: emit the next split of the tile, with nothing collected. */
  method CutSplit(c: Config, r: nat, tok: nat, st0: State, ghost us: seq<Unit>, ghost marks0: seq<int>, kvPos0: int,
                  kvLen0: int)
    returns (st: State, ghost marks: seq<int>, size: int)
    requires ValidConfig(c) && TileAt(c, r, tok) && ThreadsOk(c, st0)
    requires kvPos0 + kvLen0 == TileRight(c, r, tok) && Aligned(kvPos0, c.align)
    requires Max(st0.remaining, c.minSplit) < kvLen0
    requires tok + c.maxTok >= c.reqs[r].qNum && TileNum(c, r, tok) <= c.threshold
    requires marks0 == [] ==>
               kvPos0 == TileLeft(c, r, tok) && st0.localId == 0 && PlanOf(st0, us) && Tiled(c, us, r, tok)
    requires marks0 != [] ==> Splitting(c, r, tok, st0, us, marks0) && marks0[|marks0| - 1] == kvPos0
    ensures ThreadsOk(c, st) && st.counts[st.thread] > 0
    ensures st.thread == st0.thread && st.remaining == st0.remaining
    ensures st.counts == st0.counts[st0.thread := st0.counts[st0.thread] + 1] && st.localId == st0.localId + 1
    ensures marks == if marks0 == [] then [kvPos0, kvPos0 + size] else marks0 + [kvPos0 + size]
    ensures size == Max(st0.remaining, c.minSplit) && Aligned(kvPos0 + size, c.align)
    ensures marks != [] && Splitting(c, r, tok, st, us, marks) && marks[|marks| - 1] == kvPos0 + size
    ensures KvTotal(st.items) == KvTotal(st0.items) + size
  {
    hide Aligned; hide Tiled; hide Render; hide Reductions; hide SplitCount; hide KvTotal; hide Total;
    if marks0 != [] { MarksIncrease(c, marks0, TileLeft(c, r, tok), TileRight(c, r, tok), 0, |marks0| - 1); }
    st := st0;
    if kvPos0 == TileLeft(c, r, tok) {
      st := st.(reds := st.reds + [Reduction(r, tok, TileNum(c, r, tok), st.splits, 0)]);
    }
    size := Min(Max(st.remaining, c.minSplit), kvLen0);
    var item := Item(r, tok, TileNum(c, r, tok), kvPos0, kvPos0 + size, size, st.splits, st.localId);
    EmitThreads(c, st, item);
    st := Emit(st, item);
    st := st.(reds := BumpLast(st.reds), splits := st.splits + 1, localId := st.localId + 1);
    AlignedSum(kvPos0, size, c.align);
    if marks0 == [] {
      SplitOpen(c, r, tok, st0, us, kvPos0 + size, st);
      marks := [TileLeft(c, r, tok), kvPos0 + size];
    } else {
      SplitFurther(c, r, tok, st0, us, marks0, kvPos0 + size, st);
      marks := marks0 + [kvPos0 + size];
    }
  }

  /** Lines 545-580: cut one split off the tile and move to the next thread. */
  method SplitOff(c: Config, r: nat, tok: nat, st0: State, curr0: Item, ghost us0: seq<Unit>,
                  ghost marks0: seq<int>, kvPos0: int, kvLen0: int)
    returns (st: State, curr: Item, ghost us: seq<Unit>, ghost marks: seq<int>, kvPos: int, kvLen: int)
    requires ValidConfig(c) && TileAt(c, r, tok)
    requires TileLoop(c, r, tok, st0, curr0, us0, marks0, kvPos0, kvLen0)
    requires kvLen0 > st0.remaining + c.minSplit && st0.thread < c.threads - 1
    requires st0.remaining < c.minSplit ==> curr0.totalKv == 0 && st0.counts[st0.thread] == 0
    requires tok + c.maxTok >= c.reqs[r].qNum && TileNum(c, r, tok) <= c.threshold
    ensures TileLoop(c, r, tok, st, curr, us, marks, kvPos, kvLen)
    ensures st.thread == st0.thread + 1 && st.remaining == c.perThread && st.localId == st0.localId + 1
    ensures us == if curr0.totalKv > 0 then us0 + [WholeOf(c, curr0)] else us0
    ensures kvPos == kvPos0 + Max(st0.remaining, c.minSplit) && kvLen == kvLen0 - Max(st0.remaining, c.minSplit)
    ensures marks == if marks0 == [] then [kvPos0, kvPos] else marks0 + [kvPos]
    ensures st.counts == st0.counts[st0.thread := st0.counts[st0.thread] + 1 + if curr0.totalKv > 0 then 1 else 0]
  {
    hide Aligned; hide Tiled; hide Render; hide Reductions; hide SplitCount; hide LenFrom; hide LenReqs; hide KvTotal;
    hide Total; hide Splitting;
    st, us := st0, us0;
    if curr0.totalKv > 0 {
      st, us := WriteBack(c, r, tok, st, curr0, us);
    }
    var size;
    st, marks, size := CutSplit(c, r, tok, st, us, marks0, kvPos0, kvLen0);
    kvPos := kvPos0 + size;
    kvLen := kvLen0 - size;
    curr := FreshItem(c, r, tok, kvPos);
    SplittingMoves(c, r, tok, st, us, marks);
    st := NextThread(c, st);
  }

  lemma SplittingMoves(c: Config, r: nat, tok: nat, st: State, us: seq<Unit>, marks: seq<int>)
    requires ValidConfig(c) && TileAt(c, r, tok) && Splitting(c, r, tok, st, us, marks)
    ensures Splitting(c, r, tok, NextThread(c, st), us, marks)
  {}

  // ----- what becomes of a tile -----

  predicate Fits(c: Config, len: int, st: State) { len <= st.remaining + c.minSplit || st.thread == c.threads - 1 }

  /** Only the last tile of a request is split, and only up to the threshold. */
  predicate MaySplit(c: Config, r: nat, tok: nat)
    requires ValidConfig(c) && TileAt(c, r, tok)
  {
    tok + c.maxTok >= c.reqs[r].qNum && TileNum(c, r, tok) <= c.threshold
  }

  /**
    A tile that does not fit leaves the thread if that has work already, and little of its
    budget is left or the tile cannot be split and would start a new Q tile.
   */
  predicate Leaves(c: Config, r: nat, tok: nat, st: State, curr: Item)
    requires ValidConfig(c) && TileAt(c, r, tok) && st.thread < |st.counts|
  {
    && !Fits(c, TileLen(c, r, tok), st)
    && (curr.totalKv > 0 || st.counts[st.thread] > 0)
    && (st.remaining < c.minSplit || (!MaySplit(c, r, tok) && curr.qNum % c.tileTok == 0))
  }

  /** The tile joins the collected item; a thread overdrawn by a tile that was tested to fit is closed. */
  ghost predicate Joins(c: Config, r: nat, tok: nat, st0: State, curr0: Item, tested: bool, st: State, curr: Item)
    requires ValidConfig(c) && TileAt(c, r, tok)
  {
    var len := TileLen(c, r, tok);
    && curr == curr0.(qNum := curr0.qNum + TileNum(c, r, tok), totalKv := curr0.totalKv + len)
    && st == st0.(remaining := st.remaining)
    && st.remaining == st0.remaining - len - if tested && st0.remaining < len then c.minSplit else 0
  }

  /** The length each thread cuts off: what is left of its budget, but not less than the minimum. */
  ghost predicate Cuts(c: Config, r: nat, tok: nat, st0: State, marks: seq<int>)
    requires ValidConfig(c) && TileAt(c, r, tok)
  {
    var right := TileRight(c, r, tok);
    && |marks| >= 2 && marks[0] == TileLeft(c, r, tok) && marks[1] == marks[0] + Max(st0.remaining, c.minSplit)
    && st0.thread + |marks| - 1 < c.threads
    && forall j :: 1 <= j < |marks| - 1 ==>
         marks[j + 1] == marks[j] + Max(c.perThread, c.minSplit) && right - marks[j] > c.perThread + c.minSplit
  }

  /** The tile is split over consecutive threads until the rest fits; the collected item is written back first. */
  ghost predicate Splits(c: Config, r: nat, tok: nat, st0: State, curr0: Item, us0: seq<Unit>,
                         marks: seq<int>, st: State, curr: Item, us: seq<Unit>)
    requires ValidConfig(c) && TileAt(c, r, tok) && curr0.req < |c.reqs|
  {
    var n, left := |marks|, if |marks| > 0 then TileRight(c, r, tok) - marks[|marks| - 1] else 0;
    && Cuts(c, r, tok, st0, marks)
    && (left <= c.perThread + c.minSplit || st0.thread + n == c.threads)
    && us == (if curr0.totalKv > 0 then us0 + [WholeOf(c, curr0)] else us0) + [OpenUnit(c, r, tok, marks)]
    && curr == FreshItem(c, r, tok + c.maxTok, 0)
    && PlanOf(st, us) && st.thread == st0.thread + n - 1 && st.localId == n - 1
    && st.remaining == c.perThread - left - (if c.perThread < left then c.minSplit else 0)
    && |st.counts| == |st0.counts|
    && forall t :: 0 <= t < |st.counts| ==>
         st.counts[t] == st0.counts[t] + (if st0.thread <= t < st0.thread + n then 1 else 0)
                         + (if t == st0.thread && curr0.totalKv > 0 then 1 else 0)
  }

  /** The thread, the collected item and the plan once it is decided whether to leave the thread. */
  function LeftState(c: Config, r: nat, tok: nat, st: State, curr: Item): State
    requires ValidConfig(c) && TileAt(c, r, tok) && st.thread < |st.counts|
  {
    if Leaves(c, r, tok, st, curr) then NextThread(c, if curr.totalKv > 0 then Emit(st, curr) else st) else st
  }

  function LeftItem(c: Config, r: nat, tok: nat, st: State, curr: Item): Item
    requires ValidConfig(c) && TileAt(c, r, tok) && st.thread < |st.counts|
  {
    if Leaves(c, r, tok, st, curr) then FreshItem(c, r, tok, 0) else curr
  }

  function LeftPlan(c: Config, r: nat, tok: nat, st: State, curr: Item, us: seq<Unit>): seq<Unit>
    requires ValidConfig(c) && TileAt(c, r, tok) && st.thread < |st.counts| && curr.req < |c.reqs|
  {
    if Leaves(c, r, tok, st, curr) && curr.totalKv > 0 then us + [WholeOf(c, curr)] else us
  }

  /** Everything that is decided about a tile: leave the thread or not, then join or split. */
  ghost predicate Placed(c: Config, r: nat, tok: nat, st0: State, curr0: Item, us0: seq<Unit>,
                         st: State, curr: Item, us: seq<Unit>)
    requires ValidConfig(c) && TileAt(c, r, tok) && st0.thread < |st0.counts| && curr0.req < |c.reqs|
  {
    var st1, curr1 := LeftState(c, r, tok, st0, curr0), LeftItem(c, r, tok, st0, curr0);
    var us1 := LeftPlan(c, r, tok, st0, curr0, us0);
    var fits := Fits(c, TileLen(c, r, tok), st1);
    if fits || !MaySplit(c, r, tok) then
      // a tile that leaves because it starts a new Q tile is taken by the next thread untested
      && Joins(c, r, tok, st1, curr1, fits && (Leaves(c, r, tok, st0, curr0) ==> st0.remaining < c.minSplit), st, curr)
      && us == us1
    else
      exists marks :: Splits(c, r, tok, st1, curr1, us1, marks, st, curr, us)
  }

  /** In the middle of the split: the cuts made so far, one thread each. */
  ghost predicate Cutting(c: Config, r: nat, tok: nat, st0: State, curr0: Item, us0: seq<Unit>,
                          marks: seq<int>, st: State, us: seq<Unit>)
    requires ValidConfig(c) && TileAt(c, r, tok) && curr0.req < |c.reqs|
  {
    var n := |marks|;
    && Cuts(c, r, tok, st0, marks)
    && us == (if curr0.totalKv > 0 then us0 + [WholeOf(c, curr0)] else us0)
    && st.thread == st0.thread + n - 1 && st.localId == n - 1 && st.remaining == c.perThread
    && |st.counts| == |st0.counts|
    && forall t :: 0 <= t < |st.counts| ==>
         st.counts[t] == st0.counts[t] + (if st0.thread <= t < st0.thread + n - 1 then 1 else 0)
                         + (if t == st0.thread && curr0.totalKv > 0 then 1 else 0)
  }

  /** Before the first cut: where the tile came to, or where it goes when it leaves. */
  ghost predicate Here(c: Config, r: nat, tok: nat, st0: State, curr0: Item, us0: seq<Unit>,
                       st: State, curr: Item, us: seq<Unit>)
    requires ValidConfig(c) && TileAt(c, r, tok) && st0.thread < |st0.counts| && curr0.req < |c.reqs|
  {
    || (st == st0 && curr == curr0 && us == us0)
    || (Leaves(c, r, tok, st0, curr0) && st0.remaining < c.minSplit && Gone(c, r, tok, st0, curr0, us0, st, curr, us))
  }

  ghost predicate Gone(c: Config, r: nat, tok: nat, st0: State, curr0: Item, us0: seq<Unit>,
                       st: State, curr: Item, us: seq<Unit>)
    requires ValidConfig(c) && TileAt(c, r, tok) && st0.thread < |st0.counts| && curr0.req < |c.reqs|
  {
    && st == LeftState(c, r, tok, st0, curr0) && curr == LeftItem(c, r, tok, st0, curr0)
    && us == LeftPlan(c, r, tok, st0, curr0, us0)
  }

  /** The tests of the loop, in their order, come to the decision. */
  lemma Decides(c: Config, r: nat, tok: nat, st0: State, curr0: Item, us0: seq<Unit>, st: State, curr: Item,
                us: seq<Unit>)
    requires ValidConfig(c) && TileAt(c, r, tok) && ThreadsOk(c, st0) && ThreadsOk(c, st) && curr0.req < |c.reqs|
    requires Here(c, r, tok, st0, curr0, us0, st, curr, us)
    ensures
      var fits, busy := Fits(c, TileLen(c, r, tok), st), curr.totalKv > 0 || st.counts[st.thread] > 0;
      var start := st == st0 && curr == curr0 && us == us0 && Leaves(c, r, tok, st0, curr0);
      if fits then
        Gone(c, r, tok, st0, curr0, us0, st, curr, us) && (Leaves(c, r, tok, st0, curr0) ==> st0.remaining < c.minSplit)
      else if st.remaining < c.minSplit && busy then start
      else if !MaySplit(c, r, tok) && curr.qNum % c.tileTok == 0 && busy then start
      else Gone(c, r, tok, st0, curr0, us0, st, curr, us)
  {
    hide Aligned; hide Total; hide TileLen; hide MaySplit;
  }

  lemma CutsGrow(c: Config, r: nat, tok: nat, st0: State, curr0: Item, us0: seq<Unit>, marks: seq<int>, st: State,
                 us: seq<Unit>, mark: int, st': State)
    requires ValidConfig(c) && TileAt(c, r, tok) && curr0.req < |c.reqs|
    requires if marks == [] then st == st0 && us == us0 && st.localId == 0
             else Cutting(c, r, tok, st0, curr0, us0, marks, st, us)
    requires st.thread < |st.counts| && st.thread < c.threads - 1
    requires var pos := if marks == [] then TileLeft(c, r, tok) else marks[|marks| - 1];
             mark == pos + Max(st.remaining, c.minSplit) && TileRight(c, r, tok) - pos > st.remaining + c.minSplit
    requires st'.thread == st.thread + 1 && st'.localId == st.localId + 1 && st'.remaining == c.perThread
    requires var more := if marks == [] && curr0.totalKv > 0 then 2 else 1;
             st'.counts == st.counts[st.thread := st.counts[st.thread] + more]
    ensures
      Cutting(c, r, tok, st0, curr0, us0, if marks == [] then [TileLeft(c, r, tok), mark] else marks + [mark], st',
              if marks == [] && curr0.totalKv > 0 then us0 + [WholeOf(c, curr0)] else us)
  {
    hide TileLeft; hide TileRight;
  }

  /** Taking the rest after the cuts completes the split. */
  lemma CutsEnd(c: Config, r: nat, tok: nat, st0: State, curr0: Item, us0: seq<Unit>, marks: seq<int>, st: State,
                us: seq<Unit>, st': State, curr': Item, us': seq<Unit>)
    requires ValidConfig(c) && TileAt(c, r, tok) && curr0.req < |c.reqs| && marks != []
    requires Cutting(c, r, tok, st0, curr0, us0, marks, st, us) && st.thread < |st.counts|
    requires var left := TileRight(c, r, tok) - marks[|marks| - 1];
             && Fits(c, left, st)
             && st'.remaining == st.remaining - left - if st.remaining < left then c.minSplit else 0
    requires st'.thread == st.thread && st'.localId == st.localId && PlanOf(st', us')
    requires st'.counts == st.counts[st.thread := st.counts[st.thread] + 1]
    requires us' == us + [OpenUnit(c, r, tok, marks)] && curr' == FreshItem(c, r, tok + c.maxTok, 0)
    ensures Splits(c, r, tok, st0, curr0, us0, marks, st', curr', us')
  {
    hide TileRight; hide TileLeft; hide PlanOf;
  }

  lemma AtStart(c: Config, r: nat, tok: nat, st0: State, curr0: Item, us0: seq<Unit>)
    requires ValidConfig(c) && TileAt(c, r, tok) && st0.thread < |st0.counts| && curr0.req == r
    ensures Here(c, r, tok, st0, curr0, us0, st0, curr0, us0)
    ensures LeftItem(c, r, tok, st0, curr0).req == r
  {}

  /** Pushing on is what leaving means. */
  lemma GoneAfterPush(c: Config, r: nat, tok: nat, st0: State, curr0: Item, us0: seq<Unit>, st: State, curr: Item,
                      us: seq<Unit>)
    requires ValidConfig(c) && TileAt(c, r, tok) && st0.thread < |st0.counts| && curr0.req < |c.reqs|
    requires Leaves(c, r, tok, st0, curr0) && st0.remaining < c.minSplit && curr == FreshItem(c, r, tok, 0)
    requires st == NextThread(c, if curr0.totalKv > 0 then Emit(st0, curr0) else st0)
    requires us == if curr0.totalKv > 0 then us0 + [WholeOf(c, curr0)] else us0
    ensures Gone(c, r, tok, st0, curr0, us0, st, curr, us) && Here(c, r, tok, st0, curr0, us0, st, curr, us)
  {}

  lemma JoinsTaken(c: Config, r: nat, tok: nat, st0: State, curr0: Item, st: State, curr: Item)
    requires ValidConfig(c) && TileAt(c, r, tok)
    requires var len := TileLen(c, r, tok);
             && curr == curr0.(qNum := curr0.qNum + TileNum(c, r, tok), totalKv := curr0.totalKv + len)
             && st == st0.(remaining := st.remaining)
             && st.remaining == st0.remaining - len - if st0.remaining < len then c.minSplit else 0
    ensures Joins(c, r, tok, st0, curr0, true, st, curr)
  {}

  lemma JoinPlaced(c: Config, r: nat, tok: nat, st0: State, curr0: Item, us0: seq<Unit>,
                   st1: State, curr1: Item, us1: seq<Unit>, st: State, curr: Item)
    requires ValidConfig(c) && TileAt(c, r, tok) && st0.thread < |st0.counts| && curr0.req < |c.reqs|
    requires Gone(c, r, tok, st0, curr0, us0, st1, curr1, us1)
    requires Fits(c, TileLen(c, r, tok), st1) && (Leaves(c, r, tok, st0, curr0) ==> st0.remaining < c.minSplit)
    requires Joins(c, r, tok, st1, curr1, true, st, curr)
    ensures Placed(c, r, tok, st0, curr0, us0, st, curr, us1)
  {
    hide Leaves; hide TileLen; hide TileNum;
  }

  lemma SplitPlaced(c: Config, r: nat, tok: nat, st0: State, curr0: Item, us0: seq<Unit>, marks: seq<int>,
                    st: State, curr: Item, us: seq<Unit>)
    requires ValidConfig(c) && TileAt(c, r, tok) && st0.thread < |st0.counts| && curr0.req < |c.reqs|
    requires LeftItem(c, r, tok, st0, curr0).req < |c.reqs|
    requires !Fits(c, TileLen(c, r, tok), LeftState(c, r, tok, st0, curr0)) && MaySplit(c, r, tok)
    requires Splits(c, r, tok, LeftState(c, r, tok, st0, curr0), LeftItem(c, r, tok, st0, curr0),
                    LeftPlan(c, r, tok, st0, curr0, us0), marks, st, curr, us)
    ensures Placed(c, r, tok, st0, curr0, us0, st, curr, us)
  {
    hide Splits; hide LeftState; hide LeftItem; hide LeftPlan; hide TileLen; hide MaySplit;
  }

  lemma LoopFacts(c: Config, r: nat, tok: nat, st: State, curr: Item, us: seq<Unit>, marks: seq<int>, kvPos: int,
                  kvLen: int)
    requires ValidConfig(c) && TileAt(c, r, tok) && TileLoop(c, r, tok, st, curr, us, marks, kvPos, kvLen)
    ensures ThreadsOk(c, st) && st.thread < c.threads == |st.counts|
    ensures kvLen > 0 && kvPos + kvLen == TileRight(c, r, tok)
    ensures curr.totalKv >= 0 && (marks == [] ==> PlanOf(st, us) && Collecting(c, r, tok, curr, us))
    ensures marks == [] ==> kvPos == TileLeft(c, r, tok) && kvLen == TileLen(c, r, tok)
    ensures marks == [] ==> curr.req == r && st.localId == 0
    ensures marks != [] ==> marks[|marks| - 1] == kvPos && curr == FreshItem(c, r, tok, kvPos)
    ensures marks != [] ==> st.counts[st.thread] == 0
  {
    hide Aligned; hide Total; hide Tiled; hide LenReqs; hide LenFrom; hide KvTotal; hide PlanOf; hide Splitting;
  }

  lemma PushKeepsLoop(c: Config, r: nat, tok: nat, st0: State, curr0: Item, us0: seq<Unit>, kvLen: int,
                      st: State, curr: Item, us: seq<Unit>)
    requires ValidConfig(c) && TileAt(c, r, tok)
    requires TileLoop(c, r, tok, st0, curr0, us0, [], TileLeft(c, r, tok), kvLen)
    requires ThreadsOk(c, st) && PlanOf(st, us) && Collecting(c, r, tok, curr, us)
    requires st.remaining == c.perThread && st.localId == st0.localId && curr == FreshItem(c, r, tok, 0)
    requires KvTotal(st.items) == KvTotal(st0.items) + curr0.totalKv
    ensures TileLoop(c, r, tok, st, curr, us, [], TileLeft(c, r, tok), kvLen)
  {
    hide Aligned; hide Total; hide Tiled; hide LenReqs; hide LenFrom; hide KvTotal; hide PlanOf;
  }

  lemma ReadyFacts(c: Config, r: nat, tok: nat, st: State, curr: Item, us: seq<Unit>)
    requires ValidConfig(c) && Ready(c, r, tok, st, curr, us)
    ensures ThreadsOk(c, st) && PlanOf(st, us) && st.thread < |st.counts| && curr.req == r < |c.reqs|
    ensures
      tok < c.reqs[r].qNum ==>
        TileLoop(c, r, tok, st, curr, us, [], TileLeft(c, r, tok), TileLen(c, r, tok))
  {
    hide Aligned; hide Total; hide Tiled; hide LenReqs; hide KvTotal; hide PlanOf;
  }

  /** The loop over one tile: where it stands, and what has been decided. */
  ghost predicate InLoop(c: Config, r: nat, tok: nat, st0: State, curr0: Item, us0: seq<Unit>,
                         st: State, curr: Item, us: seq<Unit>, marks: seq<int>, kvPos: int, kvLen: int)
    requires ValidConfig(c) && TileAt(c, r, tok)
  {
    && st0.thread < |st0.counts| && curr0.req == r && ThreadsOk(c, st0)
    && TileLoop(c, r, tok, st, curr, us, marks, kvPos, kvLen)
    && LeftItem(c, r, tok, st0, curr0).req == r
    && (marks == [] ==> Here(c, r, tok, st0, curr0, us0, st, curr, us))
    && (marks != [] ==>
          && !Fits(c, TileLen(c, r, tok), LeftState(c, r, tok, st0, curr0)) && MaySplit(c, r, tok)
          && Cutting(c, r, tok, LeftState(c, r, tok, st0, curr0), LeftItem(c, r, tok, st0, curr0),
                     LeftPlan(c, r, tok, st0, curr0, us0), marks, st, us))
  }

  method Accept(c: Config, r: nat, tok: nat, ghost st0: State, ghost curr0: Item, ghost us0: seq<Unit>,
                st1: State, curr1: Item, ghost us1: seq<Unit>, ghost marks: seq<int>, ghost kvPos: int, kvLen: int)
    returns (st: State, curr: Item, ghost us: seq<Unit>)
    requires ValidConfig(c) && TileAt(c, r, tok)
    requires InLoop(c, r, tok, st0, curr0, us0, st1, curr1, us1, marks, kvPos, kvLen)
    requires kvLen <= st1.remaining + c.minSplit || st1.thread == c.threads - 1
    ensures ThreadsOk(c, st) && Ready(c, r, tok + c.maxTok, st, curr, us)
    ensures Placed(c, r, tok, st0, curr0, us0, st, curr, us)
  {
    hide Aligned; hide Tiled; hide Render; hide Reductions; hide SplitCount; hide LenFrom; hide LenReqs; hide Ready;
    hide KvTotal; hide Total; hide TileLeft; hide TileRight; hide TileNum; hide TileLen; hide TileLoop; hide ThreadsOk;
    hide LeftState; hide LeftItem; hide LeftPlan; hide Leaves; hide Cutting; hide Splits; hide PlanOf; hide Here;
    hide Collecting; hide Placed; hide Joins;
    LoopFacts(c, r, tok, st1, curr1, us1, marks, kvPos, kvLen);
    st, curr, us := TakeRest(c, r, tok, st1, curr1, us1, marks, kvPos, kvLen);
    ReadyFacts(c, r, tok + c.maxTok, st, curr, us);
    if marks == [] {
      Decides(c, r, tok, st0, curr0, us0, st1, curr1, us1);
      JoinsTaken(c, r, tok, st1, curr1, st, curr);
      JoinPlaced(c, r, tok, st0, curr0, us0, st1, curr1, us1, st, curr);
    } else {
      CutsEnd(c, r, tok, LeftState(c, r, tok, st0, curr0), LeftItem(c, r, tok, st0, curr0),
              LeftPlan(c, r, tok, st0, curr0, us0), marks, st1, us1, st, curr, us);
      SplitPlaced(c, r, tok, st0, curr0, us0, marks, st, curr, us);
    }
  }

  method Leave(c: Config, r: nat, tok: nat, ghost st0: State, ghost curr0: Item, ghost us0: seq<Unit>,
               st1: State, curr1: Item, ghost us1: seq<Unit>, ghost marks: seq<int>, ghost kvPos: int, kvLen: int)
    returns (st: State, curr: Item, ghost us: seq<Unit>)
    requires ValidConfig(c) && TileAt(c, r, tok) && st1.thread < |st1.counts|
    requires InLoop(c, r, tok, st0, curr0, us0, st1, curr1, us1, marks, kvPos, kvLen)
    requires !(kvLen <= st1.remaining + c.minSplit || st1.thread == c.threads - 1)
    requires st1.remaining < c.minSplit && (curr1.totalKv > 0 || st1.counts[st1.thread] > 0)
    ensures InLoop(c, r, tok, st0, curr0, us0, st, curr, us, marks, kvPos, kvLen)
    ensures st.thread == st1.thread + 1
  {
    hide Aligned; hide Tiled; hide Render; hide Reductions; hide SplitCount; hide LenFrom; hide LenReqs; hide Ready;
    hide KvTotal; hide Total; hide TileLeft; hide TileRight; hide TileNum; hide TileLen; hide TileLoop; hide ThreadsOk;
    hide LeftState; hide LeftItem; hide LeftPlan; hide Leaves; hide Cutting; hide Splits; hide PlanOf; hide Here;
    hide Collecting; hide Placed; hide Joins;
    LoopFacts(c, r, tok, st1, curr1, us1, marks, kvPos, kvLen);
    Decides(c, r, tok, st0, curr0, us0, st1, curr1, us1);
    st, curr, us := PushToNext(c, r, tok, st1, curr1, us1);
    GoneAfterPush(c, r, tok, st0, curr0, us0, st, curr, us);
    PushKeepsLoop(c, r, tok, st1, curr1, us1, kvLen, st, curr, us);
  }

  method Unsplit(c: Config, r: nat, tok: nat, ghost st0: State, ghost curr0: Item, ghost us0: seq<Unit>,
                 st1: State, curr1: Item, ghost us1: seq<Unit>, ghost marks: seq<int>, ghost kvPos: int, kvLen: int)
    returns (st: State, curr: Item, ghost us: seq<Unit>)
    requires ValidConfig(c) && TileAt(c, r, tok) && st1.thread < |st1.counts|
    requires InLoop(c, r, tok, st0, curr0, us0, st1, curr1, us1, marks, kvPos, kvLen)
    requires !(kvLen <= st1.remaining + c.minSplit || st1.thread == c.threads - 1)
    requires !(st1.remaining < c.minSplit && (curr1.totalKv > 0 || st1.counts[st1.thread] > 0))
    requires !MaySplit(c, r, tok)
    ensures ThreadsOk(c, st) && Ready(c, r, tok + c.maxTok, st, curr, us)
    ensures Placed(c, r, tok, st0, curr0, us0, st, curr, us)
  {
    hide Aligned; hide Tiled; hide Render; hide Reductions; hide SplitCount; hide LenFrom; hide LenReqs; hide Ready;
    hide KvTotal; hide Total; hide TileLeft; hide TileRight; hide TileNum; hide TileLen; hide TileLoop; hide ThreadsOk;
    hide LeftState; hide LeftItem; hide LeftPlan; hide Leaves; hide Cutting; hide Splits; hide PlanOf; hide Here;
    hide Collecting; hide Placed; hide Joins;
    LoopFacts(c, r, tok, st1, curr1, us1, marks, kvPos, kvLen);
    Decides(c, r, tok, st0, curr0, us0, st1, curr1, us1);
    st, curr, us := TakeWhole(c, r, tok, st1, curr1, us1, kvLen);
    WholePlaced(c, r, tok, st0, curr0, us0, st1, curr1, us1, st, curr, us);
  }

  method CutOne(c: Config, r: nat, tok: nat, ghost st0: State, ghost curr0: Item, ghost us0: seq<Unit>,
                st1: State, curr1: Item, ghost us1: seq<Unit>, ghost marks1: seq<int>, kvPos1: int, kvLen1: int)
    returns (st: State, curr: Item, ghost us: seq<Unit>, ghost marks: seq<int>, kvPos: int, kvLen: int)
    requires ValidConfig(c) && TileAt(c, r, tok) && st1.thread < |st1.counts|
    requires InLoop(c, r, tok, st0, curr0, us0, st1, curr1, us1, marks1, kvPos1, kvLen1)
    requires !(kvLen1 <= st1.remaining + c.minSplit || st1.thread == c.threads - 1)
    requires !(st1.remaining < c.minSplit && (curr1.totalKv > 0 || st1.counts[st1.thread] > 0))
    requires MaySplit(c, r, tok)
    ensures InLoop(c, r, tok, st0, curr0, us0, st, curr, us, marks, kvPos, kvLen)
    ensures st.thread == st1.thread + 1
  {
    hide Aligned; hide Tiled; hide Render; hide Reductions; hide SplitCount; hide LenFrom; hide LenReqs; hide Ready;
    hide KvTotal; hide Total; hide TileLeft; hide TileRight; hide TileNum; hide TileLen; hide TileLoop; hide ThreadsOk;
    hide LeftState; hide LeftItem; hide LeftPlan; hide Leaves; hide Cutting; hide Splits; hide PlanOf; hide Here;
    hide Collecting; hide Placed; hide Joins;
    LoopFacts(c, r, tok, st1, curr1, us1, marks1, kvPos1, kvLen1);
    if marks1 == [] { Decides(c, r, tok, st0, curr0, us0, st1, curr1, us1); }
    st, curr, us, marks, kvPos, kvLen := SplitOff(c, r, tok, st1, curr1, us1, marks1, kvPos1, kvLen1);
    CutsGrow(c, r, tok, LeftState(c, r, tok, st0, curr0), LeftItem(c, r, tok, st0, curr0),
             LeftPlan(c, r, tok, st0, curr0, us0), marks1, st1, us1, kvPos, st);
  }

  /** Lines 467-581: hand the KV length of one Q tile to threads. */
  method PlaceTile(c: Config, r: nat, tok: nat, st0: State, curr0: Item, ghost us0: seq<Unit>)
    returns (st: State, curr: Item, ghost us: seq<Unit>)
    requires ValidConfig(c) && TileAt(c, r, tok)
    requires Ready(c, r, tok, st0, curr0, us0)
    ensures ThreadsOk(c, st) && Ready(c, r, tok + c.maxTok, st, curr, us)
    ensures st0.thread < |st0.counts| && curr0.req < |c.reqs| && Placed(c, r, tok, st0, curr0, us0, st, curr, us)
  {
    ReadyFacts(c, r, tok, st0, curr0, us0);
    hide Ready; hide TileLoop; hide Placed; hide Here; hide ThreadsOk; hide Cutting; hide LeftItem; hide LeftState;
    hide LeftPlan; hide TileNum; hide TileLen; hide TileLeft;
    st, curr, us := st0, curr0, us0;
    var kvLen, kvPos: int := TileLen(c, r, tok), TileLeft(c, r, tok);
    ghost var marks: seq<int> := [];
    AtStart(c, r, tok, st0, curr0, us0);
    while kvLen > 0
      invariant InLoop(c, r, tok, st0, curr0, us0, st, curr, us, marks, kvPos, kvLen)
      invariant st.thread < c.threads == |st.counts| && kvLen > 0
      decreases c.threads - st.thread
    {
      if kvLen <= st.remaining + c.minSplit || st.thread == c.threads - 1 {
        st, curr, us := Accept(c, r, tok, st0, curr0, us0, st, curr, us, marks, kvPos, kvLen);
        break;
      }
      if st.remaining < c.minSplit && (curr.totalKv > 0 || st.counts[st.thread] > 0) {
        st, curr, us := Leave(c, r, tok, st0, curr0, us0, st, curr, us, marks, kvPos, kvLen);
        LoopFacts(c, r, tok, st, curr, us, marks, kvPos, kvLen);
        continue;
      }
      if tok + c.maxTok < c.reqs[r].qNum || TileNum(c, r, tok) > c.threshold {
        st, curr, us := Unsplit(c, r, tok, st0, curr0, us0, st, curr, us, marks, kvPos, kvLen);
        break;
      }
      st, curr, us, marks, kvPos, kvLen := CutOne(c, r, tok, st0, curr0, us0, st, curr, us, marks, kvPos, kvLen);
      LoopFacts(c, r, tok, st, curr, us, marks, kvPos, kvLen);
    }
  }

  /** Taking a tile whole, on the next thread or on this one. */
  lemma WholePlaced(c: Config, r: nat, tok: nat, st0: State, curr0: Item, us0: seq<Unit>,
                    st1: State, curr1: Item, us1: seq<Unit>, st: State, curr: Item, us: seq<Unit>)
    requires ValidConfig(c) && TileAt(c, r, tok) && st0.thread < |st0.counts| && curr0.req < |c.reqs|
    requires st1.thread < |st1.counts| && curr1.req < |c.reqs|
    requires !MaySplit(c, r, tok) && !Fits(c, TileLen(c, r, tok), st1)
    requires
      var push := curr1.qNum % c.tileTok == 0 && (curr1.totalKv > 0 || st1.counts[st1.thread] > 0);
      var st2 := if push then NextThread(c, if curr1.totalKv > 0 then Emit(st1, curr1) else st1) else st1;
      var curr2 := if push then FreshItem(c, r, tok, 0) else curr1;
      && (if push then st1 == st0 && curr1 == curr0 && us1 == us0 && Leaves(c, r, tok, st0, curr0)
          else Gone(c, r, tok, st0, curr0, us0, st1, curr1, us1))
      && (push ==> st1.remaining >= c.minSplit)
      && st == st2.(remaining := st2.remaining - TileLen(c, r, tok))
      && curr == curr2.(qNum := curr2.qNum + TileNum(c, r, tok), totalKv := curr2.totalKv + TileLen(c, r, tok))
      && us == if push && curr1.totalKv > 0 then us1 + [WholeOf(c, curr1)] else us1
    ensures Placed(c, r, tok, st0, curr0, us0, st, curr, us)
  {
    hide TileLen; hide TileNum; hide MaySplit; hide Leaves;
  }

  // ----- all requests -----

  /** Between requests: everything before request `r` is planned and emitted. */
  ghost predicate Between(c: Config, r: nat, st: State, us: seq<Unit>)
    requires ValidConfig(c) && r <= |c.reqs|
  {
    && ThreadsOk(c, st) && PlanOf(st, us) && Tiled(c, us, r, 0)
    && (st.counts[st.thread] == 0 ==> st.remaining == c.perThread)
    && KvTotal(st.items) + LenReqs(c, r) == LenReqs(c, 0)
  }

  // ----- a whole run -----

  /** Where the splitting stands before the tile of request `req` that starts at token `tok`. */
  datatype Stage = Stage(req: nat, tok: nat, st: State, curr: Item, us: seq<Unit>)

  /** A request begins with nothing collected. */
  function Begin(c: Config, r: nat, st: State, us: seq<Unit>): Stage {
    var len := if r < |c.reqs| then c.reqs[r].seqLen else 0;
    Stage(r, 0, st.(localId := 0), Item(r, 0, 0, 0, len, 0, -1, 0), us)
  }

  function StartState(c: Config): State {
    State([], [], seq(c.threads, _ => 0), 0, c.perThread, 0, 0)
  }

  /** The next tile is placed, or what the request has collected is written back and the next request begins. */
  ghost predicate Follows(c: Config, a: Stage, b: Stage)
    requires ValidConfig(c)
  {
    && a.req < |c.reqs| && a.curr.req == a.req && a.st.thread < |a.st.counts|
    && if a.tok < c.reqs[a.req].qNum then
         && b.req == a.req && b.tok == a.tok + c.maxTok
         && Placed(c, a.req, a.tok, a.st, a.curr, a.us, b.st, b.curr, b.us)
       else if a.curr.totalKv > 0 then
         b == Begin(c, a.req + 1, Emit(a.st, a.curr), a.us + [WholeOf(c, a.curr)])
       else
         b == Begin(c, a.req + 1, a.st, a.us)
  }

  /** The stages of the splitting from the start on, in order. */
  ghost predicate Run(c: Config, run: seq<Stage>)
    requires ValidConfig(c)
  {
    && run != [] && run[0] == Begin(c, 0, StartState(c), [])
    && forall k :: 0 <= k < |run| - 1 ==> Follows(c, run[k], run[k + 1])
  }

  ghost predicate RunTo(c: Config, run: seq<Stage>, last: Stage)
    requires ValidConfig(c)
  {
    Run(c, run) && run[|run| - 1] == last
  }

  lemma RunExtends(c: Config, run: seq<Stage>, a: Stage, b: Stage)
    requires ValidConfig(c) && RunTo(c, run, a) && Follows(c, a, b)
    ensures RunTo(c, run + [b], b)
  {
    hide Follows;
    var more := run + [b];
    forall k | 0 <= k < |more| - 1 ensures Follows(c, more[k], more[k + 1]) {
      if k < |run| - 1 { assert Follows(c, run[k], run[k + 1]); }
    }
  }

  lemma RequestBegins(c: Config, r: nat, st: State, us: seq<Unit>)
    requires ValidConfig(c) && r < |c.reqs| && Between(c, r, st, us)
    ensures Ready(c, r, 0, st.(localId := 0), FreshItem(c, r, 0, 0), us)
  {
    hide Aligned; hide Render; hide Reductions; hide SplitCount; hide KvTotal; hide Total; hide LenFrom;
  }

  lemma RequestEnds(c: Config, r: nat, tok: nat, st: State, curr: Item, us: seq<Unit>)
    requires ValidConfig(c) && Ready(c, r, tok, st, curr, us) && tok >= c.reqs[r].qNum
    ensures st.thread < |st.counts| && curr.req == r
    ensures
      curr.totalKv > 0 ==>
        ThreadsOk(c, Emit(st, curr)) && Between(c, r + 1, Emit(st, curr), us + [WholeOf(c, curr)])
    ensures curr.totalKv <= 0 ==> ThreadsOk(c, st) && Between(c, r + 1, st, us)
  {
    hide Aligned; hide Render; hide Reductions; hide SplitCount; hide KvTotal; hide Total;
    if curr.totalKv > 0 {
      EmitThreads(c, st, curr);
      EmitWhole(c, r, c.reqs[r].qNum, st, curr, us);
    }
  }

  /** Lines 442-588: one request. */
  method PlaceRequest(c: Config, r: nat, st0: State, ghost us0: seq<Unit>, ghost run0: seq<Stage>)
    returns (st: State, ghost us: seq<Unit>, ghost run: seq<Stage>)
    requires ValidConfig(c) && r < |c.reqs| && Between(c, r, st0, us0)
    requires RunTo(c, run0, Begin(c, r, st0, us0))
    ensures ThreadsOk(c, st) && Between(c, r + 1, st, us)
    ensures RunTo(c, run, Begin(c, r + 1, st, us))
  {
    hide Ready; hide Between; hide ThreadsOk; hide RunTo; hide Placed;
    RequestBegins(c, r, st0, us0);
    st, us, run := st0.(localId := 0), us0, run0;
    var curr := FreshItem(c, r, 0, 0);
    var tok := 0;
    while tok < c.reqs[r].qNum
      invariant Ready(c, r, tok, st, curr, us)
      invariant RunTo(c, run, Stage(r, tok, st, curr, us))
      decreases c.reqs[r].qNum - tok
    {
      ghost var before := Stage(r, tok, st, curr, us);
      ReadyFacts(c, r, tok, st, curr, us);
      st, curr, us := PlaceTile(c, r, tok, st, curr, us);
      tok := tok + c.maxTok;
      RunExtends(c, run, before, Stage(r, tok, st, curr, us));
      run := run + [Stage(r, tok, st, curr, us)];
    }
    ghost var before := Stage(r, tok, st, curr, us);
    RequestEnds(c, r, tok, st, curr, us);
    if curr.totalKv > 0 {
      us := us + [WholeOf(c, curr)];
      st := Emit(st, curr);
    }
    RunExtends(c, run, before, Begin(c, r + 1, st, us));
    run := run + [Begin(c, r + 1, st, us)];
  }

  lemma {:induction false} TotalZeros(n: nat)
    ensures Total(seq(n, _ => 0)) == 0
  {
    if n > 0 {
      assert seq<nat>(n, _ => 0)[..n - 1] == seq<nat>(n - 1, _ => 0);
      TotalZeros(n - 1);
    }
  }

  /** Lines 431-589: the splitting of all tasks. */
  method SplitTasks(c: Config) returns (st: State, ghost us: seq<Unit>, ghost run: seq<Stage>)
    requires ValidConfig(c)
    ensures ThreadsOk(c, st) && KvTotal(st.items) == LenReqs(c, 0) && Between(c, |c.reqs|, st, us)
    ensures RunTo(c, run, Begin(c, |c.reqs|, st, us))
  {
    hide Follows;
    st, us := StartState(c), [];
    run := [Begin(c, 0, st, us)];
    TotalZeros(c.threads);
    for r := 0 to |c.reqs|
      invariant Between(c, r, st, us) && RunTo(c, run, Begin(c, r, st, us))
    {
      st, us, run := PlaceRequest(c, r, st, us, run);
    }
  }

  /** Lines 399-426. */
  method TotalKvLen(c: Config) returns (total: nat)
    requires ValidConfig(c)
    ensures total == LenReqs(c, 0)
  {
    total := 0;
    for r := 0 to |c.reqs|
      invariant total + LenReqs(c, r) == LenReqs(c, 0)
    {
      var tok := 0;
      while tok < c.reqs[r].qNum
        invariant total + LenFrom(c, r, tok) + LenReqs(c, r + 1) == LenReqs(c, 0)
        decreases c.reqs[r].qNum - tok
      {
        total := total + TileLen(c, r, tok);
        tok := tok + c.maxTok;
      }
    }
  }

  // ----- schedule() -----

  /** ScheduleInput plus the machine: OpenMP threads and the default tile size its cache gives. */
  datatype Input = Input(reqs: seq<Request>, threads: nat, maxQ: nat, align: nat, headsQ: nat, headsKv: nat,
                         tileSize: nat, enableSplit: bool, window: int)

  ghost predicate ValidInput(i: Input) {
    && i.threads > 0 && i.maxQ > 0 && i.align > 0 && 0 < i.headsKv <= i.headsQ
    && i.tileSize >= i.maxQ && i.window >= NO_WINDOW
    && forall r :: 0 <= r < |i.reqs| ==> i.reqs[r].qNum <= i.reqs[r].seqLen
  }

  predicate UsesGqa(i: Input)
    requires ValidInput(i)
  {
    HeadsRatio(i);
    i.maxQ % (i.headsQ / i.headsKv) == 0
  }

  lemma HeadsRatio(i: Input)
    requires ValidInput(i)
    ensures i.headsQ / i.headsKv > 0
  {}

  /** Query heads handled together: the GQA group, or one when the group does not fit. */
  function HeadsPerKv(i: Input): (n: nat)
    requires ValidInput(i)
    ensures n > 0 && i.maxQ % n == 0
  {
    HeadsRatio(i);
    if UsesGqa(i) then i.headsQ / i.headsKv else 1
  }

  function ActualKvHeads(i: Input): nat
    requires ValidInput(i)
  {
    if UsesGqa(i) then i.headsKv else i.headsQ
  }

  lemma WholeDivision(a: nat, b: nat)
    requires a > 0 && b > 0 && a % b == 0
    ensures b <= a && a / b > 0
  {}

  function Derive(i: Input, perThread: nat): Config
    requires ValidInput(i)
  {
    Config(i.reqs, i.threads, i.maxQ / HeadsPerKv(i), i.align, AlignUp(i.maxQ * 4, i.align),
           if i.enableSplit then 1 else 0, i.tileSize / HeadsPerKv(i), perThread, i.window)
  }

  lemma DeriveValid(i: Input, perThread: nat)
    requires ValidInput(i) && Aligned(perThread, i.align)
    ensures ValidConfig(Derive(i, perThread))
  {
    WholeDivision(i.maxQ, HeadsPerKv(i));
  }

  lemma TileLenSame(i: Input, a: nat, b: nat, r: nat, tok: nat)
    requires ValidInput(i) && ValidConfig(Derive(i, a)) && ValidConfig(Derive(i, b)) && TileAt(Derive(i, a), r, tok)
    ensures TileLen(Derive(i, a), r, tok) == TileLen(Derive(i, b), r, tok)
  {
    hide Aligned; hide AlignDown; hide AlignUp; hide HeadsPerKv;
  }

  lemma {:induction false} LenFromSame(i: Input, a: nat, b: nat, r: nat, tok: nat)
    requires ValidInput(i) && ValidConfig(Derive(i, a)) && ValidConfig(Derive(i, b)) && r < |i.reqs|
    ensures LenFrom(Derive(i, a), r, tok) == LenFrom(Derive(i, b), r, tok)
    decreases i.reqs[r].qNum - tok
  {
    hide Aligned; hide TileLen;
    if tok < i.reqs[r].qNum {
      TileLenSame(i, a, b, r, tok);
      LenFromSame(i, a, b, r, tok + Derive(i, a).maxTok);
    }
  }

  lemma {:induction false} LenReqsSame(i: Input, a: nat, b: nat, r: nat)
    requires ValidInput(i) && ValidConfig(Derive(i, a)) && ValidConfig(Derive(i, b)) && r <= |i.reqs|
    ensures LenReqs(Derive(i, a), r) == LenReqs(Derive(i, b), r)
    decreases |i.reqs| - r
  {
    if r < |i.reqs| {
      LenFromSame(i, a, b, r, 0);
      LenReqsSame(i, a, b, r + 1);
    }
  }

  /** AttentionMetadata: `cu` is cu_workitem_num_per_thread. */
  datatype Metadata = Metadata(items: seq<Item>, reds: seq<Reduction>, splitNum: nat, cu: seq<nat>, effective: nat)

  /** The slices items[cu[t]..cu[t + 1]] of the effective threads are non-empty and cover all items. */
  ghost predicate SlicesOk(m: Metadata, threads: nat) {
    && |m.cu| == threads + 1 && m.effective <= threads
    && m.cu[0] == 0 && m.cu[m.effective] == |m.items|
    && (forall t :: 0 <= t < m.effective ==> m.cu[t] < m.cu[t + 1])
  }

  /** The metadata is what some plan that covers all requests stands for. */
  ghost predicate Implements(c: Config, m: Metadata, us: seq<Unit>)
    requires ValidConfig(c)
  {
    && Tiled(c, us, |c.reqs|, 0)
    && m.items == Render(us) && m.reds == Reductions(us) && m.splitNum == SplitCount(us)
    && SlicesOk(m, c.threads)
  }

  /** The metadata holds what a run over all requests has emitted, thread by thread. */
  ghost predicate Emitted(c: Config, m: Metadata, us: seq<Unit>, run: seq<Stage>)
    requires ValidConfig(c)
  {
    && Run(c, run)
    && var st := run[|run| - 1].st;
    && run[|run| - 1] == Begin(c, |c.reqs|, st, us)
    && m.items == st.items && m.reds == st.reds && m.splitNum == st.splits
    && |m.cu| == c.threads + 1 == |st.counts| + 1 && m.cu[0] == 0
    && forall t :: 0 <= t < c.threads ==> m.cu[t + 1] == m.cu[t] + st.counts[t]
  }

  /** What becomes of a schedule() call; a rejection is a failed TORCH_CHECK. */
  datatype Answer = Accepted(metadata: Metadata) | Rejected

  lemma {:induction false} TotalPrefix(s: seq<nat>, k: nat)
    requires k <= |s| && forall t :: k <= t < |s| ==> s[t] == 0
    ensures Total(s) == Total(s[..k])
  {
    if k == |s| {
      assert s[..k] == s;
    } else {
      var n := |s| - 1;
      assert s[..n][..k] == s[..k];
      TotalPrefix(s[..n], k);
    }
  }

  lemma TotalNext(s: seq<nat>, t: nat)
    requires t < |s|
    ensures Total(s[..t + 1]) == Total(s[..t]) + s[t] && Total(s[..0]) == 0
  {
    assert s[..t + 1][..t] == s[..t];
  }

  /** Lines 611-625: the effective threads and the prefix sums of their item counts. */
  method PrefixTable(counts: seq<nat>, ghost last: nat) returns (cu: seq<nat>, effective: nat)
    requires last < |counts| && forall t :: 0 <= t < last ==> counts[t] > 0
    requires forall t :: last < t < |counts| ==> counts[t] == 0
    ensures |cu| == |counts| + 1 && effective <= |counts|
    ensures cu[0] == 0 && cu[effective] == Total(counts)
    ensures forall t :: 0 <= t < |counts| ==> cu[t + 1] == cu[t] + counts[t]
    ensures forall t :: 0 <= t < |counts| ==> (counts[t] > 0 <==> t < effective)
  {
    hide Total;
    effective := 0;
    TotalNext(counts, 0);
    while effective < |counts| && counts[effective] != 0
      invariant 0 <= effective <= |counts|
      invariant forall t :: 0 <= t < effective ==> counts[t] > 0
    {
      effective := effective + 1;
    }
    cu := [0];
    for t := 0 to |counts|
      invariant |cu| == t + 1
      invariant forall k :: 0 <= k <= t ==> cu[k] == Total(counts[..k])
    {
      TotalNext(counts, t);
      cu := cu + [cu[t] + counts[t]];
    }
    forall t | 0 <= t < |counts| ensures cu[t + 1] == cu[t] + counts[t] { TotalNext(counts, t); }
    TotalPrefix(counts, effective);
  }

  /** The KV budget of a thread. */
  function Budgeted(i: Input, total: nat): (b: nat)
    requires ValidInput(i)
    ensures Aligned(b, i.align)
  {
    AlignedScale(AlignUp(total / i.threads, i.align), ActualKvHeads(i), i.align);
    AlignUp(total / i.threads, i.align) * ActualKvHeads(i)
  }

  /** The metadata has a prefix table of 1025 entries. */
  const MAX_THREADS := 1024

  /**
    schedule(): rejected exactly when a split tile would need more than 16 rows, or there
    are more threads than the prefix table has room for; otherwise the metadata of a plan
    that covers every token, whose work items carry exactly the KV length of the Q tiles.
   */
  method Schedule(i: Input) returns (res: Answer, c: Config, ghost us: seq<Unit>, ghost run: seq<Stage>)
    requires ValidInput(i)
    ensures res.Rejected? <==> (i.enableSplit && HeadsPerKv(i) > 16) || i.threads > 1024
    ensures res.Accepted? ==> |res.metadata.cu| <= MAX_THREADS + 1
    ensures ValidConfig(c)
    ensures res.Accepted? ==>
              && c == Derive(i, Budgeted(i, LenReqs(c, 0)))
              && Implements(c, res.metadata, us) && KvTotal(res.metadata.items) == LenReqs(c, 0)
              && Emitted(c, res.metadata, us, run)
  {
    hide Aligned; hide Render; hide Reductions; hide SplitCount; hide KvTotal; hide LenReqs; hide Budgeted;
    hide HeadsPerKv; hide UsesGqa; hide AlignUp; hide Tiled; hide Total;
    AlignedMultiple(0, i.align);
    DeriveValid(i, 0);
    c := Derive(i, 0);
    us, run := [], [];
    if c.threshold * HeadsPerKv(i) > 16 { return Rejected, c, us, run; }
    var total := TotalKvLen(c);
    DeriveValid(i, Budgeted(i, total));
    c := Derive(i, Budgeted(i, total));
    LenReqsSame(i, 0, Budgeted(i, total), 0);
    var st;
    st, us, run := SplitTasks(c);
    assert KvTotal(st.items) == LenReqs(c, 0) by { NoRequestsLeft(c); }
    if i.threads > MAX_THREADS { return Rejected, c, us, run; }
    var cu, effective := PrefixTable(st.counts, st.thread);
    res := Accepted(Metadata(st.items, st.reds, st.splits, cu, effective));
  }

  lemma NoRequestsLeft(c: Config)
    requires ValidConfig(c)
    ensures LenReqs(c, |c.reqs|) == 0
  {}
}
