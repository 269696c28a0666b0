/**
  What the greedy splitter decides, and what its decisions amount to: which tiles stay on
  a thread, leave it or are split, that nothing is left open by this, and how much KV
  work a thread is given at most.
 */
module ThreadLoads {
  import opened KvRanges
  import opened Scheduler
  import Powers

  // ----- the decision about one tile -----

  predicate Busy(st: State, curr: Item)
    requires st.thread < |st.counts|
  {
    curr.totalKv > 0 || st.counts[st.thread] > 0
  }

  /**
    A tile stays on the thread in one piece exactly if it fits the budget up to the minimal split
    length, or there is no other thread, or it may not be split and need not leave.  Otherwise
    some later thread becomes the current one.
   */
  lemma StaysIff(c: Config, r: nat, tok: nat, st0: State, curr0: Item, us0: seq<Unit>, st: State, curr: Item,
                 us: seq<Unit>)
    requires ValidConfig(c) && TileAt(c, r, tok) && st0.thread < |st0.counts| && curr0.req < |c.reqs|
    requires Placed(c, r, tok, st0, curr0, us0, st, curr, us)
    ensures
      var splittable := c.reqs[r].qNum <= tok + c.maxTok && c.reqs[r].qNum - tok <= c.threshold;
      var stays :=
        || TileLen(c, r, tok) <= st0.remaining + c.minSplit
        || st0.thread == c.threads - 1
        || (!splittable && !(Busy(st0, curr0) && (st0.remaining < c.minSplit || curr0.qNum % c.tileTok == 0)));
      && (if stays then st.thread == st0.thread else st0.thread < st.thread)
      && (stays ==> curr == curr0.(qNum := curr0.qNum + Min(c.maxTok, c.reqs[r].qNum - tok),
                                   totalKv := curr0.totalKv + TileLen(c, r, tok)))
      && (stays ==> st.items == st0.items && us == us0)
      && (stays ==>
            st.remaining == st0.remaining - TileLen(c, r, tok) -
              if st0.remaining < TileLen(c, r, tok) && (TileLen(c, r, tok) <= st0.remaining + c.minSplit ||
                                                        st0.thread == c.threads - 1)
              then c.minSplit else 0)
  {
    hide TileLen; hide Aligned;
  }

  /**
    A tile is split exactly if it may be and does not fit the thread it comes to, which is the
    next one if little is left of a budget that has been drawn on.  The first piece is what is left
    of that budget, the others are whole budgets, none shorter than the minimum, and the pieces go
    on until the rest fits or the last thread is reached.
   */
  lemma SplitIff(c: Config, r: nat, tok: nat, st0: State, curr0: Item, us0: seq<Unit>, st: State, curr: Item,
                 us: seq<Unit>)
    requires ValidConfig(c) && TileAt(c, r, tok) && st0.thread < c.threads == |st0.counts| && curr0.req < |c.reqs|
    requires Placed(c, r, tok, st0, curr0, us0, st, curr, us)
    ensures
      var splittable := c.reqs[r].qNum <= tok + c.maxTok && c.reqs[r].qNum - tok <= c.threshold;
      var crowded := Busy(st0, curr0) && st0.remaining < c.minSplit;
      var leaves := TileLen(c, r, tok) > st0.remaining + c.minSplit && st0.thread < c.threads - 1 && crowded;
      var thread, left := st0.thread + (if leaves then 1 else 0), if leaves then c.perThread else st0.remaining;
      var splits := splittable && TileLen(c, r, tok) > left + c.minSplit && thread < c.threads - 1;
      && (!splits ==> SplitCount(us) == SplitCount(us0))
      && (splits ==>
            && us != [] && us[|us| - 1].Split?
            && var marks, right := us[|us| - 1].marks, TileRight(c, r, tok);
            && st.thread == thread + |marks| - 1 && SplitCount(us) == SplitCount(us0) + |marks| && |marks| >= 2
            && marks[0] == TileLeft(c, r, tok)
            && (forall k :: 1 <= k < |marks| ==>
                  marks[k] == marks[0] + Max(left, c.minSplit) + (k - 1) * Max(c.perThread, c.minSplit))
            && (forall k :: 1 <= k < |marks| - 1 ==> right - marks[k] > c.perThread + c.minSplit)
            && (right - marks[|marks| - 1] <= c.perThread + c.minSplit || st.thread == c.threads - 1))
  {
    hide TileLen; hide TileLeft; hide TileRight; hide Aligned; hide SplitCount; hide PlanOf; hide Render;
    hide Reductions; hide Splits;
    var st1, curr1 := LeftState(c, r, tok, st0, curr0), LeftItem(c, r, tok, st0, curr0);
    var us1 := LeftPlan(c, r, tok, st0, curr0, us0);
    if curr0.totalKv > 0 { PlanAppend(us0, WholeOf(c, curr0)); }
    if !Fits(c, TileLen(c, r, tok), st1) && MaySplit(c, r, tok) {
      var marks :| Splits(c, r, tok, st1, curr1, us1, marks, st, curr, us);
      SplitShape(c, r, tok, st1, curr1, us1, marks, st, curr, us);
    }
  }

  lemma SplitShape(c: Config, r: nat, tok: nat, st0: State, curr0: Item, us0: seq<Unit>, marks: seq<int>,
                   st: State, curr: Item, us: seq<Unit>)
    requires ValidConfig(c) && TileAt(c, r, tok) && curr0.req < |c.reqs|
    requires Splits(c, r, tok, st0, curr0, us0, marks, st, curr, us)
    ensures
      var right := TileRight(c, r, tok);
      && us != [] && us[|us| - 1].Split? && us[|us| - 1].marks == marks && |marks| >= 2
      && st.thread == st0.thread + |marks| - 1 && SplitCount(us) == SplitCount(us0) + |marks|
      && marks[0] == TileLeft(c, r, tok)
      && (forall k :: 1 <= k < |marks| ==>
            marks[k] == marks[0] + Max(st0.remaining, c.minSplit) + (k - 1) * Max(c.perThread, c.minSplit))
      && (forall k :: 1 <= k < |marks| - 1 ==> right - marks[k] > c.perThread + c.minSplit)
      && (right - marks[|marks| - 1] <= c.perThread + c.minSplit || st.thread == c.threads - 1)
  {
    hide TileLeft; hide TileRight; hide TileNum; hide Aligned; hide SplitCount; hide PlanOf; hide Render;
    hide Reductions;
    if curr0.totalKv > 0 { PlanAppend(us0, WholeOf(c, curr0)); }
    var pre := if curr0.totalKv > 0 then us0 + [WholeOf(c, curr0)] else us0;
    PlanAppend(pre, OpenUnit(c, r, tok, marks));
    CutPositions(c, r, tok, st0, marks);
  }

  lemma {:induction false} CutPosition(c: Config, r: nat, tok: nat, st0: State, marks: seq<int>, k: nat)
    requires ValidConfig(c) && TileAt(c, r, tok) && Cuts(c, r, tok, st0, marks) && 1 <= k < |marks|
    ensures marks[k] == marks[0] + Max(st0.remaining, c.minSplit) + (k - 1) * Max(c.perThread, c.minSplit)
  {
    hide TileLeft; hide TileRight;
    if k > 1 {
      CutPosition(c, r, tok, st0, marks, k - 1);
      assert marks[(k - 1) + 1] == marks[k - 1] + Max(c.perThread, c.minSplit);
      Powers.Distribute(k - 2, 1, Max(c.perThread, c.minSplit));
    }
  }

  lemma CutPositions(c: Config, r: nat, tok: nat, st0: State, marks: seq<int>)
    requires ValidConfig(c) && TileAt(c, r, tok) && Cuts(c, r, tok, st0, marks)
    ensures forall k :: 1 <= k < |marks| ==>
              marks[k] == marks[0] + Max(st0.remaining, c.minSplit) + (k - 1) * Max(c.perThread, c.minSplit)
  {
    forall k | 1 <= k < |marks|
      ensures marks[k] == marks[0] + Max(st0.remaining, c.minSplit) + (k - 1) * Max(c.perThread, c.minSplit)
    {
      CutPosition(c, r, tok, st0, marks, k);
    }
  }

  // ----- the schedule leaves no choice -----

  lemma {:induction false} CutsAgree(c: Config, r: nat, tok: nat, st0: State, a: seq<int>, b: seq<int>, k: nat)
    requires ValidConfig(c) && TileAt(c, r, tok) && Cuts(c, r, tok, st0, a) && Cuts(c, r, tok, st0, b)
    requires k < |a| && k < |b|
    ensures a[k] == b[k]
  {
    hide TileLeft; hide TileRight;
    if k > 0 {
      CutPosition(c, r, tok, st0, a, k);
      CutPosition(c, r, tok, st0, b, k);
    }
  }

  lemma SplitsUnique(c: Config, r: nat, tok: nat, st0: State, curr0: Item, us0: seq<Unit>, a: seq<int>, b: seq<int>,
                     st: State, curr: Item, us: seq<Unit>, st': State, curr': Item, us': seq<Unit>)
    requires ValidConfig(c) && TileAt(c, r, tok) && curr0.req < |c.reqs|
    requires Splits(c, r, tok, st0, curr0, us0, a, st, curr, us)
    requires Splits(c, r, tok, st0, curr0, us0, b, st', curr', us')
    requires |a| <= |b|
    ensures a == b && st == st' && curr == curr' && us == us'
  {
    hide TileLeft; hide TileRight; hide TileNum; hide Render; hide Reductions; hide SplitCount;
    forall k | 0 <= k < |a| ensures a[k] == b[k] { CutsAgree(c, r, tok, st0, a, b, k); }
    if |a| < |b| { assert false; }
    assert st.counts == st'.counts;
  }

  lemma PlacedUnique(c: Config, r: nat, tok: nat, st0: State, curr0: Item, us0: seq<Unit>,
                     st: State, curr: Item, us: seq<Unit>, st': State, curr': Item, us': seq<Unit>)
    requires ValidConfig(c) && TileAt(c, r, tok) && st0.thread < |st0.counts| && curr0.req < |c.reqs|
    requires Placed(c, r, tok, st0, curr0, us0, st, curr, us) && Placed(c, r, tok, st0, curr0, us0, st', curr', us')
    ensures st == st' && curr == curr' && us == us'
  {
    hide Splits; hide TileLen; hide TileNum; hide Leaves; hide MaySplit;
    var st1, curr1 := LeftState(c, r, tok, st0, curr0), LeftItem(c, r, tok, st0, curr0);
    var us1 := LeftPlan(c, r, tok, st0, curr0, us0);
    if !Fits(c, TileLen(c, r, tok), st1) && MaySplit(c, r, tok) {
      var a :| Splits(c, r, tok, st1, curr1, us1, a, st, curr, us);
      var b :| Splits(c, r, tok, st1, curr1, us1, b, st', curr', us');
      if |a| <= |b| {
        SplitsUnique(c, r, tok, st1, curr1, us1, a, b, st, curr, us, st', curr', us');
      } else {
        SplitsUnique(c, r, tok, st1, curr1, us1, b, a, st', curr', us', st, curr, us);
      }
    }
  }

  lemma {:induction false} RunsAgree(c: Config, a: seq<Stage>, b: seq<Stage>, k: nat)
    requires ValidConfig(c) && Run(c, a) && Run(c, b) && k < |a| && k < |b|
    ensures a[k] == b[k]
  {
    hide Placed;
    if k > 0 {
      RunsAgree(c, a, b, k - 1);
      var p, x, y := a[k - 1], a[(k - 1) + 1], b[(k - 1) + 1];
      assert Follows(c, p, x) && Follows(c, p, y);
      if p.tok < c.reqs[p.req].qNum {
        PlacedUnique(c, p.req, p.tok, p.st, p.curr, p.us, x.st, x.curr, x.us, y.st, y.curr, y.us);
      }
    }
  }

  lemma MoreToDo(c: Config, run: seq<Stage>, k: nat)
    requires ValidConfig(c) && Run(c, run) && k < |run| - 1
    ensures run[k].req < |c.reqs|
  {
    assert Follows(c, run[k], run[k + 1]);
  }

  /** Two metadata of complete runs are the same: the rules leave no choice of work items or slices. */
  lemma ScheduleDetermined(c: Config, m: Metadata, us: seq<Unit>, a: seq<Stage>,
                           m': Metadata, us': seq<Unit>, b: seq<Stage>)
    requires ValidConfig(c) && Emitted(c, m, us, a) && Emitted(c, m', us', b)
    ensures m.items == m'.items && m.reds == m'.reds && m.splitNum == m'.splitNum && m.cu == m'.cu
    ensures a == b && us == us'
  {
    hide Placed;
    var n := if |a| <= |b| then |a| else |b|;
    forall k | 0 <= k < n ensures a[k] == b[k] { RunsAgree(c, a, b, k); }
    if |a| < |b| { MoreToDo(c, b, n - 1); }
    if |b| < |a| { MoreToDo(c, a, n - 1); }
    forall t | 0 <= t <= c.threads ensures m.cu[t] == m'.cu[t] { SameTable(m.cu, m'.cu, t); }
  }

  lemma {:induction false} SameTable(x: seq<int>, y: seq<int>, t: nat)
    requires t < |x| == |y| && x[0] == y[0]
    requires forall k :: 0 <= k < |x| - 1 ==> x[k + 1] - x[k] == y[k + 1] - y[k]
    ensures x[t] == y[t]
  {
    if t > 0 {
      SameTable(x, y, t - 1);
      assert x[(t - 1) + 1] - x[t - 1] == y[(t - 1) + 1] - y[t - 1];
    }
  }

  // ----- how much a thread is given -----

  /** Work items of the threads before `t`. */
  function Before(counts: seq<nat>, t: nat): nat
    requires t <= |counts|
  {
    Total(counts[..t])
  }

  lemma {:induction false} BeforeGrows(counts: seq<nat>, a: nat, b: nat)
    requires a <= b <= |counts|
    ensures Before(counts, a) <= Before(counts, b)
  {
    if a < b {
      BeforeGrows(counts, a, b - 1);
      TotalNext(counts, b - 1);
    }
  }

  lemma BeforeAll(counts: seq<nat>, t: nat)
    requires t <= |counts|
    ensures Before(counts, t) <= Total(counts)
  {
    BeforeGrows(counts, t, |counts|);
    assert counts[..|counts|] == counts;
  }

  /** KV length of the work items of thread `t`. */
  function Load(items: seq<Item>, counts: seq<nat>, t: nat): int
    requires t < |counts| && Total(counts) == |items|
  {
    BeforeAll(counts, t);
    BeforeAll(counts, t + 1);
    KvTotal(items[..Before(counts, t + 1)]) - KvTotal(items[..Before(counts, t)])
  }

  /** No tile that may not be split is longer than `longest`. */
  ghost predicate Longest(c: Config, longest: nat)
    requires ValidConfig(c)
  {
    forall r: nat, tok: nat :: TileAt(c, r, tok) && tok % c.maxTok == 0 && !MaySplit(c, r, tok) ==>
      TileLen(c, r, tok) <= longest
  }

  function Cap(c: Config, longest: nat): int { c.perThread + Max(c.minSplit, longest) }

  /** The items are those of the threads up to the current one. */
  ghost predicate Filled(c: Config, st: State) {
    && st.thread < c.threads == |st.counts| && Total(st.counts) == |st.items|
    && forall t :: st.thread < t < c.threads ==> st.counts[t] == 0
  }

  lemma FilledBefore(c: Config, st: State, t: nat)
    requires Filled(c, st) && st.thread < t <= c.threads
    ensures Before(st.counts, t) == |st.items|
  {
    TotalPrefix(st.counts, t);
  }

  ghost predicate Loads(c: Config, longest: nat, st: State, more: int) {
    && Filled(c, st)
    && (forall t :: 0 <= t < st.thread ==> Load(st.items, st.counts, t) <= Cap(c, longest))
    && Load(st.items, st.counts, st.thread) + more + st.remaining <= c.perThread
    && (st.thread < c.threads - 1 ==> Load(st.items, st.counts, st.thread) + more <= Cap(c, longest))
  }

  lemma EmitFilled(c: Config, st: State, i: Item)
    requires Filled(c, st)
    ensures Filled(c, Emit(st, i))
  {
    hide Total;
    TotalBump(st.counts, st.thread);
  }

  lemma EmitLoad(c: Config, st: State, i: Item, t: nat)
    requires Filled(c, st) && t <= st.thread && Filled(c, Emit(st, i))
    ensures Load(Emit(st, i).items, Emit(st, i).counts, t)
            == Load(st.items, st.counts, t) + if t == st.thread then i.totalKv else 0
  {
    hide Total; hide KvTotal;
    var st' := Emit(st, i);
    BeforeAll(st.counts, t);
    BeforeAll(st.counts, t + 1);
    assert st'.counts[..t] == st.counts[..t];
    assert st'.items[..Before(st.counts, t)] == st.items[..Before(st.counts, t)];
    if t < st.thread {
      assert st'.counts[..t + 1] == st.counts[..t + 1];
      assert st'.items[..Before(st.counts, t + 1)] == st.items[..Before(st.counts, t + 1)];
    } else {
      FilledBefore(c, st, t + 1);
      FilledBefore(c, st', t + 1);
      assert st.items[..|st.items|] == st.items && st'.items[..|st'.items|] == st'.items;
      KvTotalAppend(st.items, i);
    }
  }

  /** What was collected becomes a work item of the current thread. */
  lemma LoadsEmit(c: Config, longest: nat, st: State, i: Item)
    requires Loads(c, longest, st, i.totalKv)
    ensures st.thread < |st.counts| && Loads(c, longest, Emit(st, i), 0)
  {
    hide Total; hide KvTotal; hide Load; hide Cap;
    EmitFilled(c, st, i);
    var st' := Emit(st, i);
    forall t | 0 <= t <= st.thread
      ensures Load(st'.items, st'.counts, t)
              == Load(st.items, st.counts, t) + if t == st.thread then i.totalKv else 0
    {
      EmitLoad(c, st, i, t);
    }
  }

  lemma LoadsNext(c: Config, longest: nat, st: State)
    requires Loads(c, longest, st, 0) && st.thread < c.threads - 1 && c.perThread >= 0
    ensures Loads(c, longest, NextThread(c, st), 0)
  {
    hide Total; hide KvTotal; hide Before;
    FilledBefore(c, st, st.thread + 1);
    FilledBefore(c, st, st.thread + 2);
  }

  lemma IdleLoad(c: Config, st: State)
    requires Filled(c, st) && st.counts[st.thread] == 0
    ensures Load(st.items, st.counts, st.thread) == 0
  {
    hide KvTotal;
    TotalNext(st.counts, st.thread);
  }

  /** A tile is taken as a whole: it fits, there is no other thread, or it may not be split. */
  lemma LoadsJoin(c: Config, longest: nat, st: State, more: int, len: int, penalty: nat)
    requires Loads(c, longest, st, more) && c.perThread >= 0 && more >= 0
    requires
      || len <= st.remaining + c.minSplit || st.thread == c.threads - 1
      || (len <= longest && (st.remaining >= c.minSplit || (more == 0 && st.counts[st.thread] == 0)))
    ensures Loads(c, longest, st.(remaining := st.remaining - len - penalty), more + len)
  {
    hide Total; hide Load;
    if st.counts[st.thread] == 0 { IdleLoad(c, st); }
  }

  /** A piece is cut off a tile and the next thread goes on. */
  lemma LoadsCut(c: Config, longest: nat, st: State, i: Item)
    requires Loads(c, longest, st, 0) && c.perThread >= 0 && st.thread < c.threads - 1
    requires i.totalKv == Max(st.remaining, c.minSplit)
    requires st.remaining >= c.minSplit || st.counts[st.thread] == 0
    ensures st.thread < |st.counts| && Loads(c, longest, NextThread(c, Emit(st, i)), 0)
  {
    hide Total; hide Load;
    var st' := st.(remaining := st.remaining - i.totalKv);
    if st.counts[st.thread] == 0 { IdleLoad(c, st); }
    LoadsEmit(c, longest, st', i);
    LoadsNext(c, longest, Emit(st', i));
    assert NextThread(c, Emit(st', i)) == NextThread(c, Emit(st, i));
  }

  /** The first `j` pieces of a split tile, one thread each. */
  function Dealt(c: Config, st: State, u: Unit, base: nat, j: nat): (r: State)
    requires u.Split? && j <= |u.marks| && st.thread + j <= |st.counts|
    ensures r.thread == st.thread + j && |r.counts| == |st.counts|
  {
    if j == 0 then st else NextThread(c, Emit(Dealt(c, st, u, base, j - 1), SplitItem(u, base, j - 1)))
  }

  lemma {:induction false} DealtItems(c: Config, st: State, u: Unit, base: nat, j: nat)
    requires u.Split? && j <= |u.marks| && st.thread + j <= |st.counts|
    ensures
      var r := Dealt(c, st, u, base, j);
      && r.items == st.items + SplitItems(u, base, j)
      && r.remaining == (if j == 0 then st.remaining else c.perThread)
      && forall t :: 0 <= t < |r.counts| ==>
           r.counts[t] == st.counts[t] + if st.thread <= t < st.thread + j then 1 else 0
  {
    hide SplitItem;
    if j > 0 {
      DealtItems(c, st, u, base, j - 1);
      assert SplitItems(u, base, j) == SplitItems(u, base, j - 1) + [SplitItem(u, base, j - 1)];
    }
  }

  lemma {:induction false} DealtLoads(c: Config, longest: nat, r: nat, tok: nat, st: State, marks: seq<int>,
                                      base: nat, j: nat)
    requires ValidConfig(c) && TileAt(c, r, tok) && Cuts(c, r, tok, st, marks) && j < |marks|
    requires Loads(c, longest, st, 0) && (st.remaining >= c.minSplit || st.counts[st.thread] == 0)
    ensures Loads(c, longest, Dealt(c, st, OpenUnit(c, r, tok, marks), base, j), 0)
  {
    LoadsFilled(c, longest, st, 0);
    hide Loads; hide Aligned; hide TileLeft; hide TileRight; hide TileNum; hide Total;
    if j > 0 {
      var u := OpenUnit(c, r, tok, marks);
      DealtLoads(c, longest, r, tok, st, marks, base, j - 1);
      DealtItems(c, st, u, base, j - 1);
      var mid := Dealt(c, st, u, base, j - 1);
      LoadsCut(c, longest, mid, SplitItem(u, base, j - 1));
    }
  }

  lemma LoadsFilled(c: Config, longest: nat, st: State, more: int)
    requires Loads(c, longest, st, more)
    ensures Filled(c, st)
  {}

  /** What every stage of a run keeps. */
  ghost predicate StageLoads(c: Config, longest: nat, s: Stage)
    requires ValidConfig(c)
  {
    && Loads(c, longest, s.st, s.curr.totalKv) && PlanOf(s.st, s.us)
    && s.curr.totalKv >= 0 && s.tok % c.maxTok == 0
    && (s.req < |c.reqs| ==>
          s.curr == Item(s.req, s.curr.qStart, s.curr.qNum, 0, c.reqs[s.req].seqLen, s.curr.totalKv, -1, 0))
  }

  lemma WriteBackLoads(c: Config, longest: nat, st: State, curr: Item, us: seq<Unit>)
    requires ValidConfig(c) && Loads(c, longest, st, curr.totalKv) && PlanOf(st, us) && curr.req < |c.reqs|
    requires curr == Item(curr.req, curr.qStart, curr.qNum, 0, c.reqs[curr.req].seqLen, curr.totalKv, -1, 0)
    ensures st.thread < |st.counts|
    ensures Loads(c, longest, Emit(st, curr), 0) && PlanOf(Emit(st, curr), us + [WholeOf(c, curr)])
  {
    hide Loads; hide Render; hide Reductions; hide SplitCount;
    LoadsEmit(c, longest, st, curr);
    PlanAppend(us, WholeOf(c, curr));
  }

  /** After the decision to leave or not. */
  lemma LeftLoads(c: Config, longest: nat, r: nat, tok: nat, st: State, curr: Item, us: seq<Unit>)
    requires ValidConfig(c) && TileAt(c, r, tok) && curr.req == r && curr.totalKv >= 0
    requires Loads(c, longest, st, curr.totalKv) && PlanOf(st, us)
    requires curr == Item(curr.req, curr.qStart, curr.qNum, 0, c.reqs[curr.req].seqLen, curr.totalKv, -1, 0)
    ensures
      var st1, curr1 := LeftState(c, r, tok, st, curr), LeftItem(c, r, tok, st, curr);
      var us1 := LeftPlan(c, r, tok, st, curr, us);
      && Loads(c, longest, st1, curr1.totalKv) && PlanOf(st1, us1) && curr1.totalKv >= 0
      && curr1 == Item(r, curr1.qStart, curr1.qNum, 0, c.reqs[r].seqLen, curr1.totalKv, -1, 0)
      && (Fits(c, TileLen(c, r, tok), st1) || st1.remaining >= c.minSplit || !Busy(st1, curr1))
  {
    if Leaves(c, r, tok, st, curr) {
      if curr.totalKv > 0 { WriteBackLoads(c, longest, st, curr, us); }
      hide Load; hide Total; hide TileLen; hide MaySplit; hide Render; hide Reductions; hide SplitCount;
      LoadsNext(c, longest, if curr.totalKv > 0 then Emit(st, curr) else st);
    }
  }

  lemma SplitLoads(c: Config, longest: nat, r: nat, tok: nat, st0: State, curr0: Item, us0: seq<Unit>, marks: seq<int>,
                   st: State, curr: Item, us: seq<Unit>)
    requires ValidConfig(c) && TileAt(c, r, tok) && curr0.req == r && curr0.totalKv >= 0
    requires curr0 == Item(r, curr0.qStart, curr0.qNum, 0, c.reqs[r].seqLen, curr0.totalKv, -1, 0)
    requires Loads(c, longest, st0, curr0.totalKv) && PlanOf(st0, us0)
    requires st0.remaining >= c.minSplit || !Busy(st0, curr0)
    requires Splits(c, r, tok, st0, curr0, us0, marks, st, curr, us)
    ensures Loads(c, longest, st, 0) && PlanOf(st, us) && curr == FreshItem(c, r, tok + c.maxTok, 0)
  {
    hide TileLeft; hide TileRight; hide TileNum; hide Render; hide Reductions; hide SplitCount; hide Total; hide Load;
    hide Aligned;
    var st1, us1 := st0, us0;
    if curr0.totalKv > 0 {
      WriteBackLoads(c, longest, st0, curr0, us0);
      st1, us1 := Emit(st0, curr0), us0 + [WholeOf(c, curr0)];
    }
    assert us == us1 + [OpenUnit(c, r, tok, marks)];
    PlanAppend(us1, OpenUnit(c, r, tok, marks));
    PiecesLoads(c, longest, r, tok, st1, marks, SplitCount(us1), st);
  }

  /** All pieces of a split tile, one thread each. */
  lemma PiecesLoads(c: Config, longest: nat, r: nat, tok: nat, st0: State, marks: seq<int>, base: nat, st: State)
    requires ValidConfig(c) && TileAt(c, r, tok) && Cuts(c, r, tok, st0, marks) && Loads(c, longest, st0, 0)
    requires st0.remaining >= c.minSplit || st0.counts[st0.thread] == 0
    requires var left := TileRight(c, r, tok) - marks[|marks| - 1];
             && (left <= c.perThread + c.minSplit || st0.thread + |marks| == c.threads)
             && st.remaining == c.perThread - left - if c.perThread < left then c.minSplit else 0
    requires st.thread == st0.thread + |marks| - 1 && |st.counts| == |st0.counts|
    requires st.items == st0.items + SplitItems(OpenUnit(c, r, tok, marks), base, |marks|)
    requires forall t :: 0 <= t < |st.counts| ==>
               st.counts[t] == st0.counts[t] + if st0.thread <= t < st0.thread + |marks| then 1 else 0
    ensures Loads(c, longest, st, 0)
  {
    LoadsFilled(c, longest, st0, 0);
    hide TileLeft; hide TileRight; hide TileNum; hide Total; hide Load; hide Aligned; hide Loads; hide Dealt;
    hide SplitItem;
    var u, n := OpenUnit(c, r, tok, marks), |marks|;
    DealtLoads(c, longest, r, tok, st0, marks, base, n - 1);
    DealtItems(c, st0, u, base, n - 1);
    TailItem(c, r, tok, marks, base);
    hide Cuts; hide OpenUnit; hide SplitItems; hide Filled;
    TailLoads(c, longest, Dealt(c, st0, u, base, n - 1), SplitItem(u, base, n - 1), st);
  }

  lemma TailItem(c: Config, r: nat, tok: nat, marks: seq<int>, base: nat)
    requires ValidConfig(c) && TileAt(c, r, tok) && marks != []
    ensures
      var u, n := OpenUnit(c, r, tok, marks), |marks|;
      && SplitItems(u, base, n) == SplitItems(u, base, n - 1) + [SplitItem(u, base, n - 1)]
      && SplitItem(u, base, n - 1).totalKv == TileRight(c, r, tok) - marks[n - 1]
  {
    hide TileRight; hide TileNum;
  }

  lemma TailLoads(c: Config, longest: nat, mid: State, tail: Item, st: State)
    requires Loads(c, longest, mid, 0) && mid.remaining == c.perThread >= 0
    requires tail.totalKv <= c.perThread + c.minSplit || mid.thread == c.threads - 1
    requires st.thread == mid.thread && st.items == mid.items + [tail]
    requires |st.counts| == |mid.counts| && forall t :: 0 <= t < |st.counts| ==>
               st.counts[t] == mid.counts[t] + if t == mid.thread then 1 else 0
    requires st.remaining == c.perThread - tail.totalKv - if c.perThread < tail.totalKv then c.minSplit else 0
    ensures Loads(c, longest, st, 0)
  {
    hide Load; hide Filled;
    var penalty := if c.perThread < tail.totalKv then c.minSplit else 0;
    LoadsJoin(c, longest, mid, 0, tail.totalKv, penalty);
    var full := mid.(remaining := mid.remaining - tail.totalKv - penalty);
    LoadsEmit(c, longest, full, tail);
    assert st.counts == Emit(full, tail).counts;
    SameLoads(c, longest, Emit(full, tail), st, 0);
  }

  lemma SameLoads(c: Config, longest: nat, a: State, b: State, more: int)
    requires Loads(c, longest, a, more)
    requires a.items == b.items && a.counts == b.counts && a.thread == b.thread && a.remaining == b.remaining
    ensures Loads(c, longest, b, more)
  {}

  lemma PlacedLoads(c: Config, longest: nat, a: Stage, b: Stage)
    requires ValidConfig(c) && Longest(c, longest) && StageLoads(c, longest, a)
    requires TileAt(c, a.req, a.tok) && a.curr.req == a.req && a.st.thread < |a.st.counts|
    requires b.req == a.req && b.tok == a.tok + c.maxTok
    requires Placed(c, a.req, a.tok, a.st, a.curr, a.us, b.st, b.curr, b.us)
    ensures StageLoads(c, longest, b)
  {
    hide Loads; hide PlanOf; hide Splits; hide TileLen; hide TileNum; hide MaySplit; hide Leaves;
    hide LeftState; hide LeftItem; hide LeftPlan;
    var st1, curr1 := LeftState(c, a.req, a.tok, a.st, a.curr), LeftItem(c, a.req, a.tok, a.st, a.curr);
    var us1 := LeftPlan(c, a.req, a.tok, a.st, a.curr, a.us);
    LeftLoads(c, longest, a.req, a.tok, a.st, a.curr, a.us);
    AlignedSum(a.tok, c.maxTok, c.maxTok);
    if Fits(c, TileLen(c, a.req, a.tok), st1) || !MaySplit(c, a.req, a.tok) {
      var tested := Fits(c, TileLen(c, a.req, a.tok), st1) &&
        (Leaves(c, a.req, a.tok, a.st, a.curr) ==> a.st.remaining < c.minSplit);
      JoinLoads(c, longest, a.req, a.tok, st1, curr1, us1, tested, b.st, b.curr);
    } else {
      var marks :| Splits(c, a.req, a.tok, st1, curr1, us1, marks, b.st, b.curr, b.us);
      SplitLoads(c, longest, a.req, a.tok, st1, curr1, us1, marks, b.st, b.curr, b.us);
    }
  }

  lemma JoinLoads(c: Config, longest: nat, r: nat, tok: nat, st0: State, curr0: Item, us: seq<Unit>, tested: bool,
                  st: State, curr: Item)
    requires ValidConfig(c) && Longest(c, longest) && TileAt(c, r, tok) && tok % c.maxTok == 0
    requires Loads(c, longest, st0, curr0.totalKv) && PlanOf(st0, us) && curr0.totalKv >= 0
    requires Joins(c, r, tok, st0, curr0, tested, st, curr)
    requires var len := TileLen(c, r, tok);
             Fits(c, len, st0) || (!MaySplit(c, r, tok) && (st0.remaining >= c.minSplit || !Busy(st0, curr0)))
    ensures Loads(c, longest, st, curr.totalKv) && PlanOf(st, us)
  {
    hide Loads; hide TileLen; hide TileNum; hide MaySplit;
    var len := TileLen(c, r, tok);
    assert !MaySplit(c, r, tok) ==> len <= longest;
    assert st0.thread < |st0.counts| by { LoadsFilled(c, longest, st0, curr0.totalKv); }
    LoadsJoin(c, longest, st0, curr0.totalKv, len, if tested && st0.remaining < len then c.minSplit else 0);
  }

  lemma StartLoads(c: Config, longest: nat)
    requires ValidConfig(c)
    ensures StageLoads(c, longest, Begin(c, 0, StartState(c), []))
  {
    TotalZeros(c.threads);
    IdleLoad(c, StartState(c));
  }

  lemma BeginLoads(c: Config, longest: nat, a: Stage)
    requires ValidConfig(c) && StageLoads(c, longest, a) && a.req < |c.reqs| && a.st.thread < |a.st.counts|
    ensures
      a.curr.totalKv > 0 ==>
        StageLoads(c, longest, Begin(c, a.req + 1, Emit(a.st, a.curr), a.us + [WholeOf(c, a.curr)]))
    ensures a.curr.totalKv <= 0 ==> StageLoads(c, longest, Begin(c, a.req + 1, a.st, a.us))
  {
    hide Render; hide Reductions; hide SplitCount; hide Loads;
    if a.curr.totalKv > 0 {
      WriteBackLoads(c, longest, a.st, a.curr, a.us);
      SameLoads(c, longest, Emit(a.st, a.curr), Emit(a.st, a.curr).(localId := 0), 0);
    } else {
      SameLoads(c, longest, a.st, a.st.(localId := 0), 0);
    }
    AlignedMultiple(0, c.maxTok);
  }

  lemma {:induction false} RunLoads(c: Config, longest: nat, run: seq<Stage>, k: nat)
    requires ValidConfig(c) && Longest(c, longest) && Run(c, run) && k < |run|
    ensures StageLoads(c, longest, run[k])
  {
    hide Placed; hide Loads; hide PlanOf;
    if k == 0 {
      StartLoads(c, longest);
    } else {
      RunLoads(c, longest, run, k - 1);
      var a, b := run[k - 1], run[(k - 1) + 1];
      assert Follows(c, a, b);
      if a.tok < c.reqs[a.req].qNum {
        PlacedLoads(c, longest, a, b);
      } else {
        BeginLoads(c, longest, a);
      }
    }
  }

  /**
    No thread but the last of the machine is given more than its budget and one excess: the minimal
    split length, or the longest tile that may not be split.
   */
  lemma LoadBound(c: Config, m: Metadata, us: seq<Unit>, run: seq<Stage>, longest: nat, t: nat)
    requires ValidConfig(c) && Longest(c, longest) && Emitted(c, m, us, run) && t < c.threads - 1
    ensures m.cu[t] <= m.cu[t + 1] <= |m.items|
    ensures KvTotal(m.items[m.cu[t]..m.cu[t + 1]]) <= c.perThread + Max(c.minSplit, longest)
  {
    RunLoads(c, longest, run, |run| - 1);
    hide Run; hide KvTotal;
    TableLoad(c, m, longest, run[|run| - 1].st, t);
  }

  lemma TableLoad(c: Config, m: Metadata, longest: nat, st: State, t: nat)
    requires Loads(c, longest, st, 0) && m.items == st.items && t < c.threads - 1 && c.perThread >= 0
    requires |m.cu| == c.threads + 1 && m.cu[0] == 0
    requires forall k :: 0 <= k < c.threads ==> m.cu[k + 1] == m.cu[k] + st.counts[k]
    ensures m.cu[t] <= m.cu[t + 1] <= |m.items|
    ensures KvTotal(m.items[m.cu[t]..m.cu[t + 1]]) <= c.perThread + Max(c.minSplit, longest)
  {
    hide KvTotal; hide Total;
    TableIsBefore(m.cu, st.counts, t);
    TableIsBefore(m.cu, st.counts, t + 1);
    BeforeAll(st.counts, t + 1);
    KvTotalSlice(m.items, m.cu[t], m.cu[t + 1]);
    if t > st.thread {
      FilledBefore(c, st, t);
      FilledBefore(c, st, t + 1);
      assert KvTotal(m.items[m.cu[t]..m.cu[t + 1]]) == 0;
    } else {
      assert Load(m.items, st.counts, t) <= Cap(c, longest);
    }
  }

  lemma {:induction false} TableIsBefore(cu: seq<nat>, counts: seq<nat>, t: nat)
    requires |cu| == |counts| + 1 && t <= |counts| && cu[0] == 0
    requires forall k :: 0 <= k < |counts| ==> cu[k + 1] == cu[k] + counts[k]
    ensures cu[t] == Before(counts, t)
  {
    if t > 0 {
      TableIsBefore(cu, counts, t - 1);
      TotalNext(counts, t - 1);
      assert cu[(t - 1) + 1] == cu[t - 1] + counts[t - 1];
    }
  }

  lemma {:induction false} KvTotalSlice(items: seq<Item>, a: nat, b: nat)
    requires a <= b <= |items|
    ensures KvTotal(items[a..b]) == KvTotal(items[..b]) - KvTotal(items[..a])
  {
    if a < b {
      KvTotalSlice(items, a, b - 1);
      assert items[..b] == items[..b - 1] + [items[b - 1]];
      assert items[a..b] == items[a..b - 1] + [items[b - 1]];
      KvTotalAppend(items[..b - 1], items[b - 1]);
      KvTotalAppend(items[a..b - 1], items[b - 1]);
    }
  }

  // ----- an overdrawn thread is closed -----

  lemma PlacedCollects(c: Config, r: nat, tok: nat, st0: State, curr0: Item, us0: seq<Unit>, st: State, curr: Item,
                       us: seq<Unit>)
    requires ValidConfig(c) && TileAt(c, r, tok) && st0.thread < |st0.counts| && curr0.req < |c.reqs|
    requires curr0.totalKv >= 0 && Placed(c, r, tok, st0, curr0, us0, st, curr, us)
    ensures curr.totalKv >= 0
  {
    hide TileLen; hide TileLeft; hide TileRight; hide TileNum; hide Aligned; hide PlanOf; hide MaySplit; hide Cuts;
  }

  lemma {:induction false} RunCollects(c: Config, run: seq<Stage>, k: nat)
    requires ValidConfig(c) && Run(c, run) && k < |run|
    ensures run[k].curr.totalKv >= 0
  {
    hide Placed;
    if k > 0 {
      RunCollects(c, run, k - 1);
      var a, b := run[k - 1], run[(k - 1) + 1];
      assert Follows(c, a, b);
      if a.tok < c.reqs[a.req].qNum {
        PlacedCollects(c, a.req, a.tok, a.st, a.curr, a.us, b.st, b.curr, b.us);
      }
    }
  }

  /** A thread that exceeds its budget by a tile that was tested to fit is given no other tile of the request. */
  lemma OverdrawnMovesOn(c: Config, run: seq<Stage>, k: nat)
    requires ValidConfig(c) && Run(c, run) && k < |run| - 2 && run[k].st.thread < c.threads - 1
    requires TileAt(c, run[k].req, run[k].tok) && TileAt(c, run[k].req, run[k].tok + c.maxTok)
    requires run[k].st.remaining < TileLen(c, run[k].req, run[k].tok) <= run[k].st.remaining + c.minSplit
    ensures run[k].st.thread == run[k + 1].st.thread < run[k + 2].st.thread
  {
    hide Placed; hide TileLen;
    var a, b, d := run[k], run[k + 1], run[(k + 1) + 1];
    assert Follows(c, a, b) && Follows(c, b, d);
    RunCollects(c, run, k);
    StaysIff(c, a.req, a.tok, a.st, a.curr, a.us, b.st, b.curr, b.us);
    StaysIff(c, b.req, b.tok, b.st, b.curr, b.us, d.st, d.curr, d.us);
  }

  // ----- the budget -----

  /**
    The budget is the average KV length of a thread, rounded up to the alignment, times the kv
    heads that share the work, or the query heads where their group does not divide an iteration.
   */
  lemma BudgetIs(i: Input, total: nat)
    requires ValidInput(i)
    ensures
      var heads := if i.maxQ % (i.headsQ / i.headsKv) == 0 then i.headsKv else i.headsQ;
      var b := Budgeted(i, total);
      && heads > 0 && b % (i.align * heads) == 0
      && heads * (total / i.threads) <= b < heads * (total / i.threads + i.align)
  {
    hide Aligned; hide AlignUp;
    HeadsRatio(i);
    WholeDivision(i.headsKv, i.headsKv);
    var heads, avg := ActualKvHeads(i), total / i.threads;
    var up := AlignUp(avg, i.align);
    AlignedQuotient(up, i.align);
    Powers.Reassociate(up / i.align, i.align, heads);
    Powers.Scale(avg, up, heads);
    Powers.Scale(up, avg + i.align, heads);
    Powers.Scale(0, i.align, heads);
    QuotientUnique(up * heads, i.align * heads, up / i.align);
    ModuloIsAligned(up * heads, i.align * heads);
  }

  /**
    The other constants: an iteration has as many tokens as its rows hold groups of heads, a Q tile as
    many as the default tile holds, a split is at least four iterations' rows long, rounded up to
    the alignment, and only tiles of one token are split, if at all.
   */
  lemma ConstantsAre(i: Input, perThread: nat)
    requires ValidInput(i)
    ensures
      var ratio, c := i.headsQ / i.headsKv, Derive(i, perThread);
      && ratio > 0
      && var group := if i.maxQ % ratio == 0 then ratio else 1;
      && c.maxTok * group == i.maxQ
      && c.tileTok * group <= i.tileSize < c.tileTok * group + group
      && c.minSplit % i.align == 0 && 4 * i.maxQ <= c.minSplit < 4 * i.maxQ + i.align
      && c.threshold == (if i.enableSplit then 1 else 0)
      && c.reqs == i.reqs && c.threads == i.threads && c.align == i.align && c.window == i.window
      && c.perThread == perThread
  {
    HeadsRatio(i);
    hide Aligned; hide AlignUp;
    Powers.Quotients(i.maxQ, HeadsPerKv(i));
    Powers.Quotients(i.tileSize, HeadsPerKv(i));
    ModuloIsAligned(AlignUp(i.maxQ * 4, i.align), i.align);
  }

  /** The KV range of a tile: from its first token's window to its last token, widened to the alignment. */
  lemma TileRangeIs(c: Config, r: nat, tok: nat)
    requires ValidConfig(c) && TileAt(c, r, tok)
    ensures
      var first := c.reqs[r].seqLen - c.reqs[r].qNum + tok;
      var last := Min(first + c.maxTok, c.reqs[r].seqLen);
      var low := if c.window == -1 || first < c.window then 0 else first - c.window;
      && TileLeft(c, r, tok) % c.align == 0 && TileLeft(c, r, tok) <= low < TileLeft(c, r, tok) + c.align
      && TileRight(c, r, tok) % c.align == 0 && TileRight(c, r, tok) - c.align < last <= TileRight(c, r, tok)
  {
    hide AlignUp; hide AlignDown;
  }

  lemma ModuloIsAligned(x: nat, a: nat)
    requires a > 0 && Aligned(x, a)
    ensures x % a == 0
  {}
}
