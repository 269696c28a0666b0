/**
  The tasks the main loop's counter hands out, made from the scheduler's metadata
  (csrc/cpu/cpu_attn_impl.hpp, lines 1425-1489 and 1758-1797): task ids map to a kv
  head and a thread slice of work items, or to a kv head and a reduction item.
  The resulting programs are well formed for the split protocol.
 */
module WorkPrograms {
  import Powers
  import opened Scheduler
  import opened PlanFacts
  import opened Flatten
  import opened SplitProtocol

  /** What the kernels compute for a work item: a finished row group per token, or a partial one. */
  datatype Values<!S, !A, !O> = Values(
    whole: (nat, Item, nat) -> O,
    part: (nat, Item) -> Part<S, A>,
    merge: (Part<S, A>, Part<S, A>) -> Part<S, A>,
    final: Part<S, A> -> O,
    junk: S)

  // ----- task ids -----

  lemma TaskOfPair(heads: nat, n: nat, h: nat, g: nat)
    requires h < heads && g < n
    ensures h * n + g < heads * n && (h * n + g) / n == h && (h * n + g) % n == g
  {
    Powers.MulMonotone(h + 1, heads, n);
    assert (h + 1) * n == h * n + n;
    var t := h * n + g;
    var q, r := t / n, t % n;
    assert t == q * n + r && 0 <= r < n;
    assert (q - h) * n == g - r;
    Powers.Apart(q - h, n);
  }

  lemma PairOfTask(heads: nat, n: nat, t: nat)
    requires n > 0 && t < heads * n
    ensures t / n < heads && t % n < n && t == (t / n) * n + t % n
  {
    assert t == (t / n) * n + t % n;
    Powers.MulMonotone(heads, t / n, n);
  }

  // ----- programs -----

  ghost function ItemOps<S, A, O>(v: Values<S, A, O>, h: nat, it: Item): (ops: seq<Op<S, A, O>>)
    ensures |ops| == if it.splitId < 0 then it.qNum else 2
  {
    if it.splitId < 0 then
      seq(it.qNum, i requires 0 <= i < it.qNum => Write(Key(h, it.req, it.qStart + i), v.whole(h, it, it.qStart + i)))
    else
      [Put(Slot(h, it.splitId), v.part(h, it)), Raise(Slot(h, it.splitId))]
  }

  ghost function OpParts<S, A, O>(v: Values<S, A, O>, h: nat, its: seq<Item>): (p: seq<seq<Op<S, A, O>>>)
    ensures |p| == |its|
  {
    seq(|its|, x requires 0 <= x < |its| => ItemOps(v, h, its[x]))
  }

  ghost predicate CuOk(m: Metadata) {
    && m.effective < |m.cu| && m.cu[0] == 0 && m.cu[m.effective] == |m.items|
    && (forall t :: 0 <= t < m.effective ==> m.cu[t] < m.cu[t + 1])
  }

  lemma {:induction false} CuMonotone(m: Metadata, g: nat, l: nat)
    requires CuOk(m) && g <= l <= m.effective
    ensures m.cu[g] <= m.cu[l] <= |m.items|
    decreases m.effective - g
  {
    CuLow(m, g, l);
    CuLow(m, l, m.effective);
  }

  lemma {:induction false} CuLow(m: Metadata, g: nat, l: nat)
    requires CuOk(m) && g <= l <= m.effective
    ensures m.cu[g] <= m.cu[l]
    decreases l
  {
    if g < l { CuLow(m, g, l - 1); }
  }

  ghost function Slice(m: Metadata, g: nat): seq<Item>
    requires CuOk(m) && g < m.effective
  {
    CuMonotone(m, g + 1, m.effective);
    m.items[m.cu[g]..m.cu[g + 1]]
  }

  ghost function AttnProg<S, A, O>(v: Values<S, A, O>, m: Metadata, t: nat): seq<Op<S, A, O>>
    requires CuOk(m) && m.effective > 0
  {
    Flat(OpParts(v, t / m.effective, Slice(m, t % m.effective)))
  }

  ghost function GroupOf(h: nat, red: Reduction): Group {
    Group(seq(red.splitNum, j requires 0 <= j < red.splitNum => Slot(h, red.splitStart + j)),
          seq(red.qNum, i requires 0 <= i < red.qNum => Key(h, red.req, red.qStart + i)))
  }

  ghost function ParamsOf<S, A, O>(v: Values<S, A, O>, m: Metadata, threads: nat, heads: nat): (p: Params<S, A, O>)
    requires CuOk(m)
    ensures |p.attn| == heads * m.effective && |p.groups| == heads * |m.reds|
  {
    Params(threads, heads, m.splitNum,
           seq(heads * m.effective, t requires 0 <= t < heads * m.effective && m.effective > 0 => AttnProg(v, m, t)),
           seq(heads * |m.reds|, n requires 0 <= n < heads * |m.reds| && |m.reds| > 0 =>
             GroupOf(n / |m.reds|, m.reds[n % |m.reds|])),
           v.merge, v.final, v.junk)
  }

  // ----- finding operations -----

  /** An operation of an attention task is operation `off` of work item `x` for kv head `h`. */
  ghost predicate OpAt<S, A, O>(v: Values<S, A, O>, m: Metadata, heads: nat, t: nat, i: nat, h: nat, g: nat, x: nat,
                                off: nat)
    requires CuOk(m)
  {
    && h < heads && g < m.effective && t == h * m.effective + g
    && m.cu[g] <= x < m.cu[g + 1] <= |m.items|
    && off < |ItemOps(v, h, m.items[x])|
    && |Slice(m, g)| == m.cu[g + 1] - m.cu[g]
    && i == Start(OpParts(v, h, Slice(m, g)), x - m.cu[g]) + off
  }

  lemma FindOp<S, A, O>(v: Values<S, A, O>, m: Metadata, threads: nat, heads: nat, t: nat, i: nat)
    returns (h: nat, g: nat, x: nat, off: nat)
    requires CuOk(m) && t < heads * m.effective
    requires i < |ParamsOf(v, m, threads, heads).attn[t]|
    ensures OpAt(v, m, heads, t, i, h, g, x, off)
    ensures h < heads && x < |m.items| && off < |ItemOps(v, h, m.items[x])|
    ensures ParamsOf(v, m, threads, heads).attn[t][i] == ItemOps(v, h, m.items[x])[off]
  {
    hide ItemOps; hide Flat; hide Start;
    assert m.effective > 0;
    PairOfTask(heads, m.effective, t);
    h, g := t / m.effective, t % m.effective;
    CuMonotone(m, g + 1, m.effective);
    var parts := OpParts(v, h, Slice(m, g));
    var y;
    y, off := Locate(parts, i);
    x := m.cu[g] + y;
  }

  lemma PlaceOp<S, A, O>(v: Values<S, A, O>, m: Metadata, threads: nat, heads: nat, h: nat, x: nat, off: nat)
    returns (t: nat, i: nat, g: nat)
    requires CuOk(m) && h < heads && x < |m.items| && off < |ItemOps(v, h, m.items[x])|
    ensures t < heads * m.effective && i < |ParamsOf(v, m, threads, heads).attn[t]|
    ensures OpAt(v, m, heads, t, i, h, g, x, off)
    ensures ParamsOf(v, m, threads, heads).attn[t][i] == ItemOps(v, h, m.items[x])[off]
  {
    hide ItemOps; hide Flat; hide Start;
    g := ThreadOf(m, x, m.effective);
    CuMonotone(m, g + 1, m.effective);
    t := h * m.effective + g;
    TaskOfPair(heads, m.effective, h, g);
    var parts := OpParts(v, h, Slice(m, g));
    FlatAt(parts, x - m.cu[g], off);
    i := Start(parts, x - m.cu[g]) + off;
  }

  lemma {:induction false} ThreadOf(m: Metadata, x: nat, n: nat) returns (g: nat)
    requires CuOk(m) && n <= m.effective && x < m.cu[n]
    ensures g < n && m.cu[g] <= x < m.cu[g + 1]
    decreases n
  {
    if m.cu[n - 1] <= x { g := n - 1; } else { g := ThreadOf(m, x, n - 1); }
  }

  lemma OpPlaceUnique<S, A, O>(v: Values<S, A, O>, m: Metadata, heads: nat, t: nat, i: nat, t': nat, i': nat,
                               h: nat, g: nat, x: nat, off: nat, g': nat)
    requires CuOk(m)
    requires OpAt(v, m, heads, t, i, h, g, x, off) && OpAt(v, m, heads, t', i', h, g', x, off)
    ensures t == t' && i == i'
  {
    if g < g' { CuLow(m, g + 1, g'); }
    if g' < g { CuLow(m, g' + 1, g); }
  }

  // ----- what the plan guarantees about the programs -----

  ghost predicate Planned(c: Config, m: Metadata, us: seq<Unit>)
    requires ValidConfig(c)
  {
    Tiled(c, us, |c.reqs|, 0) && m.items == Render(us) && m.reds == Reductions(us) && m.splitNum == SplitCount(us)
      && CuOk(m)
  }

  ghost function AllSlots(heads: nat, splits: nat): set<Slot> {
    set h: nat, s: nat | h < heads && s < splits :: Slot(h, s)
  }

  ghost function AllKeys(c: Config, heads: nat): set<Key> {
    set h: nat, r: nat, tok: nat | h < heads && r < |c.reqs| && tok < c.reqs[r].qNum :: Key(h, r, tok)
  }

  lemma GroupFacts<S, A, O>(c: Config, v: Values<S, A, O>, m: Metadata, us: seq<Unit>, heads: nat, n: nat)
    returns (h: nat, k: nat, u: nat)
    requires ValidConfig(c) && Planned(c, m, us) && n < heads * |m.reds|
    ensures k < |m.reds| && h < heads && n == h * |m.reds| + k
    ensures ParamsOf(v, m, c.threads, heads).groups[n] == GroupOf(h, m.reds[k])
    ensures u < |us| && us[u].Split? && ValidUnit(c, us[u])
    ensures m.reds[k] == Reduction(us[u].req, us[u].qStart, us[u].qNum, SplitCount(us[..u]), |us[u].marks|)
    ensures m.reds[k].splitStart + m.reds[k].splitNum <= m.splitNum
  {
    hide Flat; hide Tiled; hide Render; hide Reductions; hide AttnProg;
    assert |m.reds| > 0;
    PairOfTask(heads, |m.reds|, n);
    h, k := n / |m.reds|, n % |m.reds|;
    u := ReductionUnit(us, k);
    UnitsValid(c, us, |c.reqs|, 0, u);
    ReductionRange(us, k);
  }

  lemma ProgramsGrouped<S, A, O>(c: Config, v: Values<S, A, O>, m: Metadata, us: seq<Unit>, heads: nat)
    requires ValidConfig(c) && Planned(c, m, us)
    ensures GroupsOk(ParamsOf(v, m, c.threads, heads))
  {
    hide Flat; hide Tiled; hide Render; hide Reductions; hide AttnProg; hide ParamsOf;
    var p := ParamsOf(v, m, c.threads, heads);
    forall n | 0 <= n < |p.groups| ensures |p.groups[n].slots| > 0 {
      var h, k, u := GroupFacts(c, v, m, us, heads, n);
    }
  }

  // ----- where slots are filled -----

  ghost predicate PutAt<S, A, O>(p: Params<S, A, O>, slot: Slot, t: nat, i: nat) {
    t < |p.attn| && i < |p.attn[t]| && p.attn[t][i].Put? && p.attn[t][i].slot == slot
  }

  lemma PutExists<S, A, O>(c: Config, v: Values<S, A, O>, m: Metadata, us: seq<Unit>, heads: nat, slot: Slot)
    requires ValidConfig(c) && Planned(c, m, us) && slot.head < heads && slot.split < m.splitNum
    ensures exists t, i :: PutAt(ParamsOf(v, m, c.threads, heads), slot, t, i)
  {
    hide Flat; hide Tiled; hide Render; hide Reductions; hide AttnProg; hide ParamsOf;
    var u, j := SplitItemExists(us, slot.split);
    var t, i, g := PlaceOp(v, m, c.threads, heads, slot.head, ItemIndex(us, u, j), 0);
    assert PutAt(ParamsOf(v, m, c.threads, heads), slot, t, i);
  }

  lemma PutUnique<S, A, O>(c: Config, v: Values<S, A, O>, m: Metadata, us: seq<Unit>, heads: nat, slot: Slot, t: nat,
                           i: nat, t': nat, i': nat)
    requires ValidConfig(c) && Planned(c, m, us)
    requires PutAt(ParamsOf(v, m, c.threads, heads), slot, t, i)
             && PutAt(ParamsOf(v, m, c.threads, heads), slot, t', i')
    ensures t == t' && i == i'
  {
    hide Flat; hide Tiled; hide Render; hide Reductions; hide AttnProg; hide ParamsOf; hide OpAt;
    var h, g, x, off := FindOp(v, m, c.threads, heads, t, i);
    var h', g', x', off' := FindOp(v, m, c.threads, heads, t', i');
    SplitItemUnique(us, x, x');
    OpPlaceUnique(v, m, heads, t, i, t', i', h, g, x, off, g');
  }

  // ----- where slots are folded -----

  ghost predicate FoldedAt<S, A, O>(p: Params<S, A, O>, slot: Slot, n: nat, j: nat) {
    n < |p.groups| && j < |p.groups[n].slots| && p.groups[n].slots[j] == slot
  }

  lemma FoldedUnique<S, A, O>(c: Config, v: Values<S, A, O>, m: Metadata, us: seq<Unit>, heads: nat, slot: Slot,
                              n: nat, j: nat, n': nat, j': nat)
    requires ValidConfig(c) && Planned(c, m, us)
    requires FoldedAt(ParamsOf(v, m, c.threads, heads), slot, n, j)
             && FoldedAt(ParamsOf(v, m, c.threads, heads), slot, n', j')
    ensures n == n' && j == j'
  {
    hide Flat; hide Tiled; hide Render; hide Reductions; hide AttnProg; hide ParamsOf;
    var h, k, u := GroupFacts(c, v, m, us, heads, n);
    var h', k', u' := GroupFacts(c, v, m, us, heads, n');
    ReductionsDisjoint(us, k, j, k', j');
  }

  // ----- where outputs are written -----

  ghost predicate WrittenAt<S, A, O>(p: Params<S, A, O>, key: Key, t: nat, i: nat)
    requires GroupsOk(p)
  {
    t < TaskNum(p) && i < |Prog(p, t)| && WritesKey(Prog(p, t)[i], key)
  }

  /** A write belongs to the unit that covers its token, at the place that unit prescribes. */
  lemma WriteFacts<S, A, O>(c: Config, v: Values<S, A, O>, m: Metadata, us: seq<Unit>, heads: nat, key: Key, t: nat,
                            i: nat)
    returns (u: nat, g: nat)
    requires ValidConfig(c) && Planned(c, m, us) && GroupsOk(ParamsOf(v, m, c.threads, heads))
    requires WrittenAt(ParamsOf(v, m, c.threads, heads), key, t, i)
    ensures u < |us| && Covers(us[u], key.req, key.tok) && ValidUnit(c, us[u]) && key.head < heads
    ensures us[u].Whole? ==> OpAt(v, m, heads, t, i, key.head, g, ItemIndex(us, u, 0), key.tok - us[u].qStart)
    ensures us[u].Split? ==>
              && t == heads * m.effective + key.head * |m.reds| + Start(ReductionParts(us), u)
              && i == 2 * |us[u].marks| + 1 + (key.tok - us[u].qStart)
  {
    hide Flat; hide Tiled; hide Render; hide Reductions; hide AttnProg; hide ParamsOf; hide OpAt; hide ReduceProg;
    hide Start;
    var p := ParamsOf(v, m, c.threads, heads);
    g := 0;
    if t < |p.attn| {
      var h, x, off, j;
      h, g, x, off := FindOp(v, m, c.threads, heads, t, i);
      u, j := ItemUnit(us, x);
      UnitsValid(c, us, |c.reqs|, 0, u);
    } else {
      var n := t - |p.attn|;
      ReduceOps(p, n, i);
      var h, k;
      h, k, u := GroupFacts(c, v, m, us, heads, n);
      ReductionPlace(us, k, u);
    }
  }

  lemma ReductionPlace(us: seq<Unit>, k: nat, u: nat)
    requires k < |Reductions(us)| && u < |us| && us[u].Split? && |us[u].marks| > 0
    requires Reductions(us)[k].splitStart == SplitCount(us[..u]) && Reductions(us)[k].splitNum > 0
    ensures k == Start(ReductionParts(us), u)
  {
    hide Reductions; hide Start;
    var k' := ReductionAt(us, u);
    ReductionsDisjoint(us, k, 0, k', 0);
  }

  lemma WriteUnique<S, A, O>(c: Config, v: Values<S, A, O>, m: Metadata, us: seq<Unit>, heads: nat, key: Key, t: nat,
                             i: nat, t': nat, i': nat)
    requires ValidConfig(c) && Planned(c, m, us) && GroupsOk(ParamsOf(v, m, c.threads, heads))
    requires WrittenAt(ParamsOf(v, m, c.threads, heads), key, t, i)
             && WrittenAt(ParamsOf(v, m, c.threads, heads), key, t', i')
    ensures t == t' && i == i'
  {
    hide Flat; hide Tiled; hide Render; hide Reductions; hide AttnProg; hide ParamsOf; hide OpAt; hide WrittenAt;
    hide Start;
    var u, g := WriteFacts(c, v, m, us, heads, key, t, i);
    var u', g' := WriteFacts(c, v, m, us, heads, key, t', i');
    var k := ExactCover(c, us, key.req, key.tok);
    if us[u].Whole? {
      OpPlaceUnique(v, m, heads, t, i, t', i', key.head, g, ItemIndex(us, u, 0), key.tok - us[u].qStart, g');
    }
  }

  lemma WriteExists<S, A, O>(c: Config, v: Values<S, A, O>, m: Metadata, us: seq<Unit>, heads: nat, key: Key)
    requires ValidConfig(c) && Planned(c, m, us) && GroupsOk(ParamsOf(v, m, c.threads, heads))
    requires key.head < heads && TileAt(c, key.req, key.tok)
    ensures exists t, i :: WrittenAt(ParamsOf(v, m, c.threads, heads), key, t, i)
  {
    hide Flat; hide Tiled; hide Render; hide Reductions; hide AttnProg; hide OpAt; hide ReduceProg; hide Start;
    hide SplitCount;
    var p := ParamsOf(v, m, c.threads, heads);
    var u := ExactCover(c, us, key.req, key.tok);
    if us[u].Whole? {
      ItemAt(us, u, 0);
      var t, i, g := PlaceOp(v, m, c.threads, heads, key.head, ItemIndex(us, u, 0), key.tok - us[u].qStart);
      assert WrittenAt(p, key, t, i);
    } else {
      var k := ReductionAt(us, u);
      var n, i := key.head * |m.reds| + k, 2 * |us[u].marks| + 1 + (key.tok - us[u].qStart);
      TaskOfPair(heads, |m.reds|, key.head, k);
      assert p.groups[n] == GroupOf(key.head, m.reds[k]);
      ReduceOps(p, n, i);
      assert WrittenAt(p, key, |p.attn| + n, i);
    }
  }

  // ----- the certificate -----

  ghost function PutPlace<S, A, O>(p: Params<S, A, O>, slot: Slot): (nat, nat) {
    if exists t, i :: PutAt(p, slot, t, i) then (var t, i :| PutAt(p, slot, t, i); (t, i)) else (0, 0)
  }

  ghost function FoldPlace<S, A, O>(p: Params<S, A, O>, slot: Slot): (nat, nat) {
    if exists n, j :: FoldedAt(p, slot, n, j) then (var n, j :| FoldedAt(p, slot, n, j); (n, j)) else (0, 0)
  }

  ghost function WritePlace<S, A, O>(p: Params<S, A, O>, key: Key): (nat, nat)
    requires GroupsOk(p)
  {
    if exists t, i :: WrittenAt(p, key, t, i) then (var t, i :| WrittenAt(p, key, t, i); (t, i)) else (0, 0)
  }

  ghost function CertOf<S, A, O>(p: Params<S, A, O>, keys: set<Key>): Cert
    requires GroupsOk(p)
  {
    Cert(map slot | slot in AllSlots(p.heads, p.splits) :: PutPlace(p, slot),
         map slot | slot in AllSlots(p.heads, p.splits) :: FoldPlace(p, slot),
         map key | key in keys :: WritePlace(p, key))
  }

  lemma PlacesUnique<S, A, O>(c: Config, v: Values<S, A, O>, m: Metadata, us: seq<Unit>, heads: nat)
    requires ValidConfig(c) && Planned(c, m, us)
    ensures
      var p := ParamsOf(v, m, c.threads, heads);
      && GroupsOk(p)
      && (forall slot: Slot, t: nat, i: nat :: PutAt(p, slot, t, i) ==> PutPlace(p, slot) == (t, i))
      && (forall slot: Slot, n: nat, j: nat :: FoldedAt(p, slot, n, j) ==> FoldPlace(p, slot) == (n, j))
      && (forall key: Key, t: nat, i: nat :: WrittenAt(p, key, t, i) ==> WritePlace(p, key) == (t, i))
  {
    hide ParamsOf; hide PutAt; hide FoldedAt; hide WrittenAt; hide Tiled;
    var p := ParamsOf(v, m, c.threads, heads);
    ProgramsGrouped(c, v, m, us, heads);
    forall slot: Slot, t: nat, i: nat | PutAt(p, slot, t, i) ensures PutPlace(p, slot) == (t, i) {
      var (t', i') := PutPlace(p, slot);
      PutUnique(c, v, m, us, heads, slot, t, i, t', i');
    }
    forall slot: Slot, n: nat, j: nat | FoldedAt(p, slot, n, j) ensures FoldPlace(p, slot) == (n, j) {
      var (n', j') := FoldPlace(p, slot);
      FoldedUnique(c, v, m, us, heads, slot, n, j, n', j');
    }
    forall key: Key, t: nat, i: nat | WrittenAt(p, key, t, i) ensures WritePlace(p, key) == (t, i) {
      var (t', i') := WritePlace(p, key);
      WriteUnique(c, v, m, us, heads, key, t, i, t', i');
    }
  }

  lemma WriteInRange<S, A, O>(c: Config, v: Values<S, A, O>, m: Metadata, us: seq<Unit>, heads: nat, key: Key, t: nat,
                              i: nat)
    requires ValidConfig(c) && Planned(c, m, us) && GroupsOk(ParamsOf(v, m, c.threads, heads))
    requires WrittenAt(ParamsOf(v, m, c.threads, heads), key, t, i)
    ensures key in AllKeys(c, heads)
  {
    hide ParamsOf; hide WrittenAt; hide Tiled; hide OpAt;
    var u, g := WriteFacts(c, v, m, us, heads, key, t, i);
  }

  lemma AttnOpFits<S, A, O>(c: Config, v: Values<S, A, O>, m: Metadata, us: seq<Unit>, heads: nat, t: nat, i: nat)
    requires ValidConfig(c) && Planned(c, m, us) && GroupsOk(ParamsOf(v, m, c.threads, heads))
    requires t < heads * m.effective && i < |ParamsOf(v, m, c.threads, heads).attn[t]|
    ensures
      var p := ParamsOf(v, m, c.threads, heads);
      AttnOpOk(p, CertOf(p, AllKeys(c, heads)), t, i)
  {
    hide ParamsOf; hide Tiled; hide Flat; hide Start; hide ReduceProg; hide Render; hide Reductions; hide PutPlace;
    hide FoldPlace; hide WritePlace; hide ItemOps; hide AllKeys;
    var p := ParamsOf(v, m, c.threads, heads);
    PlacesUnique(c, v, m, us, heads);
    var h, g, x, off := FindOp(v, m, c.threads, heads, t, i);
    ItemOpShape(v, h, m.items[x], off);
    SplitIdBelow(us, x);
    ParamsShape(v, m, c.threads, heads);
    var op := p.attn[t][i];
    if op.Write? {
      assert WrittenAt(p, op.key, t, i);
      WriteInRange(c, v, m, us, heads, op.key, t, i);
    } else {
      NextOp(v, m, c.threads, heads, t, i, h, g, x);
      ItemOpShape(v, h, m.items[x], 0);
      ItemOpShape(v, h, m.items[x], 1);
      assert op.Put? ==> PutAt(p, op.slot, t, i);
      assert op.Raise? ==> PutAt(p, op.slot, t, i - 1);
    }
  }

  lemma ParamsShape<S, A, O>(v: Values<S, A, O>, m: Metadata, threads: nat, heads: nat)
    requires CuOk(m)
    ensures ParamsOf(v, m, threads, heads).threads == threads
    ensures ParamsOf(v, m, threads, heads).heads == heads
    ensures ParamsOf(v, m, threads, heads).splits == m.splitNum
  {}

  lemma ItemOpShape<S, A, O>(v: Values<S, A, O>, h: nat, it: Item, off: nat)
    requires off < |ItemOps(v, h, it)|
    ensures
      var op := ItemOps(v, h, it)[off];
      if it.splitId < 0 then op.Write?
      else off < 2 && |ItemOps(v, h, it)| == 2 &&
           if off == 0 then op.Put? && op.slot == Slot(h, it.splitId) else op == Raise(Slot(h, it.splitId))
  {}

  /** The two operations of a split item follow each other. */
  lemma NextOp<S, A, O>(v: Values<S, A, O>, m: Metadata, threads: nat, heads: nat, t: nat, i: nat, h: nat, g: nat,
                        x: nat)
    requires CuOk(m) && t < heads * m.effective
    requires OpAt(v, m, heads, t, i, h, g, x, 0) || OpAt(v, m, heads, t, i, h, g, x, 1)
    requires |ItemOps(v, h, m.items[x])| == 2
    ensures
      var ops := ParamsOf(v, m, threads, heads).attn[t];
      && (OpAt(v, m, heads, t, i, h, g, x, 0) ==> i + 1 < |ops| && ops[i + 1] == ItemOps(v, h, m.items[x])[1])
      && (OpAt(v, m, heads, t, i, h, g, x, 1) ==> 0 < i <= |ops| && ops[i - 1] == ItemOps(v, h, m.items[x])[0])
  {
    hide ItemOps; hide Flat; hide Start;
    TaskOfPair(heads, m.effective, h, g);
    var parts := OpParts(v, h, Slice(m, g));
    FlatAt(parts, x - m.cu[g], 0);
    FlatAt(parts, x - m.cu[g], 1);
  }

  lemma GroupFits<S, A, O>(c: Config, v: Values<S, A, O>, m: Metadata, us: seq<Unit>, heads: nat, n: nat)
    requires ValidConfig(c) && Planned(c, m, us) && GroupsOk(ParamsOf(v, m, c.threads, heads))
    requires n < heads * |m.reds|
    ensures
      var p := ParamsOf(v, m, c.threads, heads);
      GroupOk(p, CertOf(p, AllKeys(c, heads)), n)
  {
    hide ParamsOf; hide Tiled; hide Flat; hide Start; hide ReduceProg; hide Render; hide Reductions; hide PutPlace;
    hide FoldPlace; hide WritePlace; hide AllKeys;
    var p := ParamsOf(v, m, c.threads, heads);
    PlacesUnique(c, v, m, us, heads);
    ParamsShape(v, m, c.threads, heads);
    var h, k, u := GroupFacts(c, v, m, us, heads, n);
    var gr := p.groups[n];
    forall j | 0 <= j < |gr.slots|
      ensures SlotInRange(p, gr.slots[j]) && gr.slots[j] in AllSlots(p.heads, p.splits)
              && FoldPlace(p, gr.slots[j]) == (n, j)
    {
      assert FoldedAt(p, gr.slots[j], n, j);
    }
    forall i | 0 <= i < |gr.keys|
      ensures gr.keys[i] in AllKeys(c, heads) && WritePlace(p, gr.keys[i]) == (|p.attn| + n, 2 * |gr.slots| + 1 + i)
    {
      ReduceOps(p, n, 2 * |gr.slots| + 1 + i);
      assert WrittenAt(p, gr.keys[i], |p.attn| + n, 2 * |gr.slots| + 1 + i);
      WriteInRange(c, v, m, us, heads, gr.keys[i], |p.attn| + n, 2 * |gr.slots| + 1 + i);
    }
  }

  /** The scheduler's metadata always yields programs the split protocol handles. */
  lemma ScheduleIsWellFormed<S, A, O>(c: Config, v: Values<S, A, O>, m: Metadata, us: seq<Unit>, heads: nat)
    requires ValidConfig(c) && Planned(c, m, us)
    ensures
      var p := ParamsOf(v, m, c.threads, heads);
      GroupsOk(p) && WellFormed(p, CertOf(p, AllKeys(c, heads)))
        && CertOf(p, AllKeys(c, heads)).home.Keys == AllKeys(c, heads)
  {
    hide ParamsOf; hide Tiled; hide Flat; hide Start; hide ReduceProg; hide Render; hide Reductions; hide AttnOpOk;
    hide GroupOk;
    ProgramsGrouped(c, v, m, us, heads);
    var p := ParamsOf(v, m, c.threads, heads);
    var cert := CertOf(p, AllKeys(c, heads));
    ParamsShape(v, m, c.threads, heads);
    forall t, i | 0 <= t < |p.attn| && 0 <= i < |p.attn[t]|
      ensures AttnOpOk(p, cert, t, i)
    {
      AttnOpFits(c, v, m, us, heads, t, i);
    }
    forall n | 0 <= n < |p.groups| ensures GroupOk(p, cert, n) { GroupFits(c, v, m, us, heads, n); }
    forall slot | slot in cert.pub
      ensures PutAt(p, slot, cert.pub[slot].0, cert.pub[slot].1)
    {
      PutExists(c, v, m, us, heads, slot);
    }
    forall key | key in cert.home
      ensures WrittenAt(p, key, cert.home[key].0, cert.home[key].1)
    {
      WriteExists(c, v, m, us, heads, key);
    }
  }
}
