/**
  The block-table walks of Attention::operator() (csrc/cpu/cpu_attn_impl.hpp): Q times K
  over one KV tile, and P times V over the same tile, for both cache layouts.
 */
module PagedTile {
  import Powers
  import opened CacheLayout
  import opened TileGemm
  import PagedCache

  // ----- a KV tile of one head of one request -----

  datatype Tokens = Tokens(shape: PagedCache.Shape, cache: seq<real>, head: nat, table: seq<nat>, start: nat,
                           count: nat)

  ghost predicate ValidTokens(v: Tokens) {
    && PagedCache.ValidShape(v.shape) && PagedCache.Fits(v.shape, v.cache) && v.head < v.shape.heads
    && v.start % 32 == 0 && v.count % 32 == 0 && v.count > 0
    && DivMod(v.start + v.count - 1, v.shape.blockSize).0 < |v.table|
    && forall b :: 0 <= b < |v.table| ==> v.table[b] < v.shape.blocks
  }

  /** The slot the block table assigns to a position. */
  ghost function SlotOf(s: PagedCache.Shape, table: seq<nat>, pos: nat): nat
    requires PagedCache.ValidShape(s)
  {
    var (b, t) := DivMod(pos, s.blockSize);
    if b < |table| then table[b] * s.blockSize + t else 0
  }

  /** Element d of the key or value at column c of the tile. */
  ghost function Element(v: Tokens, kind: PagedCache.Kind, c: nat, d: nat): real
    requires PagedCache.ValidShape(v.shape)
  {
    PagedCache.Stored(v.shape, kind, v.cache, SlotOf(v.shape, v.table, v.start + c), v.head, d)
  }

  /** Column `col` of the tile is token 32 * group of logical block `block`. */
  ghost predicate At(v: Tokens, col: nat, block: nat, group: nat) {
    && PagedCache.ValidShape(v.shape) && block < |v.table| && v.table[block] < v.shape.blocks
    && v.start + col == block * v.shape.blockSize + 32 * group
  }

  function BlockBase(v: Tokens, block: nat): int
    requires block < |v.table|
  {
    PagedCache.Offset(v.shape, v.table[block], v.head)
  }

  lemma SlotAt(v: Tokens, col: nat, block: nat, group: nat, n: nat)
    requires At(v, col, block, group) && 32 * group + n < v.shape.blockSize
    ensures var slot := SlotOf(v.shape, v.table, v.start + col + n);
            && DivMod(slot, v.shape.blockSize) == (v.table[block], 32 * group + n)
            && PagedCache.ValidSlot(v.shape, slot)
  {
    assert v.shape.blockSize > 0;
    hide DivMod; hide PagedCache.ValidShape;
    var s, t := v.shape, 32 * group + n;
    Digits(block, t, s.blockSize);
    assert v.start + col + n == block * s.blockSize + t;
    Digits(v.table[block], t, s.blockSize);
    DigitBound(v.table[block], t, s.blockSize, s.blocks);
  }

  // ----- operands of the two products -----

  function KeyOperand(v: Tokens, block: nat, group: nat): Operand
    requires block < |v.table|
  {
    var s := v.shape;
    Operand(v.cache, BlockBase(v, block) + group * KTokenGroupStride(s.isa, s.headDim),
            KLayout(s.isa, s.blockSize, s.headDim))
  }

  function ValueOperand(v: Tokens, block: nat, group: nat, headGroup: nat): Operand
    requires block < |v.table|
  {
    var s := v.shape;
    Operand(v.cache,
            BlockBase(v, block) + group * VTokenGroupStride(s.isa, s.headDim)
            + headGroup * VHeadGroupStride(s.isa, s.blockSize),
            VLayout(s.isa, s.blockSize, s.headDim))
  }

  /** Token n of a key group is the token at column col + n, element by element. */
  lemma KeyRead(v: Tokens, col: nat, block: nat, group: nat, n: nat, d: nat)
    requires At(v, col, block, group) && PagedCache.Fits(v.shape, v.cache) && v.head < v.shape.heads
    requires 32 * group + n < v.shape.blockSize && d < v.shape.headDim
    ensures var op := KeyOperand(v, block, group);
            0 <= Place(op, n, d) < |op.buf| && Read(op, n, d) == Element(v, PagedCache.Key, col + n, d)
  {
    hide Addr; hide DivMod; hide PagedCache.Offset; hide SlotOf; hide KTokenGroupStride;
    var s := v.shape;
    SlotAt(v, col, block, group, n);
    PagedCache.PlaceRange(s, PagedCache.Key, SlotOf(s, v.table, v.start + col + n), v.head, d);
    StridesAreGroups(s.isa, s.blockSize, s.headDim, n, d, group);
    assert v.start + col + n == v.start + (col + n);
    assert n + 32 * group == 32 * group + n;
  }

  /** Element n, token k of a value group. */
  lemma ValueRead(v: Tokens, col: nat, block: nat, group: nat, headGroup: nat, n: nat, k: nat)
    requires At(v, col, block, group) && PagedCache.Fits(v.shape, v.cache) && v.head < v.shape.heads
    requires 32 * group + k < v.shape.blockSize && 32 * headGroup + n < v.shape.headDim
    ensures var op := ValueOperand(v, block, group, headGroup);
            0 <= Place(op, n, k) < |op.buf| &&
            Read(op, n, k) == Element(v, PagedCache.Value, col + k, 32 * headGroup + n)
  {
    hide Addr; hide DivMod; hide PagedCache.Offset; hide SlotOf; hide VTokenGroupStride; hide VHeadGroupStride;
    var s, d := v.shape, 32 * headGroup + n;
    SlotAt(v, col, block, group, k);
    PagedCache.PlaceRange(s, PagedCache.Value, SlotOf(s, v.table, v.start + col + k), v.head, d);
    StridesAreGroups(s.isa, s.blockSize, s.headDim, k, n, group);
    StridesAreGroups(s.isa, s.blockSize, s.headDim, k + 32 * group, n, headGroup);
    assert v.start + col + k == v.start + (col + k);
    assert k + 32 * group == 32 * group + k && n + 32 * headGroup == d;
  }

  // ----- the walk over blocks -----

  /** What both walks keep at the start of a block: how far they have come. */
  ghost predicate Walked(v: Tokens, block: nat, group: nat, col: nat, remaining: nat) {
    && col + 32 * remaining == v.count
    && 32 * group < v.shape.blockSize && (group > 0 ==> col == 0)
    && v.start + col == Powers.Least(block * v.shape.blockSize + 32 * group, v.start + v.count)
  }

  function StartBlock(v: Tokens): nat
    requires v.shape.blockSize > 0
  {
    DivMod(v.start, v.shape.blockSize).0
  }

  function EndBlock(v: Tokens): nat
    requires v.shape.blockSize > 0 && v.count > 0
  {
    DivMod(v.start + v.count - 1, v.shape.blockSize).0 + 1
  }

  function StartGroup(v: Tokens): nat
    requires v.shape.blockSize > 0
  {
    DivMod(v.start, v.shape.blockSize).1 / 32
  }

  lemma BlocksInOrder(v: Tokens)
    requires ValidTokens(v)
    ensures StartBlock(v) < EndBlock(v) <= |v.table|
  {
    hide DivMod;
    var bs := v.shape.blockSize;
    var (b, t) := DivMod(v.start, bs);
    var (e, l) := DivMod(v.start + v.count - 1, bs);
    DigitBound(b, t, bs, e + 1);
    DigitBound(e, l, bs, e + 1);
  }

  lemma WalkStarts(v: Tokens)
    requires ValidTokens(v)
    ensures StartBlock(v) < EndBlock(v) <= |v.table|
    ensures Walked(v, StartBlock(v), StartGroup(v), 0, v.count / 32)
  {
    BlocksInOrder(v);
    hide DivMod; hide EndBlock;
    var (b, t) := DivMod(v.start, v.shape.blockSize);
    Multiple32(b, v.shape.blockSize, t, v.start);
  }

  lemma Multiple32(b: nat, bs: nat, t: nat, x: nat)
    requires x == b * bs + t && x % 32 == 0 && bs % 32 == 0
    ensures t % 32 == 0
  {
    assert b * bs == (b * (bs / 32)) * 32;
  }

  /** A block before the end has work left; after it the walk stands at the next block or the end. */
  lemma WalkAdvances(v: Tokens, block: nat, group: nat, col: nat, remaining: nat)
    requires ValidTokens(v) && block < EndBlock(v) && Walked(v, block, group, col, remaining)
    ensures At(v, col, block, group)
    ensures var num := Powers.Least(remaining, v.shape.blockSize / 32 - group);
            && 0 < num && 32 * (group + num) <= v.shape.blockSize
            && Walked(v, block + 1, 0, col + 32 * num, remaining - num)
  {
    hide DivMod;
    var bs := v.shape.blockSize;
    var (e, l) := DivMod(v.start + v.count - 1, bs);
    assert block * bs <= e * bs by { Powers.Apart(e - block, bs); assert e * bs - block * bs == (e - block) * bs; }
    assert v.start + col == block * bs + 32 * group && remaining > 0;
    assert (block + 1) * bs == block * bs + bs;
    var per := bs / 32;
    assert bs == 32 * per;
    assert group < per;
  }

  lemma WalkEnds(v: Tokens, group: nat, col: nat, remaining: nat)
    requires ValidTokens(v) && Walked(v, EndBlock(v), group, col, remaining)
    ensures remaining == 0 && col == v.count
  {
    hide DivMod;
    var bs := v.shape.blockSize;
    var (e, l) := DivMod(v.start + v.count - 1, bs);
    assert (e + 1) * bs == e * bs + bs;
  }

  // ----- Q times K -----

  /** Row i of Q times the key at column c. */
  ghost function Score(v: Tokens, q: Operand, i: nat, c: nat, depth: nat): real
    requires PagedCache.ValidShape(v.shape)
  {
    if depth == 0 then 0.0
    else Score(v, q, i, c, depth - 1) + Read(q, i, depth - 1) * Element(v, PagedCache.Key, c, depth - 1)
  }

  /** The AMX kernel scales the logits; the vector kernel has scaled Q already. */
  ghost function Logit(v: Tokens, q: Operand, scale: real, i: nat, c: nat): real
    requires PagedCache.ValidShape(v.shape)
  {
    Score(v, q, i, c, v.shape.headDim) * if v.shape.isa.AMX? then scale else 1.0
  }

  ghost predicate ValidQ(v: Tokens, q: Operand, m: nat) {
    var isa := v.shape.isa;
    && 0 < m <= MaxRows(isa) && q.layout.form == (if isa.AMX? then PackedRows else RowMajor)
    && Holds(q, RowsTouched(isa, m), v.shape.headDim)
  }

  lemma {:induction false} DotIsScore(v: Tokens, q: Operand, i: nat, col: nat, block: nat, group: nat, n: nat,
                                      depth: nat)
    requires At(v, col, block, group) && PagedCache.Fits(v.shape, v.cache) && v.head < v.shape.heads
    requires 32 * group + n < v.shape.blockSize && depth <= v.shape.headDim
    ensures Dot(q, KeyOperand(v, block, group), i, n, depth) == Score(v, q, i, col + n, depth)
  {
    hide Read; hide Element; hide KeyOperand;
    if depth > 0 {
      DotIsScore(v, q, i, col, block, group, n, depth - 1);
      KeyRead(v, col, block, group, n, depth - 1);
    }
  }

  lemma KeyOperandHolds(v: Tokens, col: nat, block: nat, group: nat)
    requires At(v, col, block, group) && PagedCache.Fits(v.shape, v.cache) && v.head < v.shape.heads
    requires 32 * group + 32 <= v.shape.blockSize
    ensures Holds(KeyOperand(v, block, group), 32, v.shape.headDim)
  {
    hide KeyOperand; hide Place; hide PagedCache.Fits;
    forall x: nat, k: nat | x < 32 && k < v.shape.headDim
      ensures 0 <= Place(KeyOperand(v, block, group), x, k) < |KeyOperand(v, block, group).buf|
    {
      KeyRead(v, col, block, group, x, k);
    }
  }

  /** One group of 32 tokens: the product, then the scale. */
  method QkGroup(v: Tokens, q: Operand, m: nat, scale: real, logits: array2<real>, col: nat, block: nat, group: nat)
    requires ValidTokens(v) && ValidQ(v, q, m) && At(v, col, block, group) && 32 * group + 32 <= v.shape.blockSize
    requires RowsTouched(v.shape.isa, m) <= logits.Length0 && col + 32 <= logits.Length1
    modifies logits
    ensures forall i, c :: 0 <= i < m && col <= c < col + 32 ==> logits[i, c] == Logit(v, q, scale, i, c)
    ensures forall i, c :: 0 <= i < logits.Length0 && 0 <= c < logits.Length1 && !(col <= c < col + 32) ==>
              logits[i, c] == old(logits[i, c])
  {
    hide Dot; hide Score; hide KeyOperand; hide Holds;
    var s, b := v.shape, KeyOperand(v, block, group);
    KeyOperandHolds(v, col, block, group);
    KeyForm(v, block, group);
    Gemm(s.isa, m, q, b, logits, col, s.headDim, false);
    forall i, c | 0 <= i < m && col <= c < col + 32 ensures logits[i, c] == Score(v, q, i, c, s.headDim) {
      assert logits[i, col + (c - col)]
             == Start(false, old(logits[i, col + (c - col)])) + Dot(q, b, i, c - col, s.headDim);
      DotIsScore(v, q, i, col, block, group, c - col, s.headDim);
    }
    if s.isa.AMX? {
      forall i, c | 0 <= i < m && col <= c < col + 32 {
        logits[i, c] := logits[i, c] * scale;
      }
    }
  }

  lemma KeyForm(v: Tokens, block: nat, group: nat)
    requires block < |v.table|
    ensures KeyOperand(v, block, group).layout.form == if v.shape.isa.AMX? then PackedPairs else ColumnMajor
  {}

  /** The groups of one block. */
  method QkBlock(v: Tokens, q: Operand, m: nat, scale: real, logits: array2<real>, col: nat, block: nat, group: nat,
                 num: nat)
    requires ValidTokens(v) && ValidQ(v, q, m) && At(v, col, block, group) && 32 * (group + num) <= v.shape.blockSize
    requires RowsTouched(v.shape.isa, m) <= logits.Length0 && col + 32 * num <= logits.Length1
    modifies logits
    ensures forall i, c :: 0 <= i < m && col <= c < col + 32 * num ==> logits[i, c] == Logit(v, q, scale, i, c)
    ensures forall i, c :: 0 <= i < logits.Length0 && 0 <= c < logits.Length1 && !(col <= c < col + 32 * num) ==>
              logits[i, c] == old(logits[i, c])
  {
    hide ValidTokens; hide Holds; hide Logit;
    for g := 0 to num
      invariant forall i, c :: 0 <= i < m && col <= c < col + 32 * g ==> logits[i, c] == Logit(v, q, scale, i, c)
      invariant forall i, c :: 0 <= i < logits.Length0 && 0 <= c < logits.Length1 && !(col <= c < col + 32 * g) ==>
                  logits[i, c] == old(logits[i, c])
    {
      QkGroup(v, q, m, scale, logits, col + 32 * g, block, group + g);
    }
  }

  /** Q times K over the tile: column c holds the scaled product with the key of position start + c. */
  method QkTile(v: Tokens, q: Operand, m: nat, scale: real, logits: array2<real>)
    requires ValidTokens(v) && ValidQ(v, q, m)
    requires RowsTouched(v.shape.isa, m) <= logits.Length0 && logits.Length1 == v.count
    modifies logits
    ensures forall i, c :: 0 <= i < m && 0 <= c < v.count ==> logits[i, c] == Logit(v, q, scale, i, c)
  {
    hide Holds; hide Logit; hide At; hide Walked; hide EndBlock; hide StartBlock; hide StartGroup;
    var perBlock := v.shape.blockSize / 32;
    var group: nat, remaining: nat, col: nat := StartGroup(v), v.count / 32, 0;
    WalkStarts(v);
    var num := perBlock - group;
    for block := StartBlock(v) to EndBlock(v)
      invariant Walked(v, block, group, col, remaining) && num == perBlock - group && col <= v.count
      invariant forall i, c :: 0 <= i < m && 0 <= c < col ==> logits[i, c] == Logit(v, q, scale, i, c)
    {
      WalkAdvances(v, block, group, col, remaining);
      num := Powers.Least(remaining, num);
      WalkBound(v, block + 1, col + 32 * num, remaining - num);
      QkBlock(v, q, m, scale, logits, col, block, group, num);
      remaining := remaining - num;
      col := col + 32 * num;
      group, num := 0, perBlock;
    }
    WalkEnds(v, group, col, remaining);
  }

  lemma WalkBound(v: Tokens, block: nat, col: nat, remaining: nat)
    requires Walked(v, block, 0, col, remaining)
    ensures col <= v.count
  {}

  // ----- P times V -----

  /** Row i of the probabilities times element d of the values, over the first `count` columns. */
  ghost function Weighted(v: Tokens, p: Operand, i: nat, d: nat, count: nat): real
    requires PagedCache.ValidShape(v.shape)
  {
    if count == 0 then 0.0
    else Weighted(v, p, i, d, count - 1) + Read(p, i, count - 1) * Element(v, PagedCache.Value, count - 1, d)
  }

  ghost predicate ValidP(v: Tokens, p: Operand, m: nat) {
    && 0 < m <= MaxRows(v.shape.isa) && p.layout.form.RowMajor?
    && Holds(p, RowsTouched(v.shape.isa, m), v.count)
  }

  /** The probabilities from column `col` on. */
  function FromColumn(p: Operand, col: nat): Operand { p.(base := p.base + col) }

  lemma {:induction false} DotIsWeighted(v: Tokens, p: Operand, i: nat, col: nat, block: nat, group: nat, hg: nat,
                                         n: nat, k: nat)
    requires At(v, col, block, group) && PagedCache.Fits(v.shape, v.cache) && v.head < v.shape.heads
    requires 32 * group + k <= v.shape.blockSize && 32 * hg + n < v.shape.headDim && p.layout.form.RowMajor?
    ensures Weighted(v, p, i, 32 * hg + n, col) + Dot(FromColumn(p, col), ValueOperand(v, block, group, hg), i, n, k)
         == Weighted(v, p, i, 32 * hg + n, col + k)
  {
    hide Read; hide Element; hide ValueOperand; hide FromColumn;
    if k > 0 {
      DotIsWeighted(v, p, i, col, block, group, hg, n, k - 1);
      hide Dot; hide Weighted;
      ValueRead(v, col, block, group, hg, n, k - 1);
      ColumnRead(p, col, i, k - 1);
      DotNext(FromColumn(p, col), ValueOperand(v, block, group, hg), i, n, k - 1);
      WeightedNext(v, p, i, 32 * hg + n, col + k - 1);
    } else {
      NoTerms(FromColumn(p, col), ValueOperand(v, block, group, hg), i, n);
    }
  }

  lemma WeightedNext(v: Tokens, p: Operand, i: nat, d: nat, c: nat)
    requires PagedCache.ValidShape(v.shape)
    ensures Weighted(v, p, i, d, c + 1) == Weighted(v, p, i, d, c) + Read(p, i, c) * Element(v, PagedCache.Value, c, d)
  {
    hide Read; hide Element;
  }

  lemma WeightedNone(v: Tokens, p: Operand, i: nat, d: nat)
    requires PagedCache.ValidShape(v.shape)
    ensures Weighted(v, p, i, d, 0) == 0.0
  {}

  lemma ColumnRead(p: Operand, col: nat, i: nat, k: nat)
    requires p.layout.form.RowMajor?
    ensures Place(FromColumn(p, col), i, k) == Place(p, i, col + k)
    ensures Read(FromColumn(p, col), i, k) == Read(p, i, col + k)
  {}

  lemma PvOperands(v: Tokens, p: Operand, m: nat, col: nat, block: nat, group: nat, hg: nat, tokens: nat)
    requires ValidTokens(v) && ValidP(v, p, m) && At(v, col, block, group)
    requires 32 * group + tokens <= v.shape.blockSize && 32 * hg + 32 <= v.shape.headDim
    requires col + tokens <= v.count && tokens % 32 == 0
    ensures Operands(v.shape.isa, FromColumn(p, col), ValueOperand(v, block, group, hg),
                     RowsTouched(v.shape.isa, m), tokens)
  {
    hide ValueOperand; hide Place; hide PagedCache.Fits; hide FromColumn;
    var a, b := FromColumn(p, col), ValueOperand(v, block, group, hg);
    forall x: nat, k: nat | x < 32 && k < tokens ensures 0 <= Place(b, x, k) < |b.buf| {
      ValueRead(v, col, block, group, hg, x, k);
    }
    forall x: nat, k: nat | x < RowsTouched(v.shape.isa, m) && k < tokens ensures 0 <= Place(a, x, k) < |a.buf| {
      ColumnRead(p, col, x, k);
      PvForms(v, p, col, block, group, hg);
    }
    PvForms(v, p, col, block, group, hg);
  }

  lemma PvForms(v: Tokens, p: Operand, col: nat, block: nat, group: nat, hg: nat)
    requires block < |v.table|
    ensures ValueOperand(v, block, group, hg).layout.form == if v.shape.isa.AMX? then PackedPairs else ColumnMajor
    ensures FromColumn(p, col).layout == p.layout && FromColumn(p, col).buf == p.buf
  {}

  /** What a block adds to an output element. */
  ghost function Gain(v: Tokens, p: Operand, i: nat, d: nat, col: nat, tokens: nat): real
    requires PagedCache.ValidShape(v.shape)
  {
    Weighted(v, p, i, d, col + tokens) - Weighted(v, p, i, d, col)
  }

  /** The head groups of one block. */
  method PvBlock(v: Tokens, p: Operand, m: nat, output: array2<real>, col: nat, block: nat, group: nat, tokens: nat,
                 accum: bool)
    requires ValidTokens(v) && ValidP(v, p, m) && At(v, col, block, group)
    requires 32 * group + tokens <= v.shape.blockSize && col + tokens <= v.count && tokens % 32 == 0
    requires RowsTouched(v.shape.isa, m) <= output.Length0 && output.Length1 == v.shape.headDim
    modifies output
    ensures forall i, d :: 0 <= i < m && 0 <= d < v.shape.headDim ==>
              output[i, d] == Start(accum, old(output[i, d])) + Gain(v, p, i, d, col, tokens)
  {
    hide At; hide Gain; hide Holds; hide Start; hide PagedCache.Fits;
    for hg := 0 to v.shape.headDim / 32
      invariant forall i, d :: 0 <= i < m && 0 <= d < 32 * hg ==>
                  output[i, d] == Start(accum, old(output[i, d])) + Gain(v, p, i, d, col, tokens)
      invariant forall i, d :: 0 <= i < m && 32 * hg <= d < v.shape.headDim ==> output[i, d] == old(output[i, d])
    {
      PvHeadGroup(v, p, m, output, col, block, group, tokens, accum, hg);
    }
  }

  method PvHeadGroup(v: Tokens, p: Operand, m: nat, output: array2<real>, col: nat, block: nat, group: nat,
                     tokens: nat, accum: bool, hg: nat)
    requires ValidTokens(v) && ValidP(v, p, m) && At(v, col, block, group) && 32 * hg + 32 <= v.shape.headDim
    requires 32 * group + tokens <= v.shape.blockSize && col + tokens <= v.count && tokens % 32 == 0
    requires RowsTouched(v.shape.isa, m) <= output.Length0 && output.Length1 == v.shape.headDim
    modifies output
    ensures forall i, d :: 0 <= i < m && 32 * hg <= d < 32 * hg + 32 ==>
              output[i, d] == Start(accum, old(output[i, d])) + Gain(v, p, i, d, col, tokens)
    ensures forall i, d :: 0 <= i < output.Length0 && 0 <= d < output.Length1 && !(32 * hg <= d < 32 * hg + 32) ==>
              output[i, d] == old(output[i, d])
  {
    hide Dot; hide ValueOperand; hide FromColumn; hide Holds; hide Operands; hide Weighted; hide PagedCache.Fits;
    hide Start;
    var a, b := FromColumn(p, col), ValueOperand(v, block, group, hg);
    PvOperands(v, p, m, col, block, group, hg, tokens);
    Gemm(v.shape.isa, m, a, b, output, 32 * hg, tokens, accum);
    forall i, d | 0 <= i < m && 32 * hg <= d < 32 * hg + 32
      ensures output[i, d] == Start(accum, old(output[i, d])) + Gain(v, p, i, d, col, tokens)
    {
      var n := d - 32 * hg;
      assert output[i, 32 * hg + n] == Start(accum, old(output[i, 32 * hg + n])) + Dot(a, b, i, n, tokens);
      DotIsWeighted(v, p, i, col, block, group, hg, n, tokens);
    }
  }

  /** P times V over the tile: the walk visits the same positions, each once. */
  method PvTile(v: Tokens, p: Operand, m: nat, output: array2<real>, first: bool)
    requires ValidTokens(v) && ValidP(v, p, m)
    requires RowsTouched(v.shape.isa, m) <= output.Length0 && output.Length1 == v.shape.headDim
    modifies output
    ensures forall i, d :: 0 <= i < m && 0 <= d < v.shape.headDim ==>
              output[i, d] == Start(!first, old(output[i, d])) + Weighted(v, p, i, d, v.count)
  {
    hide Holds; hide Weighted; hide At; hide Walked; hide EndBlock; hide StartBlock; hide StartGroup;
    var perBlock := v.shape.blockSize / 32;
    var group: nat, remaining: nat, col: nat := StartGroup(v), v.count / 32, 0;
    WalkStarts(v);
    var num := perBlock - group;
    var accum := !first;
    forall i: nat, d: nat | i < m && d < v.shape.headDim
      ensures Weighted(v, p, i, d, col) == 0.0
    {
      WeightedNone(v, p, i, d);
    }
    for block := StartBlock(v) to EndBlock(v)
      invariant Walked(v, block, group, col, remaining) && num == perBlock - group
      invariant accum == (!first || col > 0)
      invariant forall i, d :: 0 <= i < m && 0 <= d < v.shape.headDim ==>
                  Start(accum, output[i, d]) == Start(!first, old(output[i, d])) + Weighted(v, p, i, d, col)
    {
      WalkAdvances(v, block, group, col, remaining);
      num := Powers.Least(remaining, num);
      WalkBound(v, block + 1, col + 32 * num, remaining - num);
      PvBlock(v, p, m, output, col, block, group, 32 * num, accum);
      remaining := remaining - num;
      col := col + 32 * num;
      group, num, accum := 0, perBlock, true;
    }
    WalkEnds(v, group, col, remaining);
  }

  // ----- read after write -----

  lemma SlotInCache(v: Tokens, c: nat)
    requires ValidTokens(v) && c < v.count
    ensures PagedCache.ValidSlot(v.shape, SlotOf(v.shape, v.table, v.start + c))
  {
    hide DivMod;
    var bs := v.shape.blockSize;
    var (e, l) := DivMod(v.start + v.count - 1, bs);
    var (b, t) := DivMod(v.start + c, bs);
    DigitBound(e, l, bs, e + 1);
    DigitBound(b, t, bs, e + 1);
    DigitBound(v.table[b], t, bs, v.shape.blocks);
  }

  /**
    If reshape_and_cache gave a token the slot that the block table gives a position, the
    walks read that token's row there; a position whose slot was not written reads as before.
   */
  lemma ReadAfterWrite(v: Tokens, kind: PagedCache.Kind, before: seq<real>, rows: PagedCache.Rows, slots: seq<int>,
                       c: nat, d: nat)
    requires ValidTokens(v) && PagedCache.ValidRows(v.shape, rows, slots) && c < v.count && d < v.shape.headDim
    requires PagedCache.Cached(v.shape, kind, before, v.cache, rows, slots, |slots|, 0)
    requires forall i, j :: 0 <= i < j < |slots| ==> slots[i] != slots[j] || slots[i] < 0
    ensures var slot := SlotOf(v.shape, v.table, v.start + c);
            && (forall t :: 0 <= t < |slots| && slots[t] == slot ==> Element(v, kind, c, d) == rows[t][v.head][d])
            && (slot !in slots ==> Element(v, kind, c, d) == Element(v.(cache := before), kind, c, d))
  {
    hide PagedCache.Stored; hide SlotOf; hide PagedCache.Fits; hide PagedCache.Owner;
    SlotInCache(v, c);
    var slot := SlotOf(v.shape, v.table, v.start + c);
    assert PagedCache.InCache(v.shape, slot, v.head, d);
    forall t | 0 <= t < |slots| && slots[t] == slot ensures PagedCache.Owner(slots, |slots|, slot) == t {
      PagedCache.OwnerUnique(slots, t);
    }
  }
}
