/**
  From reshape_and_cache to the written output: the kernels of PagedTile and QueryPack
  produce the logits and values that EndToEnd takes as given, and what comes out is
  attention over the key and value tensors that were written into the cache.
 */
module PagedAttention {
  import opened CacheLayout
  import opened TileGemm
  import opened OnlineSoftmax
  import opened TileWalk
  import opened Scheduler
  import PagedCache
  import PagedTile
  import QueryPack
  import E = EndToEnd
  import W = WorkPrograms
  import P = SplitProtocol

  /**
    One call: the caches, a block table and the queries [token, query head, element] of
    each request, and the cache head a kv head index reads (itself, or its share of the
    query heads where heads are not grouped).
   */
  datatype Call = Call(shape: PagedCache.Shape, keys: seq<real>, values: seq<real>, tables: seq<seq<nat>>,
                       queries: seq<QueryPack.Query>, scale: real, headOf: nat -> nat)

  ghost function Entry(k: Call, kind: PagedCache.Kind, r: nat, h: nat, j: int, d: nat): real
    requires PagedCache.ValidShape(k.shape)
  {
    if j < 0 || r >= |k.tables| then 0.0
    else PagedCache.Stored(k.shape, kind, if kind.Key? then k.keys else k.values,
                           PagedTile.SlotOf(k.shape, k.tables[r], j), k.headOf(h), d)
  }

  /** Plain dot product of a query row with a key given element by element. */
  ghost function RowDot(row: seq<real>, key: nat -> real, n: nat): real
    requires n <= |row|
  {
    if n == 0 then 0.0 else RowDot(row, key, n - 1) + row[n - 1] * key(n - 1)
  }

  lemma {:induction false} RowDotSame(row: seq<real>, a: nat -> real, b: nat -> real, n: nat)
    requires n <= |row| && forall d: nat :: d < n ==> a(d) == b(d)
    ensures RowDot(row, a, n) == RowDot(row, b, n)
  {
    if n > 0 {
      RowDotSame(row, a, b, n - 1);
      assert a(n - 1) == b(n - 1);
    }
  }

  ghost predicate HasQuery(k: Call, r: nat, qh: nat, tok: nat) {
    r < |k.queries| && tok < |k.queries[r]| && qh < |k.queries[r][tok]| && |k.queries[r][tok][qh]| == k.shape.headDim
  }

  ghost function LogitOf(k: Call, rows: nat, r: nat, qh: nat, tok: nat, j: int): real
    requires PagedCache.ValidShape(k.shape) && rows > 0
  {
    if HasQuery(k, r, qh, tok) then
      k.scale * RowDot(k.queries[r][tok][qh], (d: nat) => Entry(k, PagedCache.Key, r, DivMod(qh, rows).0, j, d),
                       k.shape.headDim)
    else 0.0
  }

  ghost function ValueOf(k: Call, r: nat, h: nat, j: int): (v: seq<real>)
    requires PagedCache.ValidShape(k.shape)
    ensures |v| == k.shape.headDim
  {
    seq(k.shape.headDim, d requires 0 <= d < k.shape.headDim => Entry(k, PagedCache.Value, r, h, j, d))
  }

  /** The read-only inputs of the region, taken from the caches; `rest` has the exponential, sinks and sizes. */
  ghost function CacheModel(k: Call, rest: E.Model): E.Model
    requires PagedCache.ValidShape(k.shape) && rest.rows > 0
  {
    rest.(logit := (r: nat, qh: nat, tok: nat, j: int) => LogitOf(k, rest.rows, r, qh, tok, j),
          value := (r: nat, h: nat, j: int) => ValueOf(k, r, h, j),
          dim := k.shape.headDim)
  }

  // ----- the kernels compute these -----

  /** The tile of positions [a, a + n) of a request, for the K or the V walk. */
  ghost predicate TokensOf(k: Call, kind: PagedCache.Kind, r: nat, h: nat, v: PagedTile.Tokens) {
    && PagedCache.ValidShape(k.shape) && r < |k.tables| && v.shape == k.shape && v.table == k.tables[r]
    && v.head == k.headOf(h) && v.cache == (if kind.Key? then k.keys else k.values)
  }

  lemma {:induction false} ProductIsDot(k: Call, r: nat, h: nat, v: PagedTile.Tokens, row: seq<real>, c: nat, n: nat)
    requires TokensOf(k, PagedCache.Key, r, h, v) && n <= |row|
    ensures QueryPack.Product(row, v, c, n)
            == RowDot(row, (d: nat) => Entry(k, PagedCache.Key, r, h, v.start + c, d), n)
  {
    hide PagedCache.Stored; hide PagedTile.SlotOf;
    if n > 0 { ProductIsDot(k, r, h, v, row, c, n - 1); }
  }

  /**
    Copying the Q tile and multiplying it with the K tile, in either layout, gives the
    logits: row t * rows + i of the tile is query head h * rows + i of token first + t.
   */
  lemma KernelLogit(k: Call, rows: nat, r: nat, h: nat, first: nat, query: QueryPack.Query, g: QueryPack.Target,
                    buf: seq<real>, v: PagedTile.Tokens, r0: nat, i: nat, t: nat, row: nat, c: nat)
    requires TokensOf(k, PagedCache.Key, r, h, v) && rows > 0 && row < rows && t < |query|
    requires QueryPack.ValidTarget(g) && QueryPack.ValidQuery(query, rows, g.headDim)
    requires k.shape.isa == g.isa && k.shape.headDim == g.headDim && g.scale == k.scale
    requires (g.isa.AMX? ==> r0 % 16 == 0) && r0 + i == t * rows + row && t * rows + row < |query| * rows
    requires QueryPack.Copied(g, buf, query, rows, |query| * rows)
    requires HasQuery(k, r, h * rows + row, first + t) && query[t][row] == k.queries[r][first + t][h * rows + row]
    ensures PagedTile.Logit(v, QueryPack.Iteration(g, buf, r0), g.scale, i, c)
         == LogitOf(k, rows, r, h * rows + row, first + t, v.start + c)
  {
    hide QueryPack.Copied; hide QueryPack.Row; hide PagedTile.Logit; hide QueryPack.Product; hide RowDot; hide Entry;
    hide DivMod;
    QueryPack.LogitIsScaledProduct(g, buf, query, rows, v, r0, i, c);
    QueryPack.RowAt(query, rows, g.headDim, t, row);
    ProductIsDot(k, r, h, v, query[t][row], c, g.headDim);
    Digits(h, row, rows);
  }

  /** The P.V walk adds exactly the weighted values of the tile. */
  lemma {:induction false} KernelValues(k: Call, exp: real -> real, q: Query, r: nat, h: nat, v: PagedTile.Tokens,
                                        p: Operand, i: nat, cells: seq<Cell>, base: real, d: nat)
    requires TokensOf(k, PagedCache.Value, r, h, v) && d < k.shape.headDim && ValuesShaped(q, k.shape.headDim)
    requires forall j: int :: q.v(j) == ValueOf(k, r, h, j)
    requires forall c: nat :: c < |cells| ==> Read(p, i, c) == Weight(exp, cells[c], base)
    ensures PagedTile.Weighted(v, p, i, d, |cells|)
         == VSum(exp, cells, RangeVals(q, v.start, v.start + |cells|), base, d)
  {
    hide PagedCache.Stored; hide PagedTile.SlotOf; hide Read; hide Weight; hide VSum; hide Entry;
    hide PagedTile.Weighted; hide PagedTile.Element; hide RangeVals; hide TokensOf;
    assert PagedCache.ValidShape(k.shape) && v.shape == k.shape by { TokensShape(k, PagedCache.Value, r, h, v); }
    var n := |cells|;
    var vals := RangeVals(q, v.start, v.start + n);
    RangeShaped(q, v.start, v.start + n, k.shape.headDim);
    VSumLast(exp, cells, vals, base, d);
    if n > 0 {
      KernelValues(k, exp, q, r, h, v, p, i, cells[..n - 1], base, d);
      LastValue(k, q, r, h, v, n, d);
      var w, x := Read(p, i, n - 1), PagedTile.Element(v, PagedCache.Value, n - 1, d);
      assert w == Weight(exp, cells[n - 1], base) && x == vals[n - 1][d];
      PagedTile.WeightedNext(v, p, i, d, n - 1);
    } else {
      PagedTile.WeightedNone(v, p, i, d);
    }
  }

  lemma TokensShape(k: Call, kind: PagedCache.Kind, r: nat, h: nat, v: PagedTile.Tokens)
    requires TokensOf(k, kind, r, h, v)
    ensures PagedCache.ValidShape(k.shape) && v.shape == k.shape
  {}

  lemma RangeShaped(q: Query, a: int, b: int, dim: nat)
    requires a <= b && ValuesShaped(q, dim)
    ensures forall j :: 0 <= j < b - a ==> |RangeVals(q, a, b)[j]| == dim
  {}

  lemma LastValue(k: Call, q: Query, r: nat, h: nat, v: PagedTile.Tokens, n: nat, d: nat)
    requires TokensOf(k, PagedCache.Value, r, h, v) && d < k.shape.headDim && n > 0
    requires forall j: int :: q.v(j) == ValueOf(k, r, h, j)
    ensures RangeVals(q, v.start, v.start + n)[..n - 1] == RangeVals(q, v.start, v.start + (n - 1))
    ensures d < |RangeVals(q, v.start, v.start + n)[n - 1]|
    ensures RangeVals(q, v.start, v.start + n)[n - 1][d] == PagedTile.Element(v, PagedCache.Value, n - 1, d)
  {
    hide Entry; hide PagedTile.Element;
    var j := v.start + (n - 1);
    assert RangeVals(q, v.start, v.start + n)[n - 1] == q.v(j) == ValueOf(k, r, h, j);
    EntryIsElement(k, PagedCache.Value, r, h, v, n - 1, d);
  }

  lemma EntryIsElement(k: Call, kind: PagedCache.Kind, r: nat, h: nat, v: PagedTile.Tokens, c: nat, d: nat)
    requires TokensOf(k, kind, r, h, v)
    ensures PagedTile.Element(v, kind, c, d) == Entry(k, kind, r, h, v.start + c, d)
  {}

  /**
    One row of one inner tile: given what QkTile, apply_mask and the softmax leave behind,
    the masked logits are the tile TileStep works on, and P.V is the sum it adds.
   */
  lemma KernelTile(k: Call, exp: real -> real, q: Query, r: nat, h: nat, vk: PagedTile.Tokens, vv: PagedTile.Tokens,
                   a: nat, b: nat, logits: seq<real>, cells: seq<Cell>, p: Operand, i: nat, base: real)
    requires a <= b && |logits| == |cells| == b - a && vv.start == a
    requires TokensOf(k, PagedCache.Key, r, h, vk) && TokensOf(k, PagedCache.Value, r, h, vv)
    requires ValuesShaped(q, k.shape.headDim) && forall j: int :: q.v(j) == ValueOf(k, r, h, j)
    requires forall c: nat :: c < b - a ==> logits[c] == q.x(a + c)
    requires forall c: nat :: c < b - a ==>
               cells[c] == if MaskKeeps(a, b, q.pos, q.window, a + c) then Num(logits[c]) else NegInf
    requires forall c: nat :: c < b - a ==> Read(p, i, c) == Weight(exp, cells[c], base)
    ensures Tile(cells, RangeVals(q, a, b)) == MaskedTile(q, a, b)
    ensures forall d: nat :: d < k.shape.headDim ==>
              PagedTile.Weighted(vv, p, i, d, b - a) == VSum(exp, cells, RangeVals(q, a, b), base, d)
  {
    hide Read; hide Weight; hide VSum; hide PagedTile.Weighted; hide ValueOf; hide MaskKeeps;
    assert cells == MaskedTile(q, a, b).cells;
    forall d: nat | d < k.shape.headDim
      ensures PagedTile.Weighted(vv, p, i, d, b - a) == VSum(exp, cells, RangeVals(q, a, b), base, d)
    {
      KernelValues(k, exp, q, r, h, vv, p, i, cells, base, d);
    }
  }

  // ----- attention over the tensors -----

  /** One reshape_and_cache call. */
  datatype Write = Write(key: PagedCache.Rows, value: PagedCache.Rows, slots: seq<int>)

  /** All calls so far, and which call and token the key and value at a position of a request come from. */
  datatype Tensors = Tensors(writes: seq<Write>, at: (nat, int) -> (nat, nat))

  function Cell3(rows: PagedCache.Rows, t: nat, h: nat, d: nat): real {
    if t < |rows| && h < |rows[t]| && d < |rows[t][h]| then rows[t][h][d] else 0.0
  }

  function TensorEntry(x: Tensors, kind: PagedCache.Kind, r: nat, j: int, h: nat, d: nat): real {
    var (n, t) := x.at(r, j);
    if n < |x.writes| then Cell3(if kind.Key? then x.writes[n].key else x.writes[n].value, t, h, d) else 0.0
  }

  /** `before` and `after` are the caches around one call; distinct slots, as for OwnerUnique. */
  ghost predicate Wrote(s: PagedCache.Shape, kind: PagedCache.Kind, w: Write, before: seq<real>, after: seq<real>)
    requires PagedCache.ValidShape(s)
  {
    && PagedCache.ValidRows(s, w.key, w.slots) && PagedCache.ValidRows(s, w.value, w.slots)
    && PagedCache.Cached(s, kind, before, after, if kind.Key? then w.key else w.value, w.slots, |w.slots|, 0)
    && forall i, j :: 0 <= i < j < |w.slots| ==> w.slots[i] != w.slots[j] || w.slots[i] < 0
  }

  /** The caches are what these calls made, one after the other, of some earlier contents. */
  ghost predicate Filled(k: Call, keys: seq<seq<real>>, values: seq<seq<real>>, x: Tensors) {
    && PagedCache.ValidShape(k.shape)
    && |keys| == |values| == |x.writes| + 1 && keys[|x.writes|] == k.keys && values[|x.writes|] == k.values
    && forall n :: 0 <= n < |x.writes| ==>
         && Wrote(k.shape, PagedCache.Key, x.writes[n], keys[n], keys[n + 1])
         && Wrote(k.shape, PagedCache.Value, x.writes[n], values[n], values[n + 1])
  }

  /** slot_mapping and block_table agree on position j of request r, and no later call wrote that slot again. */
  ghost predicate Agrees(k: Call, x: Tensors, r: nat, j: int)
    requires PagedCache.ValidShape(k.shape)
  {
    var (n, t) := x.at(r, j);
    && 0 <= j && r < |k.tables| && n < |x.writes| && t < |x.writes[n].slots|
    && var slot := PagedTile.SlotOf(k.shape, k.tables[r], j);
       && x.writes[n].slots[t] == slot && PagedCache.ValidSlot(k.shape, slot)
       && forall later :: n < later < |x.writes| ==> slot !in x.writes[later].slots
  }

  lemma WroteSlot(s: PagedCache.Shape, kind: PagedCache.Kind, w: Write, before: seq<real>, after: seq<real>,
                  slot: nat, h: nat, d: nat)
    requires PagedCache.ValidShape(s) && Wrote(s, kind, w, before, after) && PagedCache.InCache(s, slot, h, d)
    ensures forall t: nat :: t < |w.slots| && w.slots[t] == slot ==>
              PagedCache.Stored(s, kind, after, slot, h, d) == Cell3(if kind.Key? then w.key else w.value, t, h, d)
    ensures slot !in w.slots ==>
              PagedCache.Stored(s, kind, after, slot, h, d) == PagedCache.Stored(s, kind, before, slot, h, d)
  {
    hide PagedCache.Stored; hide PagedCache.Owner;
    forall t: nat | t < |w.slots| && w.slots[t] == slot
      ensures PagedCache.Stored(s, kind, after, slot, h, d) == Cell3(if kind.Key? then w.key else w.value, t, h, d)
    {
      PagedCache.OwnerUnique(w.slots, t);
    }
  }

  /** After the call that wrote it last, a slot keeps its contents. */
  lemma {:induction false} LastWrite(s: PagedCache.Shape, kind: PagedCache.Kind, ws: seq<Write>, caches: seq<seq<real>>,
                                     n: nat, t: nat, upTo: nat, slot: nat, h: nat, d: nat)
    requires PagedCache.ValidShape(s) && PagedCache.InCache(s, slot, h, d)
    requires n < upTo <= |ws| < |caches| && t < |ws[n].slots| && ws[n].slots[t] == slot
    requires forall i :: 0 <= i < upTo ==> Wrote(s, kind, ws[i], caches[i], caches[i + 1])
    requires forall later :: n < later < upTo ==> slot !in ws[later].slots
    ensures PagedCache.Stored(s, kind, caches[upTo], slot, h, d)
         == Cell3(if kind.Key? then ws[n].key else ws[n].value, t, h, d)
    decreases upTo
  {
    hide PagedCache.Stored; hide Wrote; hide PagedCache.InCache; hide Cell3;
    WroteSlot(s, kind, ws[upTo - 1], caches[upTo - 1], caches[upTo - 1 + 1], slot, h, d);
    if n + 1 < upTo { LastWrite(s, kind, ws, caches, n, t, upTo - 1, slot, h, d); }
  }

  lemma EntryFromTensors(k: Call, keys: seq<seq<real>>, values: seq<seq<real>>, x: Tensors, kind: PagedCache.Kind,
                         r: nat, h: nat, j: int, d: nat)
    requires Filled(k, keys, values, x) && Agrees(k, x, r, j) && k.headOf(h) < k.shape.heads && d < k.shape.headDim
    ensures Entry(k, kind, r, h, j, d) == TensorEntry(x, kind, r, j, k.headOf(h), d)
  {
    hide PagedCache.Stored; hide PagedTile.SlotOf; hide Wrote; hide Cell3;
    var (n, t) := x.at(r, j);
    var slot := PagedTile.SlotOf(k.shape, k.tables[r], j);
    assert PagedCache.InCache(k.shape, slot, k.headOf(h), d);
    LastWrite(k.shape, kind, x.writes, if kind.Key? then keys else values, n, t, |x.writes|, slot, k.headOf(h), d);
  }

  /** The same inputs, straight from the tensors. */
  ghost function TensorModel(k: Call, x: Tensors, rest: E.Model): E.Model
    requires rest.rows > 0
  {
    rest.(logit := (r: nat, qh: nat, tok: nat, j: int) =>
            if HasQuery(k, r, qh, tok) then
              k.scale * RowDot(k.queries[r][tok][qh],
                               (d: nat) => TensorEntry(x, PagedCache.Key, r, j, k.headOf(DivMod(qh, rest.rows).0), d),
                               k.shape.headDim)
            else 0.0,
          value := (r: nat, h: nat, j: int) =>
            seq(k.shape.headDim, d requires 0 <= d < k.shape.headDim =>
              TensorEntry(x, PagedCache.Value, r, j, k.headOf(h), d)),
          dim := k.shape.headDim)
  }

  lemma SameInputs(k: Call, keys: seq<seq<real>>, values: seq<seq<real>>, x: Tensors, rest: E.Model,
                   r: nat, h: nat, row: nat, tok: nat, j: int)
    requires Filled(k, keys, values, x) && Agrees(k, x, r, j) && k.headOf(h) < k.shape.heads && row < rest.rows
    ensures CacheModel(k, rest).logit(r, h * rest.rows + row, tok, j)
            == TensorModel(k, x, rest).logit(r, h * rest.rows + row, tok, j)
    ensures CacheModel(k, rest).value(r, h, j) == TensorModel(k, x, rest).value(r, h, j)
  {
    hide Entry; hide TensorEntry; hide DivMod; hide RowDot; hide Agrees; hide Filled;
    assert PagedCache.ValidShape(k.shape) by { FilledShape(k, keys, values, x); }
    hide PagedCache.ValidShape;
    Digits(h, row, rest.rows);
    forall d: nat | d < k.shape.headDim
      ensures Entry(k, PagedCache.Key, r, h, j, d) == TensorEntry(x, PagedCache.Key, r, j, k.headOf(h), d)
      ensures Entry(k, PagedCache.Value, r, h, j, d) == TensorEntry(x, PagedCache.Value, r, j, k.headOf(h), d)
    {
      EntryFromTensors(k, keys, values, x, PagedCache.Key, r, h, j, d);
      EntryFromTensors(k, keys, values, x, PagedCache.Value, r, h, j, d);
    }
    var qh := h * rest.rows + row;
    if HasQuery(k, r, qh, tok) {
      RowDotSame(k.queries[r][tok][qh], (d: nat) => Entry(k, PagedCache.Key, r, DivMod(qh, rest.rows).0, j, d),
                 (d: nat) => TensorEntry(x, PagedCache.Key, r, j, k.headOf(DivMod(qh, rest.rows).0), d),
                 k.shape.headDim);
    }
  }

  lemma FilledShape(k: Call, keys: seq<seq<real>>, values: seq<seq<real>>, x: Tensors)
    requires Filled(k, keys, values, x)
    ensures PagedCache.ValidShape(k.shape)
  {}

  /** Every position a token of the batch may attend to was written. */
  ghost predicate Covered(k: Call, x: Tensors, c: Config)
    requires PagedCache.ValidShape(k.shape) && ValidConfig(c)
  {
    forall r: nat, tok: nat, j: int :: TileAt(c, r, tok) && E.FirstSeen(c, r, tok) <= j <= QPos(c, r, tok) ==>
      Agrees(k, x, r, j)
  }

  /** Plain attention over the cache is plain attention over the tensors. */
  lemma SameReference(k: Call, keys: seq<seq<real>>, values: seq<seq<real>>, x: Tensors, rest: E.Model, c: Config,
                      h: nat, r: nat, tok: nat, row: nat, d: nat)
    requires ValidConfig(c) && Filled(k, keys, values, x) && Covered(k, x, c) && rest.rows > 0
    requires E.ValidModel(CacheModel(k, rest), c) && E.ValidModel(TensorModel(k, x, rest), c)
    requires TileAt(c, r, tok) && row < rest.rows && k.headOf(h) < k.shape.heads && d < k.shape.headDim
    ensures E.Reference(CacheModel(k, rest), c, h, r, tok, row, d)
            == E.Reference(TensorModel(k, x, rest), c, h, r, tok, row, d)
  {
    hide Filled; hide Covered; hide PagedCache.ValidShape; hide Agrees; hide Attend; hide LogitOf; hide ValueOf;
    hide E.ValidModel;
    FilledShape(k, keys, values, x);
    var m, m' := CacheModel(k, rest), TensorModel(k, x, rest);
    var lo, hi := E.FirstSeen(c, r, tok), QPos(c, r, tok) + 1;
    var q, q' := E.QueryOf(m, c, h, r, tok, row), E.QueryOf(m', c, h, r, tok, row);
    forall j | lo <= j < hi ensures q.x(j) == q'.x(j) && q.v(j) == q'.v(j) {
      assert Agrees(k, x, r, j) by { Covers(k, x, c, r, tok, j); }
      SameInputs(k, keys, values, x, rest, r, h, row, tok, j);
    }
    SameRange(q, q', lo, hi);
  }

  lemma Covers(k: Call, x: Tensors, c: Config, r: nat, tok: nat, j: int)
    requires PagedCache.ValidShape(k.shape) && ValidConfig(c) && Covered(k, x, c)
    requires TileAt(c, r, tok) && E.FirstSeen(c, r, tok) <= j <= QPos(c, r, tok)
    ensures Agrees(k, x, r, j)
  {}

  lemma SameRange(q: Query, q': Query, lo: int, hi: int)
    requires lo <= hi && q.pos == q'.pos && q.window == q'.window
    requires forall j :: lo <= j < hi ==> q.x(j) == q'.x(j) && q.v(j) == q'.v(j)
    ensures Range(q, lo, hi) == Range(q', lo, hi)
  {
    forall i | 0 <= i < hi - lo
      ensures RangeCells(q, lo, hi)[i] == RangeCells(q', lo, hi)[i]
              && RangeVals(q, lo, hi)[i] == RangeVals(q', lo, hi)[i]
    {
      var j := lo + i;
      assert q.x(j) == q'.x(j) && q.v(j) == q'.v(j);
      assert RangeCells(q, lo, hi)[i] == CellAt(q, j) == CellAt(q', j) == RangeCells(q', lo, hi)[i];
    }
  }

  lemma SameIsReference(k: Call, keys: seq<seq<real>>, values: seq<seq<real>>, x: Tensors, rest: E.Model, c: Config,
                        h: nat, r: nat, tok: nat, o: E.Outs)
    requires ValidConfig(c) && Filled(k, keys, values, x) && Covered(k, x, c) && rest.rows > 0
    requires E.ValidModel(CacheModel(k, rest), c) && E.ValidModel(TensorModel(k, x, rest), c)
    requires TileAt(c, r, tok) && k.headOf(h) < k.shape.heads
    ensures E.IsReference(CacheModel(k, rest), c, h, r, tok, o)
            <==> E.IsReference(TensorModel(k, x, rest), c, h, r, tok, o)
  {
    hide Filled; hide Covered; hide PagedCache.ValidShape; hide E.ValidModel; hide E.Reference;
    FilledShape(k, keys, values, x);
    forall row: nat, d: nat | row < rest.rows && d < k.shape.headDim
      ensures E.Reference(CacheModel(k, rest), c, h, r, tok, row, d)
              == E.Reference(TensorModel(k, x, rest), c, h, r, tok, row, d)
    {
      SameReference(k, keys, values, x, rest, c, h, r, tok, row, d);
    }
  }

  /**
    The whole call: keys and values written by any number of reshape_and_cache calls, any
    schedule, any interleaving.  Each output slot holds attention over the tensors, with logits
    scale * (query . key), exactly if its work item loses nothing.
   */
  lemma PagedAttentionIsExact(k: Call, keys: seq<seq<real>>, values: seq<seq<real>>, x: Tensors, rest: E.Model,
      c: Config,
                              m: Metadata, us: seq<Unit>, heads: nat,
                              s0: P.State<E.Stats, E.Accs, E.Outs>, sched: seq<nat>)
    requires ValidConfig(c) && Filled(k, keys, values, x) && Covered(k, x, c) && rest.rows > 0
    requires E.ValidModel(TensorModel(k, x, rest), c) && forall h: nat :: h < heads ==> k.headOf(h) < k.shape.heads
    requires E.Setting(CacheModel(k, rest), c, m, us)
    requires P.Init(E.Region(CacheModel(k, rest), c, m, us, heads), s0)
    requires P.ValidSchedule(E.Region(CacheModel(k, rest), c, m, us, heads), sched)
    ensures
      var M := CacheModel(k, rest);
      var p, cert := E.Region(M, c, m, us, heads), E.Certificate(M, c, m, us, heads);
      && P.Inv(p, cert, s0)
      && var s := P.Exec(p, cert, s0, sched);
         P.AllFinished(s) ==>
           && s.out.Keys == W.AllKeys(c, heads)
           && forall key, n ::
                key in W.AllKeys(c, heads) && 0 <= n < |m.items| && E.Serves(m.items[n], key.req, key.tok) ==>
                && E.InItem(c, m.items[n], key.tok)
                && (E.IsReference(TensorModel(k, x, rest), c, key.head, key.req, key.tok, s.out[key])
                    <==> E.ItemLoss(M, c, m.items[n], key.tok) == 0)
  {
    hide Filled; hide Covered; hide PagedCache.ValidShape; hide E.ValidModel; hide E.IsReference; hide E.IsOutput;
    hide E.ItemLoss; hide P.Exec; hide P.Inv; hide P.Init; hide E.Certificate; hide E.Region; hide CacheModel;
    hide TensorModel;
    FilledShape(k, keys, values, x);
    var M := CacheModel(k, rest);
    E.AttentionIsExact(M, c, m, us, heads, s0, sched);
    var s := P.Exec(E.Region(M, c, m, us, heads), E.Certificate(M, c, m, us, heads), s0, sched);
    if P.AllFinished(s) {
      forall key | key in W.AllKeys(c, heads)
        ensures E.IsReference(M, c, key.head, key.req, key.tok, s.out[key])
            <==> E.IsReference(TensorModel(k, x, rest), c, key.head, key.req, key.tok, s.out[key])
      {
        SameIsReference(k, keys, values, x, rest, c, key.head, key.req, key.tok, s.out[key]);
      }
    }
  }
}
