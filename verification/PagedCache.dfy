/**
  reshape_and_cache (csrc/cpu/cpu_attn_amx.hpp, csrc/cpu/cpu_attn_vec.hpp): writing new
  keys and values into the paged caches, by slot.
 */
module PagedCache {
  import opened CacheLayout

  /** Cache tensors [blocks, heads, blockSize, headDim] with the strides of the first two dimensions. */
  datatype Shape = Shape(isa: Isa, blockSize: nat, headDim: nat, heads: nat, blocks: nat, blockStride: nat,
                         headStride: nat)

  ghost predicate ValidShape(s: Shape) {
    && s.blockSize > 0 && s.blockSize % 32 == 0 && s.headDim > 0 && s.headDim % 32 == 0
    && s.blockSize * s.headDim <= s.headStride && s.heads * s.headStride <= s.blockStride
  }

  datatype Kind = Key | Value

  function Offset(s: Shape, block: nat, head: nat): int { block * s.blockStride + head * s.headStride }

  /** Element d of the key or value of a token at this offset in its block. */
  function InBlock(s: Shape, kind: Kind, token: nat, d: nat): int {
    match kind
    case Key => Addr(KLayout(s.isa, s.blockSize, s.headDim), token, d)
    case Value => Addr(VLayout(s.isa, s.blockSize, s.headDim), d, token)
  }

  function Place(s: Shape, kind: Kind, slot: nat, head: nat, d: nat): int
    requires ValidShape(s)
  {
    var (block, token) := DivMod(slot, s.blockSize);
    Offset(s, block, head) + InBlock(s, kind, token, d)
  }

  ghost predicate ValidSlot(s: Shape, slot: int) { 0 <= slot < s.blocks * s.blockSize }

  lemma InBlockRange(s: Shape, kind: Kind, token: nat, d: nat)
    requires ValidShape(s) && token < s.blockSize && d < s.headDim
    ensures 0 <= InBlock(s, kind, token, d) < s.headStride
  {
    hide Addr; hide Unpack;
    var l, x, k := if kind.Key? then KLayout(s.isa, s.blockSize, s.headDim) else VLayout(s.isa, s.blockSize, s.headDim),
                   if kind.Key? then token else d, if kind.Key? then d else token;
    PackUnpack(l, x, k);
    Commutes(l.outer, l.depth);
  }

  lemma Commutes(a: int, b: int)
    ensures a * b == b * a
  {}

  lemma InBlockInjective(s: Shape, kind: Kind, token: nat, d: nat, token': nat, d': nat)
    requires ValidShape(s) && token < s.blockSize && d < s.headDim && token' < s.blockSize && d' < s.headDim
    requires InBlock(s, kind, token, d) == InBlock(s, kind, token', d')
    ensures token == token' && d == d'
  {
    hide Addr;
    match kind
    case Key => AddrInjective(KLayout(s.isa, s.blockSize, s.headDim), token, d, token', d');
    case Value => AddrInjective(VLayout(s.isa, s.blockSize, s.headDim), d, token, d', token');
  }

  /** A block, a head and an offset are the digits of an address. */
  lemma OffsetDigits(s: Shape, block: nat, head: nat, a: nat)
    requires ValidShape(s) && head < s.heads && a < s.headStride
    ensures 0 <= head * s.headStride + a < s.blockStride
    ensures DivMod(Offset(s, block, head) + a, s.blockStride) == (block, head * s.headStride + a)
    ensures DivMod(head * s.headStride + a, s.headStride) == (head, a)
    ensures block < s.blocks ==> 0 <= Offset(s, block, head) + a < s.blocks * s.blockStride
  {
    Digits(head, a, s.headStride);
    DigitBound(head, a, s.headStride, s.heads);
    Digits(block, head * s.headStride + a, s.blockStride);
    DigitBound(block, head * s.headStride + a, s.blockStride, s.blocks);
  }

  lemma PlaceRange(s: Shape, kind: Kind, slot: nat, head: nat, d: nat)
    requires ValidShape(s) && ValidSlot(s, slot) && head < s.heads && d < s.headDim
    ensures 0 <= Place(s, kind, slot, head, d) < s.blocks * s.blockStride
  {
    hide InBlock; hide DivMod; hide Offset;
    var (block, token) := DivMod(slot, s.blockSize);
    DigitBound(block, token, s.blockSize, s.blocks);
    InBlockRange(s, kind, token, d);
    OffsetDigits(s, block, head, InBlock(s, kind, token, d));
  }

  /** No two elements of a cache share an address, within or across blocks and heads. */
  lemma PlaceInjective(s: Shape, kind: Kind, slot: nat, head: nat, d: nat, slot': nat, head': nat, d': nat)
    requires ValidShape(s) && head < s.heads && d < s.headDim && head' < s.heads && d' < s.headDim
    requires Place(s, kind, slot, head, d) == Place(s, kind, slot', head', d')
    ensures slot == slot' && head == head' && d == d'
  {
    hide InBlock; hide DivMod; hide Offset;
    var (b, t) := DivMod(slot, s.blockSize);
    var (b', t') := DivMod(slot', s.blockSize);
    InBlockRange(s, kind, t, d);
    InBlockRange(s, kind, t', d');
    OffsetDigits(s, b, head, InBlock(s, kind, t, d));
    OffsetDigits(s, b', head', InBlock(s, kind, t', d'));
    InBlockInjective(s, kind, t, d, t', d');
  }

  // ----- what a cache stores -----

  ghost predicate Fits(s: Shape, cache: seq<real>) { |cache| >= s.blocks * s.blockStride }

  ghost function Stored(s: Shape, kind: Kind, cache: seq<real>, slot: nat, head: nat, d: nat): real
    requires ValidShape(s)
  {
    var p := Place(s, kind, slot, head, d);
    if 0 <= p < |cache| then cache[p] else 0.0
  }

  ghost predicate InCache(s: Shape, slot: int, head: int, d: int) {
    ValidSlot(s, slot) && 0 <= head < s.heads && 0 <= d < s.headDim
  }

  /** The first n elements of one row have been written, and no other element has changed. */
  ghost predicate Written(s: Shape, kind: Kind, before: seq<real>, after: seq<real>, slot: nat, head: nat,
                          row: seq<real>, n: nat)
    requires ValidShape(s) && n <= |row|
  {
    && |after| == |before|
    && forall slot', head', d' :: InCache(s, slot', head', d') ==>
         Stored(s, kind, after, slot', head', d')
         == if slot' == slot && head' == head && d' < n then row[d'] else Stored(s, kind, before, slot', head', d')
  }

  lemma WriteOne(s: Shape, kind: Kind, before: seq<real>, now: seq<real>, slot: nat, head: nat, row: seq<real>,
                 n: nat, p: int)
    requires ValidShape(s) && Fits(s, before) && InCache(s, slot, head, n) && n < |row|
    requires Written(s, kind, before, now, slot, head, row, n) && p == Place(s, kind, slot, head, n)
    ensures 0 <= p < |now|
    ensures Written(s, kind, before, now[p := row[n]], slot, head, row, n + 1)
  {
    hide Place;
    PlaceRange(s, kind, slot, head, n);
    var after := now[p := row[n]];
    forall slot', head', d' | InCache(s, slot', head', d')
      ensures Stored(s, kind, after, slot', head', d')
           == if slot' == slot && head' == head && d' < n + 1 then row[d']
              else Stored(s, kind, before, slot', head', d')
    {
      if Place(s, kind, slot', head', d') == p { PlaceInjective(s, kind, slot, head, n, slot', head', d'); }
    }
  }

  // ----- writing one row -----

  method Put(cache: array<real>, p: int, v: real)
    requires 0 <= p < cache.Length
    modifies cache
    ensures cache[..] == old(cache[..])[p := v]
  {
    cache[p] := v;
  }

  ghost predicate Writable(s: Shape, cache: seq<real>, slot: nat, head: nat, row: seq<real>) {
    ValidShape(s) && Fits(s, cache) && ValidSlot(s, slot) && head < s.heads && |row| == s.headDim
  }

  lemma NothingWritten(s: Shape, kind: Kind, cache: seq<real>, slot: nat, head: nat, row: seq<real>)
    requires ValidShape(s)
    ensures Written(s, kind, cache, cache, slot, head, row, 0)
  {
    hide Stored;
  }

  /** Key quadwords: pairs of head elements, 16 tokens side by side. */
  lemma KeyQuadword(depth: nat, token: nat, j: nat, e: nat)
    requires depth % 2 == 0 && e < 2
    ensures 2 * (token / 16 * (16 * (depth / 2)) + token % 16 + 16 * j) + e
         == token / 16 * (16 * depth) + InTile(PackedPairs, token % 16, 2 * j + e)
  {
    var h := depth / 2;
    assert depth == 2 * h && (2 * j + e) / 2 == j && (2 * j + e) % 2 == e;
    assert token / 16 * (16 * depth) == 2 * (token / 16 * (16 * h));
  }

  method WriteKeyAmx(s: Shape, cache: array<real>, slot: nat, head: nat, row: seq<real>)
    requires s.isa.AMX? && Writable(s, cache[..], slot, head, row)
    modifies cache
    ensures Written(s, Key, old(cache[..]), cache[..], slot, head, row, s.headDim)
  {
    hide Stored; hide Written; hide InTile; hide Fits; hide ValidSlot;
    var (block, token) := DivMod(slot, s.blockSize);
    var quadwords := s.headDim / 2;
    var base := block * s.blockStride + head * s.headStride;
    var start := token / 16 * (16 * quadwords) + token % 16;
    NothingWritten(s, Key, cache[..], slot, head, row);
    for j := 0 to quadwords
      invariant Written(s, Key, old(cache[..]), cache[..], slot, head, row, 2 * j)
    {
      var p := base + 2 * (start + 16 * j);
      KeyQuadword(s.headDim, token, j, 0);
      KeyQuadword(s.headDim, token, j, 1);
      WriteNext(s, Key, old(cache[..]), cache[..], slot, head, row, 2 * j, p);
      Put(cache, p, row[2 * j]);
      WriteNext(s, Key, old(cache[..]), cache[..], slot, head, row, 2 * j + 1, p + 1);
      Put(cache, p + 1, row[2 * j + 1]);
    }
  }

  /** WriteOne for the rows of these methods. */
  lemma WriteNext(s: Shape, kind: Kind, before: seq<real>, now: seq<real>, slot: nat, head: nat, row: seq<real>,
                  n: nat, p: int)
    requires Writable(s, before, slot, head, row) && n < s.headDim
    requires Written(s, kind, before, now, slot, head, row, n) && p == Place(s, kind, slot, head, n)
    ensures 0 <= p < |now|
    ensures Written(s, kind, before, now[p := row[n]], slot, head, row, n + 1)
  {
    hide Place; hide Written;
    WriteOne(s, kind, before, now, slot, head, row, n, p);
  }

  method WriteKeyVec(s: Shape, cache: array<real>, slot: nat, head: nat, row: seq<real>)
    requires s.isa.VEC? && Writable(s, cache[..], slot, head, row)
    modifies cache
    ensures Written(s, Key, old(cache[..]), cache[..], slot, head, row, s.headDim)
  {
    hide Stored; hide Written; hide Fits; hide ValidSlot;
    var (block, token) := DivMod(slot, s.blockSize);
    var start := block * s.blockStride + head * s.headStride + token;
    NothingWritten(s, Key, cache[..], slot, head, row);
    var j := 0;
    for i := 0 to s.headDim
      invariant Written(s, Key, old(cache[..]), cache[..], slot, head, row, i)
      invariant j == i * s.blockSize
    {
      WriteNext(s, Key, old(cache[..]), cache[..], slot, head, row, i, start + j);
      Put(cache, start + j, row[i]);
      j := j + s.blockSize;
    }
  }

  /** Value pairs: two tokens interleaved across 16 head elements. */
  lemma ValuePair(blockSize: nat, token: nat, i: nat, j: nat)
    requires j < 16
    ensures token / 2 * 2 * 16 + token % 2 + i * (blockSize * 16) + 2 * j
         == (16 * i + j) / 16 * (16 * blockSize) + InTile(PackedPairs, (16 * i + j) % 16, token)
  {
    assert (16 * i + j) / 16 == i && (16 * i + j) % 16 == j;
  }

  /** Where the values of a slot begin. */
  function ValueStart(s: Shape, slot: nat, head: nat): int
    requires ValidShape(s)
  {
    var (block, token) := DivMod(slot, s.blockSize);
    block * s.blockStride + head * s.headStride + (token / 2 * 2 * 16 + token % 2)
  }

  lemma ValuePlace(s: Shape, slot: nat, head: nat, i: nat, j: nat)
    requires ValidShape(s) && s.isa.AMX? && j < 16
    ensures Place(s, Value, slot, head, 16 * i + j) == ValueStart(s, slot, head) + i * (s.blockSize * 16) + 2 * j
  {
    hide InTile; hide DivMod;
    var (block, token) := DivMod(slot, s.blockSize);
    ValuePair(s.blockSize, token, i, j);
  }

  method WriteValueAmx(s: Shape, cache: array<real>, slot: nat, head: nat, row: seq<real>)
    requires s.isa.AMX? && Writable(s, cache[..], slot, head, row)
    modifies cache
    ensures Written(s, Value, old(cache[..]), cache[..], slot, head, row, s.headDim)
  {
    hide Stored; hide Written; hide Fits; hide ValidSlot; hide ValueStart;
    var groups := s.headDim / 16;
    var groupSize := s.blockSize * 16;
    var start := ValueStart(s, slot, head);
    NothingWritten(s, Value, cache[..], slot, head, row);
    for i := 0 to groups
      invariant Written(s, Value, old(cache[..]), cache[..], slot, head, row, 16 * i)
      invariant start == ValueStart(s, slot, head) + i * groupSize
    {
      WriteValueGroup(s, cache, slot, head, row, i, start, old(cache[..]));
      start := start + groupSize;
      assert (i + 1) * groupSize == i * groupSize + groupSize;
    }
  }

  /** Head elements 16i to 16i + 15, two apart. */
  method WriteValueGroup(s: Shape, cache: array<real>, slot: nat, head: nat, row: seq<real>, i: nat, start: int,
                         ghost before: seq<real>)
    requires s.isa.AMX? && Writable(s, before, slot, head, row) && 16 * i + 16 <= s.headDim
    requires start == ValueStart(s, slot, head) + i * (s.blockSize * 16)
    requires Written(s, Value, before, cache[..], slot, head, row, 16 * i)
    modifies cache
    ensures Written(s, Value, before, cache[..], slot, head, row, 16 * i + 16)
  {
    hide Stored; hide Written; hide Fits; hide ValidSlot; hide Place; hide ValueStart;
    for j := 0 to 16
      invariant Written(s, Value, before, cache[..], slot, head, row, 16 * i + j)
    {
      ValuePlace(s, slot, head, i, j);
      WriteNext(s, Value, before, cache[..], slot, head, row, 16 * i + j, start + 2 * j);
      Put(cache, start + 2 * j, row[16 * i + j]);
    }
  }

  method WriteValueVec(s: Shape, cache: array<real>, slot: nat, head: nat, row: seq<real>)
    requires s.isa.VEC? && Writable(s, cache[..], slot, head, row)
    modifies cache
    ensures Written(s, Value, old(cache[..]), cache[..], slot, head, row, s.headDim)
  {
    hide Stored; hide Written; hide Fits; hide ValidSlot;
    var (block, token) := DivMod(slot, s.blockSize);
    var start := block * s.blockStride + head * s.headStride + token * s.headDim;
    NothingWritten(s, Value, cache[..], slot, head, row);
    for d := 0 to s.headDim
      invariant Written(s, Value, old(cache[..]), cache[..], slot, head, row, d)
    {
      WriteNext(s, Value, old(cache[..]), cache[..], slot, head, row, d, start + d);
      Put(cache, start + d, row[d]);
    }
  }

  method WriteRow(s: Shape, kind: Kind, cache: array<real>, slot: nat, head: nat, row: seq<real>)
    requires Writable(s, cache[..], slot, head, row)
    modifies cache
    ensures Written(s, kind, old(cache[..]), cache[..], slot, head, row, s.headDim)
  {
    hide Written; hide Writable;
    match (kind, s.isa) {
      case (Key, AMX) => WriteKeyAmx(s, cache, slot, head, row);
      case (Key, VEC) => WriteKeyVec(s, cache, slot, head, row);
      case (Value, AMX) => WriteValueAmx(s, cache, slot, head, row);
      case (Value, VEC) => WriteValueVec(s, cache, slot, head, row);
    }
  }

  // ----- writing a batch -----

  /** [token, head, element] */
  type Rows = seq<seq<seq<real>>>

  ghost predicate ValidRows(s: Shape, rows: Rows, slots: seq<int>) {
    && |rows| == |slots|
    && (forall t :: 0 <= t < |rows| ==> |rows[t]| == s.heads)
    && (forall t, h :: 0 <= t < |rows| && 0 <= h < |rows[t]| ==> |rows[t][h]| == s.headDim)
    && (forall t :: 0 <= t < |slots| ==> slots[t] < 0 || ValidSlot(s, slots[t]))
  }

  /** The last of the first n tokens mapped to this slot, or -1. */
  function Owner(slots: seq<int>, n: nat, slot: nat): (t: int)
    requires n <= |slots|
    ensures -1 <= t < n && (t >= 0 ==> slots[t] == slot)
    ensures forall i :: t < i < n ==> slots[i] != slot
  {
    if n == 0 then -1 else if slots[n - 1] == slot then n - 1 else Owner(slots, n - 1, slot)
  }

  /** With distinct slots the order of the tokens does not matter. */
  lemma OwnerUnique(slots: seq<int>, t: nat)
    requires t < |slots| && slots[t] >= 0
    requires forall i, j :: 0 <= i < j < |slots| ==> slots[i] != slots[j] || slots[i] < 0
    ensures Owner(slots, |slots|, slots[t]) == t
  {}

  /** The first t tokens, and the first h heads of the next, are in the cache; all else is as before. */
  ghost predicate Cached(s: Shape, kind: Kind, before: seq<real>, now: seq<real>, rows: Rows, slots: seq<int>, t: nat,
                         h: nat)
    requires ValidShape(s) && ValidRows(s, rows, slots) && t <= |slots| && (h > 0 ==> t < |slots|)
  {
    && |now| == |before|
    && forall slot, head, d :: InCache(s, slot, head, d) ==>
         Stored(s, kind, now, slot, head, d)
         == var o := Owner(slots, if head < h then t + 1 else t, slot);
            if o >= 0 then rows[o][head][d] else Stored(s, kind, before, slot, head, d)
  }

  /** The tokens in another order. */
  function Reordered<T>(s: seq<T>, order: seq<nat>): (r: seq<T>)
    requires forall i :: 0 <= i < |order| ==> order[i] < |s|
    ensures |r| == |order|
  {
    seq(|order|, i requires 0 <= i < |order| => s[order[i]])
  }

  /** With distinct slots the order in which the parallel loop gets to the tokens does not matter. */
  lemma OrderIrrelevant(s: Shape, kind: Kind, before: seq<real>, now: seq<real>, now': seq<real>,
                        rows: Rows, slots: seq<int>, order: seq<nat>)
    requires forall i :: 0 <= i < |order| ==> order[i] < |slots|
    requires forall t: nat :: t < |slots| ==> t in order
    requires forall i, j :: 0 <= i < j < |slots| ==> slots[i] != slots[j] || slots[i] < 0
    requires ValidShape(s) && ValidRows(s, rows, slots)
    requires ValidRows(s, Reordered(rows, order), Reordered(slots, order))
    requires Cached(s, kind, before, now, rows, slots, |slots|, 0)
    requires Cached(s, kind, before, now', Reordered(rows, order), Reordered(slots, order), |order|, 0)
    ensures forall slot, head, d :: InCache(s, slot, head, d) ==>
              Stored(s, kind, now, slot, head, d) == Stored(s, kind, now', slot, head, d)
  {
    hide Stored; hide Owner;
    var slots' := Reordered(slots, order);
    forall slot, head, d | InCache(s, slot, head, d)
      ensures Stored(s, kind, now, slot, head, d) == Stored(s, kind, now', slot, head, d)
    {
      var o, o' := Owner(slots, |slots|, slot), Owner(slots', |order|, slot);
      if o >= 0 {
        assert o as nat in order;
        var i :| 0 <= i < |order| && order[i] == o;
        assert slots'[i] == slot;
        assert o' >= 0;
      }
      if o' >= 0 {
        assert slots[order[o']] == slot;
        OwnerUnique(slots, order[o']);
        assert o == order[o'];
      }
    }
  }

  lemma CachedHead(s: Shape, kind: Kind, before: seq<real>, mid: seq<real>, now: seq<real>, rows: Rows,
                   slots: seq<int>, t: nat, h: nat)
    requires ValidShape(s) && ValidRows(s, rows, slots) && t < |slots| && h < s.heads && slots[t] >= 0
    requires Cached(s, kind, before, mid, rows, slots, t, h)
    requires Written(s, kind, mid, now, slots[t], h, rows[t][h], s.headDim)
    ensures Cached(s, kind, before, now, rows, slots, t, h + 1)
  {
    hide Stored;
  }

  lemma CachedToken(s: Shape, kind: Kind, before: seq<real>, now: seq<real>, rows: Rows, slots: seq<int>, t: nat,
                    skipped: bool)
    requires ValidShape(s) && ValidRows(s, rows, slots) && t < |slots| && (skipped ==> slots[t] < 0)
    requires Cached(s, kind, before, now, rows, slots, t, if skipped then 0 else s.heads)
    ensures Cached(s, kind, before, now, rows, slots, t + 1, 0)
  {
    hide Stored;
  }

  lemma CachedNone(s: Shape, kind: Kind, cache: seq<real>, rows: Rows, slots: seq<int>)
    requires ValidShape(s) && ValidRows(s, rows, slots)
    ensures Cached(s, kind, cache, cache, rows, slots, 0, 0)
  {
    hide Stored;
  }

  /** Afterwards a slot of the mapping holds its token's key and value; every other slot is untouched. */
  method ReshapeAndCache(s: Shape, key: Rows, value: Rows, keyCache: array<real>, valueCache: array<real>,
                         slots: seq<int>)
    requires ValidShape(s) && ValidRows(s, key, slots) && ValidRows(s, value, slots)
    requires keyCache != valueCache && Fits(s, keyCache[..]) && Fits(s, valueCache[..])
    modifies keyCache, valueCache
    ensures Cached(s, Key, old(keyCache[..]), keyCache[..], key, slots, |slots|, 0)
    ensures Cached(s, Value, old(valueCache[..]), valueCache[..], value, slots, |slots|, 0)
  {
    hide Cached; hide Written; hide ValidShape;
    CachedNone(s, Key, keyCache[..], key, slots);
    CachedNone(s, Value, valueCache[..], value, slots);
    for t := 0 to |slots|
      invariant Cached(s, Key, old(keyCache[..]), keyCache[..], key, slots, t, 0)
      invariant Cached(s, Value, old(valueCache[..]), valueCache[..], value, slots, t, 0)
    {
      if slots[t] >= 0 {
        for h := 0 to s.heads
          invariant Cached(s, Key, old(keyCache[..]), keyCache[..], key, slots, t, h)
          invariant Cached(s, Value, old(valueCache[..]), valueCache[..], value, slots, t, h)
        {
          ghost var k, v := keyCache[..], valueCache[..];
          WriteRow(s, Key, keyCache, slots[t], h, key[t][h]);
          CachedHead(s, Key, old(keyCache[..]), k, keyCache[..], key, slots, t, h);
          WriteRow(s, Value, valueCache, slots[t], h, value[t][h]);
          CachedHead(s, Value, old(valueCache[..]), v, valueCache[..], value, slots, t, h);
        }
      }
      CachedToken(s, Key, old(keyCache[..]), keyCache[..], key, slots, t, slots[t] < 0);
      CachedToken(s, Value, old(valueCache[..]), valueCache[..], value, slots, t, slots[t] < 0);
    }
  }
}
