/**
  DNNLPrimitiveCache (csrc/cpu/dnnl_helper.cpp) and DNNLScratchPadManager
  (csrc/cpu/scratchpad_manager.cpp): a least-recently-used cache made of a list and a
  map into it, and a scratch buffer that only grows.
 */
module PrimitiveCache {

  // ----- the cache as a value: most recent first -----

  datatype Pair<K, V> = Pair(key: K, value: V)

  function Keys<K, V>(s: seq<Pair<K, V>>): (ks: seq<K>)
    ensures |ks| == |s| && forall i :: 0 <= i < |s| ==> ks[i] == s[i].key
  {
    seq(|s|, i requires 0 <= i < |s| => s[i].key)
  }

  predicate Distinct<T(==)>(s: seq<T>) { forall i, j :: 0 <= i < j < |s| ==> s[i] != s[j] }

  function IndexOf<T(==)>(s: seq<T>, x: T): (i: nat)
    requires x in s
    ensures i < |s| && s[i] == x && x !in s[..i]
  {
    if s[0] == x then 0 else 1 + IndexOf(s[1..], x)
  }

  function Without<T>(s: seq<T>, i: nat): seq<T>
    requires i < |s|
  {
    s[..i] + s[i + 1..]
  }

  /** What get_or_create makes of the cache contents; `made` is what the creator would return. */
  function Touch<K(==), V>(view: seq<Pair<K, V>>, key: K, made: V, capacity: nat): (r: seq<Pair<K, V>>)
    requires capacity > 0
    ensures |r| > 0 && r[0].key == key
  {
    if key in Keys(view) then
      var i := IndexOf(Keys(view), key);
      [view[i]] + Without(view, i)
    else
      [Pair(key, made)] + if |view| >= capacity then view[..capacity - 1] else view
  }

  // ----- the cache as an object -----

  /** A list node; the map holds references (iterators) to these. */
  class Entry<K, V> {
    const key: K
    const value: V

    constructor (key: K, value: V)
      ensures this.key == key && this.value == value
    {
      this.key, this.value := key, value;
    }
  }

  ghost function ViewOf<K, V>(es: seq<Entry<K, V>>): (v: seq<Pair<K, V>>)
    ensures |v| == |es|
  {
    seq(|es|, i requires 0 <= i < |es| => Pair(es[i].key, es[i].value))
  }

  ghost predicate DistinctKeys<K, V>(es: seq<Entry<K, V>>) {
    forall i, j :: 0 <= i < j < |es| ==> es[i].key != es[j].key
  }

  /** The list and the map hold the same nodes, one per key. */
  ghost predicate Linked<K, V>(es: seq<Entry<K, V>>, index: map<K, Entry<K, V>>) {
    && DistinctKeys(es)
    && (forall e :: e in es ==> e.key in index && index[e.key] == e)
    && (forall k :: k in index ==> index[k] in es && index[k].key == k)
  }

  /** Where position `j` of the moved list comes from. */
  ghost function Origin(i: nat, j: nat): nat { if j == 0 then i else if j <= i then j - 1 else j }

  lemma Moved<T>(es: seq<T>, i: nat)
    requires i < |es|
    ensures
      var es' := [es[i]] + Without(es, i);
      && |es'| == |es|
      && (forall j :: 0 <= j < |es| ==> es'[j] == es[Origin(i, j)])
      && (forall e :: e in es' ==> e in es)
      && (forall e :: e in es ==> e in es')
  {
    var es' := [es[i]] + Without(es, i);
    forall j | 0 <= j < |es| ensures es'[if j < i then j + 1 else if j == i then 0 else j] == es[j] {}
  }

  lemma MovedView<K, V>(es: seq<Entry<K, V>>, i: nat)
    requires i < |es|
    ensures ViewOf([es[i]] + Without(es, i)) == [ViewOf(es)[i]] + Without(ViewOf(es), i)
  {
    hide Without;
    Moved(es, i);
    Moved(ViewOf(es), i);
  }

  lemma MoveToFront<K, V>(es: seq<Entry<K, V>>, index: map<K, Entry<K, V>>, i: nat)
    requires Linked(es, index) && i < |es|
    ensures Linked([es[i]] + Without(es, i), index)
  {
    hide Without;
    Moved(es, i);
    var es' := [es[i]] + Without(es, i);
    forall j, k | 0 <= j < k < |es'| ensures es'[j].key != es'[k].key {
      assert Origin(i, j) != Origin(i, k);
    }
  }

  lemma DropLast<K, V>(es: seq<Entry<K, V>>, index: map<K, Entry<K, V>>)
    requires Linked(es, index) && es != []
    ensures Linked(es[..|es| - 1], index - {es[|es| - 1].key})
    ensures ViewOf(es[..|es| - 1]) == ViewOf(es)[..|es| - 1]
  {
    var n := |es| - 1;
    forall k | k in index && k != es[n].key ensures index[k] in es[..n] {
      var j :| 0 <= j < |es| && es[j] == index[k];
      assert es[..n][j] == index[k];
    }
  }

  lemma PushFront<K, V>(es: seq<Entry<K, V>>, index: map<K, Entry<K, V>>, e: Entry<K, V>)
    requires Linked(es, index) && e.key !in index
    ensures Linked([e] + es, index[e.key := e])
    ensures ViewOf([e] + es) == [Pair(e.key, e.value)] + ViewOf(es)
  {}

  lemma IndexedKeys<K, V>(es: seq<Entry<K, V>>, index: map<K, Entry<K, V>>, key: K)
    requires Linked(es, index)
    ensures key in index <==> key in Keys(ViewOf(es))
  {
    if key in index {
      var j :| 0 <= j < |es| && es[j] == index[key];
      assert Keys(ViewOf(es))[j] == key;
    }
    if key in Keys(ViewOf(es)) {
      var j :| 0 <= j < |es| && Keys(ViewOf(es))[j] == key;
      assert es[j] in es;
    }
  }

  lemma KeyPlace<K, V>(es: seq<Entry<K, V>>, i: nat)
    requires DistinctKeys(es) && i < |es|
    ensures es[i].key in Keys(ViewOf(es)) && IndexOf(Keys(ViewOf(es)), es[i].key) == i
  {
    assert Keys(ViewOf(es))[i] == es[i].key;
  }

  class Cache<K(==), V> {
    const capacity: nat
    var values: seq<Entry<K, V>>
    var index: map<K, Entry<K, V>>

    ghost predicate Valid()
      reads this
    {
      capacity > 0 && |values| <= capacity && Linked(values, index)
    }

    ghost function View(): seq<Pair<K, V>>
      reads this
    {
      ViewOf(values)
    }

    constructor (capacity: nat)
      requires capacity > 0
      ensures Valid() && View() == [] && this.capacity == capacity
    {
      this.capacity := capacity;
      values, index := [], map[];
    }

    /** get_value: find the node and move it to the front. */
    method GetValue(key: K) returns (e: Entry?<K, V>)
      requires Valid()
      modifies this`values
      ensures Valid()
      ensures e != null <==> key in Keys(old(View()))
      ensures e == null ==> values == old(values)
      ensures e != null ==>
                var i := IndexOf(Keys(old(View())), key);
                e.value == old(View())[i].value && View() == [old(View())[i]] + Without(old(View()), i)
    {
      hide Linked; hide DistinctKeys; hide ViewOf; hide IndexOf;
      IndexedKeys(values, index, key);
      if |index| > 0 && |values| > 0 && key == values[0].key {
        e := values[0];
        Front(values, index);
      } else if key in index {
        e := index[key];
        var i := NodePlace(values, index, key);
        FoundAt(values, index, i);
        values := [e] + Without(values, i);
      } else {
        e := null;
      }
    }

    /** add_value: drop the last node if the list is full, then push to the front. */
    method AddValue(key: K, value: V) returns (e: Entry<K, V>)
      requires Valid() && key !in Keys(View())
      modifies this
      ensures Valid() && e.value == value
      ensures View() == Touch(old(View()), key, value, capacity)
    {
      hide Linked; hide DistinctKeys; hide ViewOf;
      IndexedKeys(values, index, key);
      if |values| == capacity {
        DropLast(values, index);
        index := index - {values[|values| - 1].key};
        values := values[..|values| - 1];
      }
      e := new Entry<K, V>(key, value);
      PushFront(values, index, e);
      values := [e] + values;
      index := index[key := e];
    }

    /** get_or_create; `made` stands for the value of the creator call, used only on a miss. */
    method GetOrCreate(key: K, made: V) returns (result: V)
      requires Valid()
      modifies this
      ensures Valid()
      ensures View() == Touch(old(View()), key, made, capacity)
      ensures result == View()[0].value
    {
      hide Linked; hide IndexOf;
      var e := GetValue(key);
      if e == null {
        e := AddValue(key, made);
      }
      result := e.value;
    }
  }

  /** The splice target of a map hit; the source reads it off the stored iterator. */
  method NodePlace<K(==), V>(es: seq<Entry<K, V>>, index: map<K, Entry<K, V>>, key: K) returns (i: nat)
    requires Linked(es, index) && key in index
    ensures i < |es| && es[i] == index[key] && es[i].key == key
  {
    i :| 0 <= i < |es| && es[i] == index[key];
  }

  lemma FoundAt<K, V>(es: seq<Entry<K, V>>, index: map<K, Entry<K, V>>, i: nat)
    requires Linked(es, index) && i < |es|
    ensures Linked([es[i]] + Without(es, i), index)
    ensures ViewOf([es[i]] + Without(es, i)) == [ViewOf(es)[i]] + Without(ViewOf(es), i)
    ensures es[i].key in Keys(ViewOf(es)) && IndexOf(Keys(ViewOf(es)), es[i].key) == i
    ensures es[i].value == ViewOf(es)[i].value
  {
    MoveToFront(es, index, i);
    MovedView(es, i);
    KeyPlace(es, i);
  }

  lemma Front<K, V>(es: seq<Entry<K, V>>, index: map<K, Entry<K, V>>)
    requires Linked(es, index) && es != []
    ensures [ViewOf(es)[0]] + Without(ViewOf(es), 0) == ViewOf(es)
    ensures es[0].key in Keys(ViewOf(es)) && IndexOf(Keys(ViewOf(es)), es[0].key) == 0
    ensures es[0].value == ViewOf(es)[0].value
  {
    KeyPlace(es, 0);
  }

  // ----- every run is least-recently-used -----

  /** A run: the key of each call, and what its creator would have made. */
  function Run<K(==), V>(calls: seq<Pair<K, V>>, capacity: nat): seq<Pair<K, V>>
    requires capacity > 0
  {
    if calls == [] then []
    else
      var n := |calls| - 1;
      Touch(Run(calls[..n], capacity), calls[n].key, calls[n].value, capacity)
  }

  /** All keys used so far, each once, by the time of its last use, most recent first. */
  function Recency<K(==)>(keys: seq<K>): (r: seq<K>)
    ensures Distinct(r)
    ensures forall k :: k in r ==> k in keys
    ensures forall k :: k in keys ==> k in r
  {
    if keys == [] then []
    else
      var n := |keys| - 1;
      var r := Recency(keys[..n]);
      var k := keys[n];
      if k in r then
        Moved(r, IndexOf(r, k));
        MovedDistinct(r, IndexOf(r, k));
        [k] + Without(r, IndexOf(r, k))
      else [k] + r
  }

  lemma MovedDistinct<T>(s: seq<T>, i: nat)
    requires i < |s| && Distinct(s)
    ensures Distinct([s[i]] + Without(s, i))
  {
    hide Without;
    Moved(s, i);
    var s' := [s[i]] + Without(s, i);
    forall j, k | 0 <= j < k < |s'| ensures s'[j] != s'[k] {
      assert Origin(i, j) != Origin(i, k);
    }
  }

  function Take<T>(s: seq<T>, n: nat): seq<T> { if |s| <= n then s else s[..n] }

  lemma IndexInPrefix<T>(r: seq<T>, n: nat, x: T)
    requires x in Take(r, n)
    ensures x in r && IndexOf(r, x) == IndexOf(Take(r, n), x)
  {
    var i, j := IndexOf(Take(r, n), x), IndexOf(r, x);
    assert r[i] == x && r[j] == x;
    assert forall k :: 0 <= k < i ==> Take(r, n)[..i][k] == r[k];
    assert forall k :: 0 <= k < j ==> r[..j][k] == r[k];
  }

  lemma TakeMoved<T>(r: seq<T>, i: nat, n: nat)
    requires i < |r| && i < n
    ensures Take([r[i]] + Without(r, i), n) == [r[i]] + Without(Take(r, n), i)
  {}

  lemma TakeLate<T>(r: seq<T>, i: nat, n: nat)
    requires 0 < n <= i < |r|
    ensures Take([r[i]] + Without(r, i), n) == [r[i]] + r[..n - 1]
  {}

  lemma KeysMoved<K, V>(view: seq<Pair<K, V>>, i: nat)
    requires i < |view|
    ensures Keys([view[i]] + Without(view, i)) == [Keys(view)[i]] + Without(Keys(view), i)
  {}

  lemma TouchKeys<K, V>(view: seq<Pair<K, V>>, r: seq<K>, key: K, made: V, capacity: nat)
    requires capacity > 0 && Distinct(r) && Keys(view) == Take(r, capacity)
    ensures
      var r' := if key in r then [key] + Without(r, IndexOf(r, key)) else [key] + r;
      Keys(Touch(view, key, made, capacity)) == Take(r', capacity)
  {
    hide IndexOf; hide Without; hide Distinct;
    if key in Keys(view) {
      IndexInPrefix(r, capacity, key);
      var i := IndexOf(r, key);
      KeysMoved(view, i);
      TakeMoved(r, i, capacity);
    } else {
      assert Keys(Touch(view, key, made, capacity)) == [key] + Take(r, capacity - 1);
      if key in r {
        var i := IndexOf(r, key);
        assert forall k :: 0 <= k < |view| ==> r[k] == Keys(view)[k] && r[k] != key;
        TakeLate(r, i, capacity);
      }
    }
  }

  /** After any run the cache holds exactly the `capacity` most recently used keys, in that order. */
  lemma {:induction false} HoldsMostRecent<K, V>(calls: seq<Pair<K, V>>, capacity: nat)
    requires capacity > 0
    ensures Keys(Run(calls, capacity)) == Take(Recency(Keys(calls)), capacity)
  {
    if calls != [] {
      var n := |calls| - 1;
      HoldsMostRecent(calls[..n], capacity);
      assert Keys(calls)[..n] == Keys(calls[..n]);
      TouchKeys(Run(calls[..n], capacity), Recency(Keys(calls[..n])), calls[n].key, calls[n].value, capacity);
    }
  }

  /** What call `n` of a run returns, told without a list: a hit repeats the last use of the key. */
  function Returned<K(==), V>(calls: seq<Pair<K, V>>, capacity: nat, n: nat): V
    requires capacity > 0 && n < |calls|
    decreases n
  {
    var key := calls[n].key;
    if key in Take(Recency(Keys(calls[..n])), capacity) then
      assert key in Keys(calls[..n]);
      Returned(calls, capacity, LastUse(Keys(calls[..n]), key))
    else calls[n].value
  }

  function LastUse<K(==)>(keys: seq<K>, k: K): (i: nat)
    requires k in keys
    ensures i < |keys| && keys[i] == k && k !in keys[i + 1..]
  {
    var n := |keys| - 1;
    if keys[n] == k then n else
      assert keys == keys[..n] + [keys[n]];
      var i := LastUse(keys[..n], k);
      assert keys[i + 1..] == keys[..n][i + 1..] + [keys[n]];
      i
  }

  lemma {:induction false} ReturnedPrefix<K, V>(calls: seq<Pair<K, V>>, capacity: nat, m: nat, n: nat)
    requires capacity > 0 && n < m <= |calls|
    ensures Returned(calls[..m], capacity, n) == Returned(calls, capacity, n)
    decreases n
  {
    assert calls[..m][..n] == calls[..n];
    var key := calls[n].key;
    if key in Take(Recency(Keys(calls[..n])), capacity) {
      assert key in Keys(calls[..n]);
      ReturnedPrefix(calls, capacity, m, LastUse(Keys(calls[..n]), key));
    }
  }

  /** Every cached value is the one returned when its key was last used. */
  ghost predicate ValuesCurrent<K, V>(calls: seq<Pair<K, V>>, capacity: nat)
    requires capacity > 0
  {
    forall i :: 0 <= i < |Run(calls, capacity)| ==>
      var p := Run(calls, capacity)[i];
      p.key in Keys(calls) && p.value == Returned(calls, capacity, LastUse(Keys(calls), p.key))
  }

  /**
    The run refines the abstract cache: the value get_or_create returns at each call is
    the created one on a miss and the one last returned for the key on a hit, and a call
    hits exactly if its key is among the `capacity` most recently used ones.
   */
  lemma {:induction false} RunRefinesLru<K, V>(calls: seq<Pair<K, V>>, capacity: nat)
    requires capacity > 0
    ensures ValuesCurrent(calls, capacity)
    ensures calls != [] ==> Run(calls, capacity)[0].value == Returned(calls, capacity, |calls| - 1)
  {
    if calls != [] {
      var n := |calls| - 1;
      var before := calls[..n];
      RunRefinesLru(before, capacity);
      HoldsMostRecent(before, capacity);
      CallReturns(calls, capacity);
      forall i | 0 <= i < |Run(calls, capacity)|
        ensures
          var p := Run(calls, capacity)[i];
          p.key in Keys(calls) && p.value == Returned(calls, capacity, LastUse(Keys(calls), p.key))
      {
        KeptValue(calls, capacity, i);
      }
    }
  }

  lemma CallReturns<K, V>(calls: seq<Pair<K, V>>, capacity: nat)
    requires capacity > 0 && calls != [] && ValuesCurrent(calls[..|calls| - 1], capacity)
    requires Keys(Run(calls[..|calls| - 1], capacity)) == Take(Recency(Keys(calls[..|calls| - 1])), capacity)
    ensures Run(calls, capacity)[0].value == Returned(calls, capacity, |calls| - 1)
  {
    hide Recency; hide LastUse; hide IndexOf;
    var n := |calls| - 1;
    var before, key := calls[..n], calls[n].key;
    var view := Run(before, capacity);
    if key in Keys(view) {
      var i := IndexOf(Keys(view), key);
      assert view[i].value == Returned(before, capacity, LastUse(Keys(before), key));
      ReturnedPrefix(calls, capacity, n, LastUse(Keys(before), key));
    }
  }

  lemma LastUseAppend<K>(keys: seq<K>, k: K)
    requires keys != []
    ensures keys[|keys| - 1] == k ==> k in keys && LastUse(keys, k) == |keys| - 1
    ensures keys[|keys| - 1] != k && k in keys[..|keys| - 1] ==>
            k in keys && LastUse(keys, k) == LastUse(keys[..|keys| - 1], k)
  {}

  lemma KeptValue<K, V>(calls: seq<Pair<K, V>>, capacity: nat, i: nat)
    requires capacity > 0 && calls != [] && ValuesCurrent(calls[..|calls| - 1], capacity)
    requires Run(calls, capacity)[0].value == Returned(calls, capacity, |calls| - 1)
    requires Distinct(Keys(Run(calls[..|calls| - 1], capacity))) && i < |Run(calls, capacity)|
    ensures
      var p := Run(calls, capacity)[i];
      p.key in Keys(calls) && p.value == Returned(calls, capacity, LastUse(Keys(calls), p.key))
  {
    hide Recency; hide IndexOf; hide Returned; hide Touch; hide LastUse; hide Run; hide Keys;
    var n := |calls| - 1;
    RunNext(calls, capacity, n);
    assert calls[..n + 1] == calls;
    var before, key, p := calls[..n], calls[n].key, Run(calls, capacity)[i];
    assert Keys(calls)[n] == key && Keys(calls)[..n] == Keys(before);
    LastUseAppend(Keys(calls), p.key);
    if i > 0 {
      var view := Run(before, capacity);
      var j := OlderPlace(view, key, calls[n].value, capacity, i);
      assert view[j] == p;
      ReturnedPrefix(calls, capacity, n, LastUse(Keys(before), p.key));
    }
  }

  lemma OlderPlace<K, V>(view: seq<Pair<K, V>>, key: K, made: V, capacity: nat, i: nat) returns (j: nat)
    requires capacity > 0 && Distinct(Keys(view)) && 0 < i < |Touch(view, key, made, capacity)|
    ensures j < |view| && view[j] == Touch(view, key, made, capacity)[i] && view[j].key != key
  {
    if key in Keys(view) {
      var x := IndexOf(Keys(view), key);
      Moved(view, x);
      j := Origin(x, i);
      assert Keys(view)[j] != Keys(view)[x];
    } else {
      j := i - 1;
      assert Keys(view)[j] != key;
    }
  }

  lemma RunNext<K, V>(calls: seq<Pair<K, V>>, capacity: nat, n: nat)
    requires capacity > 0 && n < |calls|
    ensures Run(calls[..n + 1], capacity) == Touch(Run(calls[..n], capacity), calls[n].key, calls[n].value, capacity)
  {
    assert calls[..n + 1][..n] == calls[..n];
  }

  lemma LastReturned<K, V>(calls: seq<Pair<K, V>>, capacity: nat, n: nat)
    requires capacity > 0 && n < |calls|
    ensures |Run(calls[..n + 1], capacity)| > 0
            && Run(calls[..n + 1], capacity)[0].value == Returned(calls, capacity, n)
  {
    hide Returned; hide Recency; hide LastUse;
    RunRefinesLru(calls[..n + 1], capacity);
    ReturnedPrefix(calls, capacity, n + 1, n);
  }

  /** Any sequence of calls on a new object returns what the abstract cache says. */
  method Replay<K(==), V>(calls: seq<Pair<K, V>>, capacity: nat) returns (results: seq<V>)
    requires capacity > 0
    ensures |results| == |calls|
    ensures forall n :: 0 <= n < |calls| ==> results[n] == Returned(calls, capacity, n)
  {
    hide Returned; hide Linked; hide Touch; hide Run; hide ViewOf;
    var cache := new Cache<K, V>(capacity);
    RunNone<K, V>(capacity);
    results := [];
    for n := 0 to |calls|
      invariant fresh(cache) && cache.Valid() && cache.capacity == capacity
      invariant cache.View() == Run(calls[..n], capacity)
      invariant |results| == n && forall i :: 0 <= i < n ==> results[i] == Returned(calls, capacity, i)
    {
      RunNext(calls, capacity, n);
      LastReturned(calls, capacity, n);
      var result := cache.GetOrCreate(calls[n].key, calls[n].value);
      results := results + [result];
    }
  }

  lemma RunNone<K, V>(capacity: nat)
    requires capacity > 0
    ensures Run<K, V>([], capacity) == []
  {}

  /** The creator is called: the key is not among the most recently used ones. */
  predicate Missed<K(==), V>(calls: seq<Pair<K, V>>, capacity: nat, n: nat)
    requires n < |calls|
  {
    calls[n].key !in Take(Recency(Keys(calls[..n])), capacity)
  }

  /** Call `miss` is the last one up to `n`, for the key of `n`, that missed. */
  ghost predicate IsLastMiss<K, V>(calls: seq<Pair<K, V>>, capacity: nat, n: nat, miss: nat)
    requires n < |calls|
  {
    && miss <= n && calls[miss].key == calls[n].key && Missed(calls, capacity, miss)
    && forall i :: miss < i <= n && calls[i].key == calls[n].key ==> !Missed(calls, capacity, i)
  }

  /** A call returns what the creator made at the last miss of its key. */
  lemma {:induction false} LastMiss<K, V>(calls: seq<Pair<K, V>>, capacity: nat, n: nat) returns (miss: nat)
    requires capacity > 0 && n < |calls|
    ensures IsLastMiss(calls, capacity, n, miss) && Returned(calls, capacity, n) == calls[miss].value
    decreases n
  {
    hide Recency; hide Take;
    if Missed(calls, capacity, n) {
      miss := n;
    } else {
      UsedBefore(calls, capacity, n);
      var keys := Keys(calls[..n]);
      var last := LastUse(keys, calls[n].key);
      miss := LastMiss(calls, capacity, last);
      NotUsedAfter(keys, calls[n].key);
      assert forall i :: last < i < n ==> keys[i] == calls[i].key;
    }
  }

  lemma NotUsedAfter<K>(keys: seq<K>, k: K)
    requires k in keys
    ensures forall i :: LastUse(keys, k) < i < |keys| ==> keys[i] != k
  {
    var last := LastUse(keys, k);
    assert forall i :: last < i < |keys| ==> keys[i] == keys[last + 1..][i - last - 1];
  }

  lemma UsedBefore<K, V>(calls: seq<Pair<K, V>>, capacity: nat, n: nat)
    requires n < |calls| && !Missed(calls, capacity, n)
    ensures calls[n].key in Keys(calls[..n])
  {}

  // ----- the scratchpad singleton -----

  const ALLOCATION_UNIT := 4 * 1024

  function RoundUnits(size: nat): (r: nat)
    ensures size <= r < size + ALLOCATION_UNIT && r % ALLOCATION_UNIT == 0
  {
    ((size + ALLOCATION_UNIT - 1) / ALLOCATION_UNIT) * ALLOCATION_UNIT
  }

  lemma LeastUnits(size: nat, n: nat)
    requires n % ALLOCATION_UNIT == 0 && size <= n
    ensures RoundUnits(size) <= n
  {}

  /** The size after a request. */
  function Grown(size: nat, request: nat): (r: nat)
    ensures r == size || r == RoundUnits(request)
    ensures size <= r && request <= r
  {
    if RoundUnits(request) > size then RoundUnits(request) else size
  }

  class ScratchPadManager {
    var size: nat
    var block: nat  // identity of the buffer; a new one for every allocation

    constructor ()
      ensures size == RoundUnits(ALLOCATION_UNIT * 128)
    {
      size, block := 0, 0;
      new;
      Realloc(ALLOCATION_UNIT * 128);
    }

    method Realloc(request: nat)
      modifies this
      ensures
        var least := RoundUnits(request);
        if least <= old(size) then size == old(size) && block == old(block)
        else size == least && block != old(block)
      ensures size == Grown(old(size), request)
    {
      var rounded := RoundUnits(request);
      if rounded > size {
        block := block + 1;
        size := rounded;
      }
    }
  }
}
