/**
  FlatLogprobs (vllm/logprobs.py): six flat lists that stand for a list of dicts, one
  dict {token id: Logprob} per position.  Dicts are modelled with Python's insertion
  order; list indexing is Python's, negative indices and IndexError included.
 */
module FlatLogprobs {
  import opened Wrappers
  import Powers

  datatype Result<T> = Ok(value: T) | IndexError

  datatype Logprob = Logprob(logprob: real, rank: Option<int>, decoded: Option<string>)

  // ----- dicts -----

  datatype Pair = Pair(token: int, info: Logprob)

  /** A dict as its items in insertion order. */
  type Dict = seq<Pair>

  function Tokens(d: seq<Pair>): (ts: seq<int>)
    ensures |ts| == |d| && forall i :: 0 <= i < |d| ==> ts[i] == d[i].token
  {
    seq(|d|, i requires 0 <= i < |d| => d[i].token)
  }

  ghost predicate IsDict(d: Dict) {
    forall i, j :: 0 <= i < j < |d| ==> d[i].token != d[j].token
  }

  function Find(d: Dict, token: int): (i: nat)
    ensures i <= |d|
    ensures i < |d| ==> d[i].token == token
    ensures forall j :: 0 <= j < i ==> d[j].token != token
  {
    if d == [] then 0 else if d[0].token == token then 0 else 1 + Find(d[1..], token)
  }

  /** d[token] = info: a known key keeps its place, a new one goes to the end. */
  function Assign(d: Dict, p: Pair): Dict {
    var i := Find(d, p.token);
    if i < |d| then d[i := p] else d + [p]
  }

  /** A dict display or comprehension over these items. */
  function FromPairs(ps: seq<Pair>): Dict {
    if ps == [] then [] else Assign(FromPairs(ps[..|ps| - 1]), ps[|ps| - 1])
  }

  /** Building a dict from its own items gives it back. */
  lemma {:induction false} FromOwnItems(d: Dict)
    requires IsDict(d)
    ensures FromPairs(d) == d
  {
    if d != [] {
      var n := |d| - 1;
      FromOwnItems(d[..n]);
      assert d == d[..n] + [d[n]];
    }
  }

  function Lookup(d: Dict, token: int): Option<Logprob> {
    var i := Find(d, token);
    if i < |d| then Some(d[i].info) else None
  }

  /** The info of the last pair with this token. */
  function LastInfo(ps: seq<Pair>, token: int): Option<Logprob> {
    if ps == [] then None
    else if ps[|ps| - 1].token == token then Some(ps[|ps| - 1].info)
    else LastInfo(ps[..|ps| - 1], token)
  }

  /** The tokens without repetitions, each at its first occurrence. */
  function FirstSeen(ts: seq<int>): seq<int> {
    if ts == [] then []
    else
      var n := |ts| - 1;
      var r := FirstSeen(ts[..n]);
      if ts[n] in r then r else r + [ts[n]]
  }

  lemma FindUnique(d: Dict, token: int, i: nat)
    requires i < |d| && d[i].token == token && forall j :: 0 <= j < i ==> d[j].token != token
    ensures Find(d, token) == i
  {}

  lemma AssignLookup(d: Dict, p: Pair, token: int)
    requires IsDict(d)
    ensures IsDict(Assign(d, p))
    ensures Lookup(Assign(d, p), token) == if token == p.token then Some(p.info) else Lookup(d, token)
  {
    hide Find;
    var d', f, i := Assign(d, p), Find(d, p.token), Find(d, token);
    if token == p.token {
      FindUnique(d', token, f);
    } else if i < |d| {
      FindUnique(d', token, i);
    } else {
      assert forall j :: 0 <= j < |d'| ==> d'[j].token != token;
    }
  }

  /** A repeated token keeps its first place and its last info; nothing is lost. */
  lemma {:induction false} LastWins(ps: seq<Pair>, token: int)
    ensures IsDict(FromPairs(ps))
    ensures Lookup(FromPairs(ps), token) == LastInfo(ps, token)
    ensures Tokens(FromPairs(ps)) == FirstSeen(Tokens(ps))
  {
    if ps != [] {
      var n := |ps| - 1;
      var d, p := FromPairs(ps[..n]), ps[n];
      LastWins(ps[..n], token);
      AssignLookup(d, p, token);
      assert Tokens(ps)[..n] == Tokens(ps[..n]);
      var f := Find(d, p.token);
      if f < |d| {
        assert Tokens(d)[f] == p.token;
        assert Tokens(Assign(d, p)) == Tokens(d);
      } else {
        assert Tokens(Assign(d, p)) == Tokens(d) + [p.token];
      }
    }
  }

  // ----- the six lists -----

  datatype Flat = Flat(starts: seq<int>, ends: seq<int>, tokens: seq<int>, logprobs: seq<real>,
                       ranks: seq<Option<int>>, decoded: seq<Option<string>>)

  /** list[i]: negative indices count from the end. */
  function At<T>(s: seq<T>, i: int): Result<T> {
    if 0 <= i < |s| then Ok(s[i]) else if -|s| <= i < 0 then Ok(s[|s| + i]) else IndexError
  }

  function EntryAt(f: Flat, i: int): Result<Pair> {
    match (At(f.tokens, i), At(f.logprobs, i), At(f.ranks, i), At(f.decoded, i))
    case (Ok(t), Ok(l), Ok(r), Ok(d)) => Ok(Pair(t, Logprob(l, r, d)))
    case _ => IndexError
  }

  /** The items of range(from, until); an IndexError anywhere is the result of the whole. */
  function Entries(f: Flat, from: int, until: int): Result<seq<Pair>>
    decreases until - from
  {
    if from >= until then Ok([])
    else
      match (Entries(f, from, until - 1), EntryAt(f, until - 1))
      case (Ok(ps), Ok(p)) => Ok(ps + [p])
      case _ => IndexError
  }

  function ReadRange(f: Flat, from: int, until: int): Result<Dict> {
    match Entries(f, from, until)
    case Ok(ps) => Ok(FromPairs(ps))
    case IndexError => IndexError
  }

  /** self[index] for an int. */
  function GetItem(f: Flat, index: int): Result<Dict> {
    match (At(f.starts, index), At(f.ends, index))
    case (Ok(s), Ok(e)) => ReadRange(f, s, e)
    case _ => IndexError
  }

  /** Lists of equal length, and position ranges in order, possibly with gaps between them. */
  ghost predicate ValidFlat(f: Flat) {
    var n := |f.tokens|;
    && EvenLists(f)
    && |f.starts| == |f.ends|
    && (forall i :: 0 <= i < |f.starts| ==> 0 <= f.starts[i] <= f.ends[i] <= n)
    && (forall i :: 0 <= i < |f.starts| - 1 ==> f.ends[i] <= f.starts[i + 1])
  }

  function PairAt(f: Flat, i: nat): Pair
    requires i < |f.tokens| && i < |f.logprobs| && i < |f.ranks| && i < |f.decoded|
  {
    Pair(f.tokens[i], Logprob(f.logprobs[i], f.ranks[i], f.decoded[i]))
  }

  ghost predicate EvenLists(f: Flat) { |f.tokens| == |f.logprobs| == |f.ranks| == |f.decoded| }

  /** The four data lists as one. */
  ghost function All(f: Flat): (ps: seq<Pair>)
    requires EvenLists(f)
    ensures |ps| == |f.tokens|
  {
    seq(|f.tokens|, i requires 0 <= i < |f.tokens| => PairAt(f, i))
  }

  /** The list of dicts the flat lists stand for. */
  ghost function View(f: Flat): (v: seq<Dict>)
    requires ValidFlat(f)
    ensures |v| == |f.starts|
  {
    seq(|f.starts|, i requires 0 <= i < |f.starts| => FromPairs(All(f)[f.starts[i]..f.ends[i]]))
  }

  lemma {:induction false} EntriesInside(f: Flat, from: nat, until: nat)
    requires EvenLists(f) && from <= until <= |f.tokens|
    ensures Entries(f, from, until) == Ok(All(f)[from..until])
    decreases until - from
  {
    if from < until {
      EntriesInside(f, from, until - 1);
      assert All(f)[from..until] == All(f)[from..until - 1] + [PairAt(f, until - 1)];
    } else {
      assert All(f)[from..until] == [];
    }
  }

  /** Indexing agrees with indexing the list of dicts, for every int. */
  lemma GetItemIsView(f: Flat, index: int)
    requires ValidFlat(f)
    ensures GetItem(f, index) == At(View(f), index)
  {
    var n := |f.starts|;
    var i := if index < 0 then n + index else index;
    if 0 <= i < n { EntriesInside(f, f.starts[i], f.ends[i]); }
  }

  // ----- appending -----

  /** What append and append_fast do: a new position holding `ps`. */
  function Appended(f: Flat, ps: seq<Pair>): Flat {
    Flat(f.starts + [|f.logprobs|], f.ends + [|f.logprobs| + |ps|],
         f.tokens + Tokens(ps),
         f.logprobs + seq(|ps|, i requires 0 <= i < |ps| => ps[i].info.logprob),
         f.ranks + seq(|ps|, i requires 0 <= i < |ps| => ps[i].info.rank),
         f.decoded + seq(|ps|, i requires 0 <= i < |ps| => ps[i].info.decoded))
  }

  lemma AppendedAll(f: Flat, ps: seq<Pair>)
    requires EvenLists(f)
    ensures EvenLists(Appended(f, ps)) && All(Appended(f, ps)) == All(f) + ps
  {
    var g, n := Appended(f, ps), |f.tokens|;
    forall i | 0 <= i < n + |ps| ensures All(g)[i] == (All(f) + ps)[i] {
      if i >= n { assert PairAt(g, i) == ps[i - n]; } else { assert PairAt(g, i) == PairAt(f, i); }
    }
  }

  /** Appending adds one dict to the view and leaves the others alone, gaps or not. */
  lemma AppendedView(f: Flat, ps: seq<Pair>)
    requires ValidFlat(f)
    ensures ValidFlat(Appended(f, ps))
    ensures View(Appended(f, ps)) == View(f) + [FromPairs(ps)]
  {
    hide FromPairs; hide All;
    var g, n := Appended(f, ps), |f.tokens|;
    AppendedAll(f, ps);
    assert (All(f) + ps)[n..n + |ps|] == ps;
    forall i | 0 <= i < |f.starts| ensures All(g)[f.starts[i]..f.ends[i]] == All(f)[f.starts[i]..f.ends[i]] {}
    forall i | 0 <= i < |View(g)| ensures View(g)[i] == (View(f) + [FromPairs(ps)])[i] {}
  }

  // ----- slicing -----

  datatype Slice = Slice(start: Option<int>, stop: Option<int>, step: int)

  /** slice.indices for a list of length n: the positions s selects, in order. */
  function Clamp(x: int, lo: int, hi: int): int { if x < lo then lo else if x > hi then hi else x }

  function Bound(x: Option<int>, default: int, n: nat, lo: int, hi: int): int {
    match x
    case None => default
    case Some(v) => Clamp(if v < 0 then v + n else v, lo, hi)
  }

  function From(s: Slice, n: nat): int {
    if s.step > 0 then Bound(s.start, 0, n, 0, n) else Bound(s.start, n - 1, n, -1, n - 1)
  }

  function Until(s: Slice, n: nat): int {
    if s.step > 0 then Bound(s.stop, n, n, 0, n) else Bound(s.stop, -1, n, -1, n - 1)
  }

  function Walk(from: int, until: int, step: int): seq<int>
    requires step != 0
    decreases if step > 0 then until - from else from - until
  {
    if (step > 0 && from < until) || (step < 0 && from > until) then [from] + Walk(from + step, until, step) else []
  }

  function Selected(s: Slice, n: nat): seq<int>
    requires s.step != 0
  {
    Walk(From(s, n), Until(s, n), s.step)
  }

  ghost predicate Positions(ps: seq<int>, n: nat) { forall i :: 0 <= i < |ps| ==> 0 <= ps[i] < n }

  ghost predicate Ascending(ps: seq<int>) { forall i, j :: 0 <= i < j < |ps| ==> ps[i] < ps[j] }

  ghost predicate Descending(ps: seq<int>) { forall i, j :: 0 <= i < j < |ps| ==> ps[i] > ps[j] }

  lemma {:induction false} WalkOrder(from: int, until: int, step: int, lo: int, hi: int)
    requires step != 0
    requires if step > 0 then lo <= from && until <= hi else from < hi && lo - 1 <= until
    ensures forall i :: 0 <= i < |Walk(from, until, step)| ==> lo <= Walk(from, until, step)[i] < hi
    ensures step > 0 ==> Ascending(Walk(from, until, step)) && forall i :: 0 <= i < |Walk(from, until, step)| ==>
            from <= Walk(from, until, step)[i]
    ensures step < 0 ==> Descending(Walk(from, until, step)) && forall i :: 0 <= i < |Walk(from, until, step)| ==>
            Walk(from, until, step)[i] <= from
    decreases if step > 0 then until - from else from - until
  {
    if (step > 0 && from < until) || (step < 0 && from > until) {
      WalkOrder(from + step, until, step, lo, hi);
    }
  }

  lemma SelectedOrder(s: Slice, n: nat)
    requires s.step != 0
    ensures Positions(Selected(s, n), n)
    ensures s.step > 0 ==> Ascending(Selected(s, n))
    ensures s.step < 0 ==> Descending(Selected(s, n))
  {
    WalkOrder(From(s, n), Until(s, n), s.step, 0, n);
  }

  lemma Steps(distance: nat, step: nat)
    requires step > 0
    ensures distance % step == 0 <==> distance == 0 || (distance >= step && (distance - step) % step == 0)
  {
    Powers.Quotients(distance, step);
    if distance >= step {
      Powers.Distribute(distance / step, -1, step);
      Powers.DivUnique(distance - step, step, distance / step - 1, distance % step);
    } else {
      Powers.DivUnique(distance, step, 0, distance);
    }
  }

  lemma {:induction false} WalkMembers(from: int, until: int, step: int, p: int)
    requires step != 0
    ensures p in Walk(from, until, step) <==>
            if step > 0 then from <= p < until && (p - from) % step == 0
            else from >= p > until && (from - p) % -step == 0
    decreases if step > 0 then until - from else from - until
  {
    if step > 0 && from < until {
      WalkMembers(from + step, until, step, p);
      if from <= p { Steps(p - from, step); }
    }
    if step < 0 && from > until {
      WalkMembers(from + step, until, step, p);
      if p <= from { Steps(from - p, -step); }
    }
  }

  /**
    Which positions f[start:stop:step] selects: a negative bound counts from the end, a bound beyond the
    list is cut off, and only every step-th position from the first one on is taken.
   */
  lemma SelectedIff(s: Slice, n: nat, p: int)
    requires s.step != 0
    ensures
      var start :=
        match s.start
        case None => if s.step > 0 then 0 else n - 1
        case Some(v) => if v < 0 then n + v else v;
      p in Selected(s, n) <==>
        && 0 <= p < n
        && (if s.step > 0 then start <= p else p <= start)
        && (s.stop.Some? ==>
              var stop := if s.stop.value < 0 then n + s.stop.value else s.stop.value;
              if s.step > 0 then p < stop else stop < p)
        && (if s.step > 0 then (p - (if start < 0 then 0 else start)) % s.step == 0
            else ((if start > n - 1 then n - 1 else start) - p) % -s.step == 0)
  {
    WalkMembers(From(s, n), Until(s, n), s.step, p);
  }

  /** list[lo:hi] for non-negative bounds within the list. */
  function Cut<T>(xs: seq<T>, lo: nat, hi: nat): seq<T>
    requires lo <= |xs| && hi <= |xs|
  {
    if lo < hi then xs[lo..hi] else []
  }

  function Pick<T>(xs: seq<T>, ps: seq<int>): (r: seq<T>)
    requires forall i :: 0 <= i < |ps| ==> 0 <= ps[i] < |xs|
    ensures |r| == |ps|
  {
    seq(|ps|, i requires 0 <= i < |ps| => xs[ps[i]])
  }

  /** self[slice] for the selected positions; an empty selection raises IndexError. */
  ghost function Sliced(f: Flat, ps: seq<int>): Result<Flat>
    requires ValidFlat(f) && Positions(ps, |f.starts|)
  {
    if ps == [] then IndexError
    else
      var (lo, hi) := (f.starts[ps[0]], f.ends[ps[|ps| - 1]]);
      Ok(Flat(seq(|ps|, i requires 0 <= i < |ps| => f.starts[ps[i]] - lo),
              seq(|ps|, i requires 0 <= i < |ps| => f.ends[ps[i]] - lo),
              Cut(f.tokens, lo, hi), Cut(f.logprobs, lo, hi), Cut(f.ranks, lo, hi), Cut(f.decoded, lo, hi)))
  }

  lemma {:induction false} PositionsOrdered(f: Flat, i: nat, j: nat)
    requires ValidFlat(f) && i < j < |f.starts|
    ensures f.ends[i] <= f.starts[j]
    decreases j
  {
    if i + 1 < j { PositionsOrdered(f, i, j - 1); }
    assert f.ends[j - 1] <= f.starts[(j - 1) + 1];
  }

  lemma SliceWindow(f: Flat, ps: seq<int>, i: nat)
    requires ValidFlat(f) && Positions(ps, |f.starts|) && Ascending(ps) && i < |ps|
    ensures f.starts[ps[0]] <= f.starts[ps[i]] <= f.ends[ps[i]] <= f.ends[ps[|ps| - 1]]
    ensures i + 1 < |ps| ==> f.ends[ps[i]] <= f.starts[ps[i + 1]]
  {
    if i > 0 { PositionsOrdered(f, ps[0], ps[i]); }
    if i + 1 < |ps| {
      PositionsOrdered(f, ps[i], ps[|ps| - 1]);
      PositionsOrdered(f, ps[i], ps[i + 1]);
    }
  }

  /** Cutting the four data lists alike cuts the list of pairs. */
  lemma CutAll(f: Flat, g: Flat, lo: nat, hi: nat)
    requires EvenLists(f) && lo <= hi <= |f.tokens|
    requires g.tokens == f.tokens[lo..hi] && g.logprobs == f.logprobs[lo..hi]
    requires g.ranks == f.ranks[lo..hi] && g.decoded == f.decoded[lo..hi]
    ensures EvenLists(g) && All(g) == All(f)[lo..hi]
  {
    forall i | 0 <= i < hi - lo ensures All(g)[i] == All(f)[lo..hi][i] {
      assert PairAt(g, i) == PairAt(f, lo + i);
    }
  }

  lemma SliceValid(f: Flat, ps: seq<int>)
    requires ValidFlat(f) && Positions(ps, |f.starts|) && Ascending(ps) && ps != []
    ensures Sliced(f, ps).Ok? && ValidFlat(Sliced(f, ps).value)
    ensures
      var g := Sliced(f, ps).value;
      var lo, hi := f.starts[ps[0]], f.ends[ps[|ps| - 1]];
      lo <= hi && All(g) == All(f)[lo..hi]
  {
    hide Ascending; hide All;
    var g, lo, hi := Sliced(f, ps).value, f.starts[ps[0]], f.ends[ps[|ps| - 1]];
    SliceWindow(f, ps, 0);
    CutAll(f, g, lo, hi);
    forall i | 0 <= i < |ps|
      ensures 0 <= g.starts[i] <= g.ends[i] <= |g.tokens|
      ensures i < |ps| - 1 ==> g.ends[i] <= g.starts[i + 1]
    {
      SliceWindow(f, ps, i);
    }
  }

  lemma CutOfCut<T>(xs: seq<T>, lo: nat, hi: nat, a: nat, b: nat)
    requires lo <= a <= b <= hi <= |xs|
    ensures xs[lo..hi][a - lo..b - lo] == xs[a..b]
  {
    var cut := xs[lo..hi];
    assert forall k :: 0 <= k < b - a ==> cut[a - lo..b - lo][k] == cut[a - lo + k] == xs[a + k] == xs[a..b][k];
  }

  /** A slice taken in ascending order is a valid container of exactly the selected dicts. */
  lemma AscendingSlice(f: Flat, ps: seq<int>)
    requires ValidFlat(f) && Positions(ps, |f.starts|) && Ascending(ps) && ps != []
    ensures Sliced(f, ps).Ok? && ValidFlat(Sliced(f, ps).value)
    ensures View(Sliced(f, ps).value) == Pick(View(f), ps)
  {
    hide Ascending; hide FromPairs; hide All; hide Cut;
    SliceValid(f, ps);
    var g, lo, hi := Sliced(f, ps).value, f.starts[ps[0]], f.ends[ps[|ps| - 1]];
    forall i | 0 <= i < |ps| ensures View(g)[i] == Pick(View(f), ps)[i] {
      SliceWindow(f, ps, i);
      CutOfCut(All(f), lo, hi, f.starts[ps[i]], f.ends[ps[i]]);
    }
  }

  /** Reading every position of a container back with self[i]. */
  ghost predicate ReadsAs(g: Flat, ds: seq<Dict>) {
    |g.starts| == |ds| && forall i :: 0 <= i < |ds| ==> GetItem(g, i) == Ok(ds[i])
  }

  lemma NothingToRead(g: Flat, from: int, until: int)
    requires g.tokens == []
    ensures ReadRange(g, from, until) == if from < until then IndexError else Ok([])
  {}

  /** A descending slice of several positions cuts the flat lists to nothing. */
  lemma DescendingSlice(f: Flat, ps: seq<int>, i: nat)
    requires ValidFlat(f) && Positions(ps, |f.starts|) && Descending(ps) && |ps| > 1 && i < |ps|
    ensures GetItem(Sliced(f, ps).value, i)
            == if f.starts[ps[i]] < f.ends[ps[i]] then IndexError else Ok(View(f)[ps[i]])
  {
    hide ReadRange; hide All;
    var g := Sliced(f, ps).value;
    PositionsOrdered(f, ps[|ps| - 1], ps[0]);
    assert g.tokens == [];
    NothingToRead(g, g.starts[i], g.ends[i]);
    if f.starts[ps[i]] == f.ends[ps[i]] { assert All(f)[f.starts[ps[i]]..f.ends[ps[i]]] == []; }
  }

  lemma SliceLength(f: Flat, ps: seq<int>)
    requires ValidFlat(f) && Positions(ps, |f.starts|) && ps != []
    ensures Sliced(f, ps).Ok? && |Sliced(f, ps).value.starts| == |ps|
  {}

  lemma NonEmptySlice(f: Flat, s: Slice)
    requires ValidFlat(f) && s.step != 0 && Selected(s, |f.starts|) != []
    ensures Positions(Selected(s, |f.starts|), |f.starts|)
    ensures
      var ps := Selected(s, |f.starts|);
      ReadsAs(Sliced(f, ps).value, Pick(View(f), ps))
      <==> s.step > 0 || |ps| == 1 || forall i :: 0 <= i < |ps| ==> f.starts[ps[i]] == f.ends[ps[i]]
  {
    hide ReadRange; hide All; hide Sliced; hide Selected; hide GetItem; hide View;
    var ps := Selected(s, |f.starts|);
    SelectedOrder(s, |f.starts|);
    SliceLength(f, ps);
    var g := Sliced(f, ps).value;
    if s.step > 0 || |ps| == 1 {
      AscendingSlice(f, ps);
      forall i | 0 <= i < |ps| ensures GetItem(g, i) == Ok(Pick(View(f), ps)[i]) { GetItemIsView(g, i); }
    } else {
      forall i | 0 <= i < |ps|
        ensures GetItem(g, i) == if f.starts[ps[i]] < f.ends[ps[i]] then IndexError else Ok(View(f)[ps[i]])
      {
        DescendingSlice(f, ps, i);
      }
      if i :| 0 <= i < |ps| && f.starts[ps[i]] != f.ends[ps[i]] {
        assert GetItem(g, i) == IndexError;
      }
    }
  }

  /**
    A slice reads back as the selected dicts exactly if it selects something, and the step
    is positive, or one position is selected, or all selected positions are empty.  (An
    empty selection raises IndexError; a descending slice of several positions cuts the
    flat lists to nothing.)
   */
  lemma SliceReadsBack(f: Flat, s: Slice)
    requires ValidFlat(f) && s.step != 0
    ensures Positions(Selected(s, |f.starts|), |f.starts|)
    ensures
      var ps := Selected(s, |f.starts|);
      Sliced(f, ps).Ok? && ReadsAs(Sliced(f, ps).value, Pick(View(f), ps))
      <==> ps != [] && (s.step > 0 || |ps| == 1 || forall i :: 0 <= i < |ps| ==> f.starts[ps[i]] == f.ends[ps[i]])
  {
    SelectedOrder(s, |f.starts|);
    if Selected(s, |f.starts|) != [] { NonEmptySlice(f, s); }
  }

  /** f[0:0] raises IndexError, where a list gives an empty list. */
  lemma EmptySlice(f: Flat)
    requires ValidFlat(f)
    ensures Selected(Slice(Some(0), Some(0), 1), |f.starts|) == [] && Sliced(f, []) == IndexError
  {}

  // ----- the container object -----

  function Items(d: Option<Dict>): Dict { if d.Some? then d.value else [] }

  /** zip(token_ids, logprobs, ranks, decoded_tokens): as long as the shortest. */
  function Zip(tokens: seq<int>, logprobs: seq<real>, ranks: seq<Option<int>>,
               decoded: seq<Option<string>>): seq<Pair> {
    var n := Powers.Least(|tokens|, Powers.Least(|logprobs|, Powers.Least(|ranks|, |decoded|)));
    seq(n, i requires 0 <= i < n => Pair(tokens[i], Logprob(logprobs[i], ranks[i], decoded[i])))
  }

  class Container {
    var starts: seq<int>
    var ends: seq<int>
    var tokens: seq<int>
    var logprobs: seq<real>
    var ranks: seq<Option<int>>
    var decoded: seq<Option<string>>

    function Data(): Flat
      reads this
    {
      Flat(starts, ends, tokens, logprobs, ranks, decoded)
    }

    ghost predicate Valid()
      reads this
    {
      ValidFlat(Data())
    }

    constructor (f: Flat)
      requires ValidFlat(f)
      ensures Valid() && Data() == f
    {
      starts, ends, tokens, logprobs, ranks, decoded := f.starts, f.ends, f.tokens, f.logprobs, f.ranks, f.decoded;
    }

    /** Append one position; both append and append_fast push entry by entry. */
    method PushAll(ps: seq<Pair>)
      requires Valid()
      modifies this
      ensures Data() == Appended(old(Data()), ps)
      ensures Valid() && View(Data()) == old(View(Data())) + [FromPairs(ps)]
    {
      AppendedView(Data(), ps);
      ghost var f := Data();
      starts := starts + [|logprobs|];
      for i := 0 to |ps|
        invariant starts == f.starts + [|f.logprobs|] && ends == f.ends
        invariant Appended(f, ps[..i]) == Data().(starts := starts, ends := f.ends + [|f.logprobs| + i])
      {
        PushOne(f, ps, i);
        tokens := tokens + [ps[i].token];
        logprobs := logprobs + [ps[i].info.logprob];
        ranks := ranks + [ps[i].info.rank];
        decoded := decoded + [ps[i].info.decoded];
      }
      assert ps[..|ps|] == ps;
      ends := ends + [|logprobs|];
    }

    method Append(d: Option<Dict>)
      requires Valid() && IsDict(Items(d))
      modifies this
      ensures Valid() && View(Data()) == old(View(Data())) + [Items(d)]
    {
      FromOwnItems(Items(d));
      PushAll(Items(d));
    }

    method AppendFast(ts: seq<int>, ls: seq<real>, rs: seq<Option<int>>, ds: seq<Option<string>>)
      requires Valid()
      modifies this
      ensures Valid() && View(Data()) == old(View(Data())) + [FromPairs(Zip(ts, ls, rs, ds))]
    {
      PushAll(Zip(ts, ls, rs, ds));
    }

    method Extend(ds: seq<Option<Dict>>)
      requires Valid() && forall i :: 0 <= i < |ds| ==> IsDict(Items(ds[i]))
      modifies this
      ensures Valid()
      ensures View(Data()) == old(View(Data())) + seq(|ds|, i requires 0 <= i < |ds| => Items(ds[i]))
    {
      ghost var v, all := View(Data()), seq(|ds|, i requires 0 <= i < |ds| => Items(ds[i]));
      assert v + all[..0] == v;
      for k := 0 to |ds|
        invariant Valid() && View(Data()) == v + all[..k]
      {
        Append(ds[k]);
        assert v + all[..k + 1] == v + all[..k] + [Items(ds[k])];
      }
      assert all[..|ds|] == all;
    }

    /** __iter__: the positions in order. */
    method Iterate() returns (v: seq<Dict>)
      requires Valid()
      ensures v == View(Data())
    {
      v := [];
      for i := 0 to |starts|
        invariant v == View(Data())[..i]
      {
        GetItemIsView(Data(), i);
        var d := GetItem(Data(), i);
        v := v + [d.value];
      }
    }
  }

  lemma PushOne(f: Flat, ps: seq<Pair>, i: nat)
    requires i < |ps|
    ensures
      var a, b := Appended(f, ps[..i]), Appended(f, ps[..i + 1]);
      && b.tokens == a.tokens + [ps[i].token] && b.logprobs == a.logprobs + [ps[i].info.logprob]
      && b.ranks == a.ranks + [ps[i].info.rank] && b.decoded == a.decoded + [ps[i].info.decoded]
      && b.starts == a.starts && b.ends == f.ends + [|f.logprobs| + i + 1]
  {}

  // ----- every run -----

  datatype Op =
    | OpAppend(dict: Option<Dict>)
    | OpAppendFast(tokens: seq<int>, logprobs: seq<real>, ranks: seq<Option<int>>, decoded: seq<Option<string>>)
    | OpSlice(slice: Slice)

  /** The operation on a plain list of dicts. */
  ghost function OnList(v: seq<Dict>, op: Op): seq<Dict>
    requires op.OpSlice? ==> op.slice.step != 0
  {
    match op
    case OpAppend(d) => v + [Items(d)]
    case OpAppendFast(ts, ls, rs, ds) => v + [FromPairs(Zip(ts, ls, rs, ds))]
    case OpSlice(s) =>
      SelectedOrder(s, |v|);
      Pick(v, Selected(s, |v|))
  }

  ghost predicate Allowed(op: Op, n: nat) {
    match op
    case OpAppend(d) => IsDict(Items(d))
    case OpAppendFast(_, _, _, _) => true
    case OpSlice(s) => s.step > 0 && Selected(s, n) != []
  }

  ghost function OnFlat(f: Flat, op: Op): Flat
    requires ValidFlat(f) && Allowed(op, |f.starts|)
  {
    match op
    case OpAppend(d) => Appended(f, Items(d))
    case OpAppendFast(ts, ls, rs, ds) => Appended(f, Zip(ts, ls, rs, ds))
    case OpSlice(s) =>
      SelectedOrder(s, |f.starts|);
      Sliced(f, Selected(s, |f.starts|)).value
  }

  lemma OpRefines(f: Flat, op: Op)
    requires ValidFlat(f) && Allowed(op, |f.starts|)
    ensures ValidFlat(OnFlat(f, op)) && View(OnFlat(f, op)) == OnList(View(f), op)
  {
    match op
    case OpAppend(d) =>
      FromOwnItems(Items(d));
      AppendedView(f, Items(d));
    case OpAppendFast(ts, ls, rs, ds) =>
      AppendedView(f, Zip(ts, ls, rs, ds));
    case OpSlice(s) =>
      SelectedOrder(s, |f.starts|);
      AscendingSlice(f, Selected(s, |f.starts|));
  }

  /** The list of dicts after a run, as long as every operation is allowed where it happens. */
  ghost predicate RunAllowed(v: seq<Dict>, ops: seq<Op>)
    decreases |ops|
  {
    ops == [] || (Allowed(ops[0], |v|) && RunAllowed(OnList(v, ops[0]), ops[1..]))
  }

  ghost function RunList(v: seq<Dict>, ops: seq<Op>): seq<Dict>
    requires RunAllowed(v, ops)
    decreases |ops|
  {
    if ops == [] then v else RunList(OnList(v, ops[0]), ops[1..])
  }

  ghost function RunFlat(f: Flat, ops: seq<Op>): Flat
    requires ValidFlat(f) && RunAllowed(View(f), ops)
    decreases |ops|
  {
    if ops == [] then f
    else
      OpRefines(f, ops[0]);
      RunFlat(OnFlat(f, ops[0]), ops[1..])
  }

  /** Over every run, appends after gapped slices included, the container behaves as the list. */
  lemma {:induction false} RunRefinesList(f: Flat, ops: seq<Op>)
    requires ValidFlat(f) && RunAllowed(View(f), ops)
    ensures ValidFlat(RunFlat(f, ops)) && View(RunFlat(f, ops)) == RunList(View(f), ops)
    decreases |ops|
  {
    if ops != [] {
      OpRefines(f, ops[0]);
      RunRefinesList(OnFlat(f, ops[0]), ops[1..]);
    }
  }

  // ----- append_logprobs_for_next_position -----

  /** chain((rank,), range(1, num_logprobs + 1)), with -1 meaning one rank per logprob; the range may be empty. */
  function Ranks(rank: int, num: int, logprobs: nat): seq<Option<int>> {
    var n := if num == -1 then logprobs else if num < 0 then 0 else num;
    [Some(rank)] + seq(n, i requires 0 <= i < n => Some(1 + i))
  }

  /** The dict the list path appends. */
  function NextPosition(ts: seq<int>, ls: seq<real>, ds: seq<Option<string>>, rank: int, num: int): Dict {
    FromPairs(Zip(ts, ls, Ranks(rank, num, |ls|), ds))
  }

  /** Pairs at a position: as many as every list has, the sampled token and `num` more, or all for -1. */
  function Count(ts: seq<int>, ls: seq<real>, ds: seq<Option<string>>, num: int): nat {
    var shortest := Powers.Least(|ts|, Powers.Least(|ls|, |ds|));
    if num == -1 then shortest else if num < 0 then Powers.Least(shortest, 1) else Powers.Least(shortest, 1 + num)
  }

  /**
    The dict of a position, key by key: the tokens of the first `Count` places, each with log
    probability and text of its last place there, and as rank that place, or the vocabulary rank at
    place 0.  Where no token repeats, the items stand in this order.
   */
  ghost predicate Describes(d: Dict, ts: seq<int>, ls: seq<real>, ds: seq<Option<string>>, rank: int, num: int) {
    var n := Count(ts, ls, ds, num);
    && n <= |ts| && n <= |ls| && n <= |ds| && IsDict(d)
    && (forall i :: 0 <= i < |d| ==> d[i].token in ts[..n])
    && (forall j :: 0 <= j < n && ts[j] !in ts[j + 1..n] ==>
          Lookup(d, ts[j]) == Some(Logprob(ls[j], Some(if j == 0 then rank else j), ds[j])))
    && ((forall i, j :: 0 <= i < j < n ==> ts[i] != ts[j]) ==>
          && |d| == n
          && forall j :: 0 <= j < n ==>
               d[j] == Pair(ts[j], Logprob(ls[j], Some(if j == 0 then rank else j), ds[j])))
  }

  lemma ZipIs(ts: seq<int>, ls: seq<real>, ds: seq<Option<string>>, rank: int, num: int)
    ensures
      var ps, n := Zip(ts, ls, Ranks(rank, num, |ls|), ds), Count(ts, ls, ds, num);
      && |ps| == n <= |ts| && n <= |ls| && n <= |ds|
      && forall j :: 0 <= j < n ==> ps[j] == Pair(ts[j], Logprob(ls[j], Some(if j == 0 then rank else j), ds[j]))
  {}

  lemma {:induction false} FirstSeenMembers(ts: seq<int>)
    ensures forall t :: t in FirstSeen(ts) <==> t in ts
  {
    if ts != [] {
      FirstSeenMembers(ts[..|ts| - 1]);
      assert ts == ts[..|ts| - 1] + [ts[|ts| - 1]];
    }
  }

  lemma LastOfToken(ps: seq<Pair>, j: nat)
    requires j < |ps| && ps[j].token !in Tokens(ps)[j + 1..]
    ensures Lookup(FromPairs(ps), ps[j].token) == Some(ps[j].info)
  {
    hide FromPairs; hide LastInfo; hide Lookup; hide IsDict; hide FirstSeen;
    LastWins(ps, ps[j].token);
    forall i | j < i < |ps| ensures ps[i].token != ps[j].token {
      assert ps[i].token == Tokens(ps)[j + 1..][i - j - 1];
    }
    LastInfoAt(ps, j, |ps|);
    assert ps[..|ps|] == ps;
  }

  lemma NextPositionIs(ts: seq<int>, ls: seq<real>, ds: seq<Option<string>>, rank: int, num: int)
    ensures Describes(NextPosition(ts, ls, ds, rank, num), ts, ls, ds, rank, num)
  {
    var ps, n := Zip(ts, ls, Ranks(rank, num, |ls|), ds), Count(ts, ls, ds, num);
    ZipIs(ts, ls, ds, rank, num);
    hide Zip; hide Ranks; hide FromPairs; hide Count; hide Find; hide FirstSeen; hide LastInfo; hide Lookup;
    var d := NextPosition(ts, ls, ds, rank, num);
    LastWins(ps, 0);
    FirstSeenMembers(Tokens(ps));
    assert Tokens(ps) == ts[..n];
    forall i | 0 <= i < |d| ensures d[i].token in ts[..n] { assert Tokens(d)[i] in FirstSeen(Tokens(ps)); }
    forall j | 0 <= j < n && ts[j] !in ts[j + 1..n] ensures Lookup(d, ts[j]) == Some(ps[j].info) {
      assert Tokens(ps)[j + 1..] == ts[j + 1..n];
      LastOfToken(ps, j);
    }
    if forall i, j :: 0 <= i < j < n ==> ts[i] != ts[j] { FromOwnItems(ps); }
  }

  method AppendForNextPosition(c: Container, ts: seq<int>, ls: seq<real>, ds: seq<Option<string>>, rank: int, num: int)
    requires c.Valid()
    modifies c
    ensures c.Valid() && View(c.Data()) == old(View(c.Data())) + [NextPosition(ts, ls, ds, rank, num)]
    ensures Describes(View(c.Data())[old(|c.starts|)], ts, ls, ds, rank, num)
  {
    NextPositionIs(ts, ls, ds, rank, num);
    c.AppendFast(ts, ls, Ranks(rank, num, |ls|), ds);
  }

  /**
    When the sampled token (first in the lists) is repeated among the top-k at place j,
    it stays the first key and ends up with the entry of its last occurrence, so with
    that occurrence's top-k rank.
   */
  lemma RepeatedToken(ts: seq<int>, ls: seq<real>, ds: seq<Option<string>>, rank: int, num: int, j: nat)
    requires 0 < j < |Zip(ts, ls, Ranks(rank, num, |ls|), ds)|
    requires ts[0] == ts[j] && ts[j] !in ts[j + 1..]
    ensures
      var d := NextPosition(ts, ls, ds, rank, num);
      && d != [] && d[0].token == ts[0]
      && d[0].info == Logprob(ls[j], Some(j), ds[j])
  {
    var ps := Zip(ts, ls, Ranks(rank, num, |ls|), ds);
    LastWins(ps, ts[j]);
    LastInfoAt(ps, j, |ps|);
    FirstSeenFirst(Tokens(ps));
    var d := NextPosition(ts, ls, ds, rank, num);
    assert ps[..|ps|] == ps;
    assert Tokens(d)[0] == ts[0];
    FindUnique(d, ts[0], 0);
  }

  lemma {:induction false} LastInfoAt(ps: seq<Pair>, j: nat, n: nat)
    requires j < n <= |ps| && forall i :: j < i < n ==> ps[i].token != ps[j].token
    ensures LastInfo(ps[..n], ps[j].token) == Some(ps[j].info)
    decreases n
  {
    assert ps[..n][..n - 1] == ps[..n - 1];
    if j < n - 1 { LastInfoAt(ps, j, n - 1); }
  }

  lemma {:induction false} FirstSeenFirst(ts: seq<int>)
    requires ts != []
    ensures FirstSeen(ts) != [] && FirstSeen(ts)[0] == ts[0]
  {
    if |ts| > 1 { FirstSeenFirst(ts[..|ts| - 1]); }
  }
}
