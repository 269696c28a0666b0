/** Concatenating a sequence of sequences, and finding one's way in the result. */
module Flatten {

  function Flat<T>(ss: seq<seq<T>>): seq<T> {
    if ss == [] then [] else Flat(ss[..|ss| - 1]) + ss[|ss| - 1]
  }

  /** Where part `k` starts in Flat(ss). */
  function Start<T>(ss: seq<seq<T>>, k: nat): nat
    requires k <= |ss|
  {
    |Flat(ss[..k])|
  }

  lemma StartNext<T>(ss: seq<seq<T>>, k: nat)
    requires k < |ss|
    ensures Start(ss, k + 1) == Start(ss, k) + |ss[k]|
  {
    assert ss[..k + 1][..k] == ss[..k];
  }

  lemma {:induction false} StartMonotone<T>(ss: seq<seq<T>>, k: nat, l: nat)
    requires k <= l <= |ss|
    ensures Start(ss, k) <= Start(ss, l)
    decreases l
  {
    if k < l {
      StartMonotone(ss, k, l - 1);
      StartNext(ss, l - 1);
    }
  }

  lemma StartEnd<T>(ss: seq<seq<T>>)
    ensures Start(ss, |ss|) == |Flat(ss)|
  {
    assert ss[..|ss|] == ss;
  }

  lemma {:induction false} FlatAt<T>(ss: seq<seq<T>>, k: nat, j: nat)
    requires k < |ss| && j < |ss[k]|
    ensures Start(ss, k) + j < |Flat(ss)| && Flat(ss)[Start(ss, k) + j] == ss[k][j]
  {
    var n := |ss| - 1;
    if k == n {
    } else {
      FlatAt(ss[..n], k, j);
      assert ss[..n][..k] == ss[..k];
    }
  }

  /** The part and the offset an index of Flat(ss) falls into. */
  lemma {:induction false} Locate<T>(ss: seq<seq<T>>, i: nat) returns (k: nat, j: nat)
    requires i < |Flat(ss)|
    ensures k < |ss| && j < |ss[k]| && i == Start(ss, k) + j && Flat(ss)[i] == ss[k][j]
  {
    var n := |ss| - 1;
    if i < |Flat(ss[..n])| {
      k, j := Locate(ss[..n], i);
      assert ss[..n][..k] == ss[..k];
    } else {
      k, j := n, i - |Flat(ss[..n])|;
    }
  }

  lemma PositionsDiffer<T>(ss: seq<seq<T>>, k: nat, j: nat, k': nat, j': nat)
    requires k < |ss| && j < |ss[k]| && k' < |ss| && j' < |ss[k']|
    requires Start(ss, k) + j == Start(ss, k') + j'
    ensures k == k' && j == j'
  {
    if k < k' {
      StartNext(ss, k);
      StartMonotone(ss, k + 1, k');
    } else if k' < k {
      StartNext(ss, k');
      StartMonotone(ss, k' + 1, k);
    }
  }
}
