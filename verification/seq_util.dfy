/** Sequence helpers for the row-major layout: concatenating equally long blocks. */
module SeqUtil {

  /** The blocks of ss one after another. */
  function Concat<T>(ss: seq<seq<T>>): seq<T> {
    if |ss| == 0 then [] else Concat(ss[..|ss| - 1]) + ss[|ss| - 1]
  }

  /** Every block has length m. */
  predicate Uniform<T>(ss: seq<seq<T>>, m: nat) {
    forall k :: 0 <= k < |ss| ==> |ss[k]| == m
  }

  /** v repeated k times. */
  function Repeat<T>(v: T, k: nat): (r: seq<T>)
    ensures |r| == k && forall i :: 0 <= i < k ==> r[i] == v
  {
    seq(k, _ => v)
  }

  lemma {:induction false} ConcatLength<T>(ss: seq<seq<T>>, m: nat)
    requires Uniform(ss, m)
    ensures |Concat(ss)| == |ss| * m
  {
    if |ss| > 0 {
      ConcatLength(ss[..|ss| - 1], m);
    }
  }

  lemma {:induction false} MulMono(m: nat, i: nat, k: nat)
    requires i < k
    ensures m * i + m <= m * k
    decreases k
  {
    assert m * k == m * (k - 1) + m;
    if i < k - 1 {
      MulMono(m, i, k - 1);
    }
  }

  /** Row-major offsets of an in-range pair stay inside the k blocks. */
  lemma BlockBound(m: nat, i: int, j: int, k: nat)
    requires 0 <= i < k && 0 <= j < m
    ensures 0 <= m * i + j < m * k
  {
    MulMono(m, i, k);
  }

  /** Element j of block i sits at m*i + j. */
  lemma {:induction false} ConcatIndex<T>(ss: seq<seq<T>>, m: nat, i: int, j: int)
    requires Uniform(ss, m) && 0 <= i < |ss| && 0 <= j < m
    ensures 0 <= m * i + j < |Concat(ss)| && Concat(ss)[m * i + j] == ss[i][j]
  {
    var last := |ss| - 1;
    ConcatLength(ss[..last], m);
    if i < last {
      ConcatIndex(ss[..last], m, i, j);
      MulMono(m, i, last);
    } else {
      assert m * i == last * m;
    }
    ConcatLength(ss, m);
  }

  /** Updating one element of one block updates the concatenation at m*i + j. */
  lemma {:induction false} ConcatUpdate<T>(ss: seq<seq<T>>, m: nat, i: int, j: int, v: T)
    requires Uniform(ss, m) && 0 <= i < |ss| && 0 <= j < m
    ensures ConcatIndexOk(ss, m, i, j)
    ensures Concat(ss[i := ss[i][j := v]]) == Concat(ss)[m * i + j := v]
  {
    var last := |ss| - 1;
    var ts := ss[i := ss[i][j := v]];
    ConcatIndex(ss, m, i, j);
    ConcatLength(ss[..last], m);
    assert Concat(ts) == Concat(ts[..last]) + ts[last];
    assert Concat(ss) == Concat(ss[..last]) + ss[last];
    if i < last {
      assert ts[..last] == ss[..last][i := ss[..last][i][j := v]];
      assert ts[last] == ss[last];
      ConcatUpdate(ss[..last], m, i, j, v);
      MulMono(m, i, last);
      UpdateLeft(Concat(ss[..last]), ss[last], m * i + j, v);
    } else {
      assert ts[..last] == ss[..last];
      assert m * i == last * m;
      UpdateRight(Concat(ss[..last]), ss[last], j, v);
    }
  }

  /** Updating the left part of a concatenation. */
  lemma UpdateLeft<T>(a: seq<T>, b: seq<T>, p: int, v: T)
    requires 0 <= p < |a|
    ensures a[p := v] + b == (a + b)[p := v]
  {
  }

  /** Updating the right part of a concatenation. */
  lemma UpdateRight<T>(a: seq<T>, b: seq<T>, j: int, v: T)
    requires 0 <= j < |b|
    ensures a + b[j := v] == (a + b)[|a| + j := v]
  {
  }

  predicate ConcatIndexOk<T>(ss: seq<seq<T>>, m: nat, i: int, j: int) {
    0 <= m * i + j < |Concat(ss)|
  }

  /** Blocks that are all the same repeated value concatenate to one longer repetition. */
  lemma {:induction false} ConcatRepeat<T>(v: T, k: nat, m: nat)
    ensures Concat(seq(k, _ => Repeat(v, m))) == Repeat(v, k * m)
  {
    var ss := seq(k, _ => Repeat(v, m));
    if k > 0 {
      assert ss[..k - 1] == seq(k - 1, _ => Repeat(v, m));
      ConcatRepeat(v, k - 1, m);
      assert (k - 1) * m + m == k * m;
    }
  }
}
