/** addPermutations / generatePermutations (src/test/Utils.java): the tests' generator of
    every ordering of a list, by swapping each candidate into position k, recursing on
    k + 1 and swapping back. Lists are values here, so the mutated list is threaded through
    as an extra result. */
module Permutations {

  /** Collections.swap: exchange the elements at i and j. */
  function Swap<T>(s: seq<T>, i: int, j: int): (r: seq<T>)
    requires 0 <= i < |s| && 0 <= j < |s|
    ensures |r| == |s| && r[i] == s[j] && r[j] == s[i]
    ensures forall m :: 0 <= m < |s| && m != i && m != j ==> r[m] == s[m]
  {
    s[i := s[j]][j := s[i]]
  }

  function Fact(n: nat): (f: nat)
    ensures f >= 1
  {
    if n == 0 then 1 else n * Fact(n - 1)
  }

  // ---------------------------------------------------------------------------
  // What the recursion appends, as a pure definition

  /** The lists one call addPermutations(perm, k, _) appends, in order: the loop's
      contributions, then perm itself when k is the last index. */
  function Leaves<T>(perm: seq<T>, k: nat): seq<seq<T>>
    requires k <= |perm|
    decreases |perm| - k, 1
  {
    LoopLeaves(perm, k, k) + (if k == |perm| - 1 then [perm] else [])
  }

  /** The lists the loop of addPermutations(perm, k, _) appends from iteration i on. */
  function LoopLeaves<T>(perm: seq<T>, k: nat, i: nat): seq<seq<T>>
    requires k <= i <= |perm|
    decreases |perm| - k, 0, |perm| - i
  {
    if i == |perm| then []
    else Leaves(Swap(perm, i, k), k + 1) + LoopLeaves(perm, k, i + 1)
  }

  // ---------------------------------------------------------------------------
  // addPermutations and generatePermutations (Utils.java)

  /** addPermutations(perm, k, acc): returns the list in its final order and the
      accumulator. The list comes back as it was given, and acc only grows, by Leaves. */
  method AddPermutations<T>(perm: seq<T>, k: nat, acc: seq<seq<T>>)
    returns (perm': seq<T>, acc': seq<seq<T>>)
    requires k <= |perm|
    ensures perm' == perm
    ensures acc' == acc + Leaves(perm, k)
    decreases |perm| - k
  {
    var p := perm;
    var a := acc;
    var i := k;
    while i < |p|
      invariant k <= i <= |perm|
      invariant p == perm
      invariant a + LoopLeaves(perm, k, i) == acc + LoopLeaves(perm, k, k)
      decreases |p| - i
    {
      p := Swap(p, i, k);
      var p2, a2 := AddPermutations(p, k + 1, a);
      p := Swap(p2, k, i);
      assert p == perm;
      a := a2;
      i := i + 1;
    }
    assert LoopLeaves(perm, k, i) == [];
    assert a == acc + LoopLeaves(perm, k, k);
    if k == |p| - 1 {
      a := a + [p];
    }
    perm', acc' := p, a;
  }

  /** generatePermutations: all orderings of the list, one per leaf of the recursion. */
  method GeneratePermutations<T(==)>(init: seq<T>) returns (result: seq<seq<T>>)
    ensures forall j :: 0 <= j < |result| ==> multiset(result[j]) == multiset(init)
    ensures |result| == if |init| == 0 then 0 else Fact(|init|)
    ensures |init| > 0 ==> forall q :: multiset(q) == multiset(init) ==> q in result
  {
    var p;
    p, result := AddPermutations(init, 0, []);
    LeavesArePermutations(init, 0);
    LeavesCount(init, 0);
    if |init| > 0 {
      forall q | multiset(q) == multiset(init)
        ensures q in result
      {
        assert |q| == |multiset(q)| == |init|;
        assert q[0..] == q && init[0..] == init;
        LeavesComplete(init, 0, q);
      }
    }
  }

  // ---------------------------------------------------------------------------
  // Every list produced is a permutation of the input

  lemma SwapMultiset<T>(s: seq<T>, i: int, j: int)
    requires 0 <= i < |s| && 0 <= j < |s|
    ensures multiset(Swap(s, i, j)) == multiset(s)
  {
  }

  lemma {:induction false} LeavesArePermutations<T>(perm: seq<T>, k: nat)
    requires k <= |perm|
    ensures forall j :: 0 <= j < |Leaves(perm, k)| ==> multiset(Leaves(perm, k)[j]) == multiset(perm)
    decreases |perm| - k, 1
  {
    LoopLeavesArePermutations(perm, k, k);
  }

  lemma {:induction false} LoopLeavesArePermutations<T>(perm: seq<T>, k: nat, i: nat)
    requires k <= i <= |perm|
    ensures forall j :: 0 <= j < |LoopLeaves(perm, k, i)| ==>
              multiset(LoopLeaves(perm, k, i)[j]) == multiset(perm)
    decreases |perm| - k, 0, |perm| - i
  {
    if i < |perm| {
      var s := Swap(perm, i, k);
      SwapMultiset(perm, i, k);
      LeavesArePermutations(s, k + 1);
      LoopLeavesArePermutations(perm, k, i + 1);
    }
  }

  // ---------------------------------------------------------------------------
  // How many lists are produced

  lemma {:induction false} LeavesCount<T>(perm: seq<T>, k: nat)
    requires k <= |perm|
    ensures |Leaves(perm, k)| == if k < |perm| then Fact(|perm| - k) else 0
    decreases |perm| - k, 1
  {
    LoopLeavesCount(perm, k, k);
    if k < |perm| {
      var n := |perm| - k;
      assert Fact(n) == n * Fact(n - 1);
    }
  }

  lemma {:induction false} LoopLeavesCount<T>(perm: seq<T>, k: nat, i: nat)
    requires k <= i <= |perm|
    ensures k < |perm| ==> |LoopLeaves(perm, k, i)| == (|perm| - i) * if k + 1 < |perm| then Fact(|perm| - k - 1) else 0
    ensures k == |perm| ==> LoopLeaves(perm, k, i) == []
    decreases |perm| - k, 0, |perm| - i
  {
    if i < |perm| {
      var s := Swap(perm, i, k);
      LeavesCount(s, k + 1);
      LoopLeavesCount(perm, k, i + 1);
      var f := if k + 1 < |perm| then Fact(|perm| - k - 1) else 0;
      assert LoopLeaves(perm, k, i) == Leaves(s, k + 1) + LoopLeaves(perm, k, i + 1);
      MulSucc(|perm| - i - 1, f);
    }
  }

  lemma MulSucc(a: int, f: int)
    ensures (a + 1) * f == f + a * f
  {
  }

  // ---------------------------------------------------------------------------
  // Every ordering is produced

  lemma MultisetSplit<T>(s: seq<T>, k: int)
    requires 0 <= k < |s|
    ensures multiset(s[k..]) == multiset{s[k]} + multiset(s[k + 1..])
  {
    assert s[k..] == [s[k]] + s[k + 1..];
  }

  /** Every list agreeing with perm before k, and holding the same elements from k on,
      is among the lists the call at depth k appends. */
  lemma {:induction false} LeavesComplete<T>(perm: seq<T>, k: nat, q: seq<T>)
    requires k < |perm| && |q| == |perm|
    requires q[..k] == perm[..k] && multiset(q[k..]) == multiset(perm[k..])
    ensures q in Leaves(perm, k)
    decreases |perm| - k, 1
  {
    MultisetSplit(q, k);
    assert q[k] in multiset(perm[k..]);
    var i' :| k <= i' < |perm| && perm[i'] == q[k];
    if k == |perm| - 1 {
      assert q == q[..k] + [q[k]];
      assert perm == perm[..k] + [perm[k]];
    } else {
      LoopLeavesComplete(perm, k, k, i', q);
    }
  }

  lemma {:induction false} LoopLeavesComplete<T>(perm: seq<T>, k: nat, i: nat, i': nat, q: seq<T>)
    requires k + 1 < |perm| && k <= i <= i' < |perm| && |q| == |perm|
    requires q[..k] == perm[..k] && multiset(q[k..]) == multiset(perm[k..])
    requires perm[i'] == q[k]
    ensures q in LoopLeaves(perm, k, i)
    decreases |perm| - k, 0, |perm| - i
  {
    if i == i' {
      var s := Swap(perm, i, k);
      SwapIntoPlace(perm, k, i, q);
      LeavesComplete(s, k + 1, q);
    } else {
      LoopLeavesComplete(perm, k, i + 1, i', q);
    }
  }

  /** Swapping q[k], found at position i of perm, into position k makes perm agree with q
      up to k + 1, with the same elements left after it. */
  lemma SwapIntoPlace<T>(perm: seq<T>, k: nat, i: nat, q: seq<T>)
    requires k <= i < |perm| && |q| == |perm|
    requires q[..k] == perm[..k] && multiset(q[k..]) == multiset(perm[k..])
    requires perm[i] == q[k]
    ensures var s := Swap(perm, i, k);
      s[..k + 1] == q[..k + 1] && multiset(s[k + 1..]) == multiset(q[k + 1..])
  {
    var s := Swap(perm, i, k);
    assert s[..k + 1] == q[..k + 1] by {
      assert s[..k + 1] == perm[..k] + [perm[i]];
      assert q[..k + 1] == q[..k] + [q[k]];
    }
    SwapSuffixMultiset(perm, i, k);
    MultisetSplit(s, k);
    MultisetSplit(q, k);
    assert multiset(s[k + 1..]) == multiset(s[k..]) - multiset{s[k]};
    assert multiset(q[k + 1..]) == multiset(q[k..]) - multiset{q[k]};
  }

  /** Swapping two positions at or after k keeps the elements from k on. */
  lemma SwapSuffixMultiset<T>(s: seq<T>, i: int, k: int)
    requires 0 <= k <= i < |s|
    ensures multiset(Swap(s, i, k)[k..]) == multiset(s[k..])
  {
    var r := Swap(s, i, k);
    assert r[..k] == s[..k];
    assert r == r[..k] + r[k..];
    assert s == s[..k] + s[k..];
    SwapMultiset(s, i, k);
  }
}
