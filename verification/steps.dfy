/** Performing square swaps on a cube (swapSquareColors of Rotation.java, and sequences of it). */
module RotationSteps {
  import opened CubeSides
  import opened CubeColors
  import opened Cubes
  import opened Exchanges

  /** swapSquareColors: exchanges the colours of squares a and b. */
  function SwapSquareColors(c: Cube, a: Pos, b: Pos): (r: Cube)
    requires Valid(c) && InRange(c.size, a) && InRange(c.size, b)
    ensures Valid(r) && r.size == c.size
  {
    var temp := At(c, a);
    var c1 := Put(c, a, At(c, b));
    Put(c1, b, temp)
  }

  /** The two named squares trade colours; every other square keeps its colour. */
  lemma SwapSquareColorsAt(c: Cube, a: Pos, b: Pos, y: Pos)
    requires Valid(c) && InRange(c.size, a) && InRange(c.size, b) && InRange(c.size, y)
    ensures At(SwapSquareColors(c, a, b), y) ==
      if y == a then At(c, b) else if y == b then At(c, a) else At(c, y)
  {
    var c1 := Put(c, a, At(c, b));
    PutAt(c1, b, At(c, a), y);
    PutAt(c, a, At(c, b), y);
  }

  /** Exchanging two entries of a sequence keeps its multiset. */
  lemma ExchangeMultiset<T>(s: seq<T>, i: int, j: int)
    requires 0 <= i < |s| && 0 <= j < |s|
    ensures multiset(s[i := s[j]][j := s[i]]) == multiset(s)
  {
    if i == j {
      assert s[i := s[j]][j := s[i]] == s;
    }
  }

  /** A swap keeps the number of squares of every colour. */
  lemma SwapKeepsBag(c: Cube, a: Pos, b: Pos)
    requires Valid(c) && InRange(c.size, a) && InRange(c.size, b)
    ensures Bag(SwapSquareColors(c, a, b)) == Bag(c)
  {
    var c1 := Put(c, a, At(c, b));
    FlattenPut(c, a, At(c, b));
    FlattenPut(c1, b, At(c, a));
    FlattenIndex(c, a);
    FlattenIndex(c, b);
    ExchangeMultiset(Flatten(c), Offset(c.size, a), Offset(c.size, b));
  }

  /** Swapping the same two squares twice restores the cube. */
  lemma SwapTwice(c: Cube, a: Pos, b: Pos)
    requires Valid(c) && InRange(c.size, a) && InRange(c.size, b)
    ensures SwapSquareColors(SwapSquareColors(c, a, b), a, b) == c
  {
    var c1 := SwapSquareColors(c, a, b);
    forall y | InRange(c.size, y) ensures At(SwapSquareColors(c1, a, b), y) == At(c, y) {
      SwapSquareColorsAt(c1, a, b, y);
      SwapSquareColorsAt(c, a, b, y);
      SwapSquareColorsAt(c, a, b, a);
      SwapSquareColorsAt(c, a, b, b);
    }
    CubeExt(SwapSquareColors(c1, a, b), c);
  }

  /** Performs the exchanges in order, one swapSquareColors call each. */
  function SwapAll(c: Cube, es: seq<Exchange>): (r: Cube)
    requires Valid(c) && Within(c.size, es)
    ensures Valid(r) && r.size == c.size
    decreases |es|
  {
    if |es| == 0 then c
    else
      assert Within(c.size, es[1..]) by { WithinTail(c.size, es); }
      SwapAll(SwapSquareColors(c, es[0].a, es[0].b), es[1..])
  }

  lemma WithinTail(n: int, es: seq<Exchange>)
    requires Within(n, es) && |es| > 0
    ensures Within(n, es[1..])
  {
    forall k | 0 <= k < |es[1..]| ensures InRange(n, es[1..][k].a) && InRange(n, es[1..][k].b) {
      assert es[1..][k] == es[k + 1];
    }
  }

  /** Reading a square after one swap. */
  lemma SwapAt(c: Cube, e: Exchange, y: Pos)
    requires Valid(c) && InRange(c.size, e.a) && InRange(c.size, e.b) && InRange(c.size, y)
    ensures InRange(c.size, Swap(e, y))
    ensures At(SwapSquareColors(c, e.a, e.b), y) == At(c, Swap(e, y))
  {
    SwapSquareColorsAt(c, e.a, e.b, y);
  }

  /** After a sequence of swaps, square x holds the colour square Source(es, x) held before. */
  lemma {:induction false} SwapAllAt(c: Cube, es: seq<Exchange>, x: Pos)
    requires Valid(c) && Within(c.size, es) && InRange(c.size, x)
    ensures InRange(c.size, Source(es, x))
    ensures At(SwapAll(c, es), x) == At(c, Source(es, x))
    decreases |es|
  {
    if |es| > 0 {
      WithinTail(c.size, es);
      var c1 := SwapSquareColors(c, es[0].a, es[0].b);
      SwapAllAt(c1, es[1..], x);
      SwapAt(c, es[0], Source(es[1..], x));
    }
  }

  /** Swap sequences with the same Source on the cube's squares have the same effect. */
  lemma SwapAllSame(c: Cube, es1: seq<Exchange>, es2: seq<Exchange>)
    requires Valid(c) && Within(c.size, es1) && Within(c.size, es2)
    requires forall x :: InRange(c.size, x) ==> Source(es1, x) == Source(es2, x)
    ensures SwapAll(c, es1) == SwapAll(c, es2)
  {
    forall x | InRange(c.size, x)
      ensures At(SwapAll(c, es1), x) == At(SwapAll(c, es2), x)
    {
      SwapAllAt(c, es1, x);
      SwapAllAt(c, es2, x);
    }
    CubeExt(SwapAll(c, es1), SwapAll(c, es2));
  }

  /** A swap sequence whose Source fixes every square leaves the cube unchanged. */
  lemma SwapAllIdentity(c: Cube, es: seq<Exchange>)
    requires Valid(c) && Within(c.size, es)
    requires forall x :: InRange(c.size, x) ==> Source(es, x) == x
    ensures SwapAll(c, es) == c
  {
    forall x | InRange(c.size, x)
      ensures At(SwapAll(c, es), x) == At(c, x)
    {
      SwapAllAt(c, es, x);
    }
    CubeExt(SwapAll(c, es), c);
  }

  /** A sequence of swaps keeps the number of squares of every colour. */
  lemma {:induction false} SwapAllBag(c: Cube, es: seq<Exchange>)
    requires Valid(c) && Within(c.size, es)
    ensures Bag(SwapAll(c, es)) == Bag(c)
    decreases |es|
  {
    if |es| > 0 {
      WithinTail(c.size, es);
      var c1 := SwapSquareColors(c, es[0].a, es[0].b);
      SwapKeepsBag(c, es[0].a, es[0].b);
      SwapAllBag(c1, es[1..]);
    }
  }

  /** Performing es1 + es2 is performing es1 and then es2. */
  lemma {:induction false} SwapAllAppend(c: Cube, es1: seq<Exchange>, es2: seq<Exchange>)
    requires Valid(c) && Within(c.size, es1) && Within(c.size, es2)
    ensures Within(c.size, es1 + es2)
    ensures SwapAll(c, es1 + es2) == SwapAll(SwapAll(c, es1), es2)
    decreases |es1|
  {
    WithinAppend(c.size, es1, es2);
    if |es1| == 0 {
      assert es1 + es2 == es2;
    } else {
      WithinTail(c.size, es1);
      assert (es1 + es2)[1..] == es1[1..] + es2;
      var c1 := SwapSquareColors(c, es1[0].a, es1[0].b);
      SwapAllAppend(c1, es1[1..], es2);
    }
  }
}
