/** A rearrangement of the squares written as the list of square swaps that performs it,
    looked at from the positions' side: where each square's colour comes from. */
module Exchanges {
  import opened CubeSides
  import opened Cubes

  /** One call of swapSquareColors: the colours of squares a and b trade places. */
  datatype Exchange = Exchange(a: Pos, b: Pos)

  /** Every exchange of es touches only squares of a cube of size n. */
  predicate Within(n: int, es: seq<Exchange>) {
    forall k :: 0 <= k < |es| ==> InRange(n, es[k].a) && InRange(n, es[k].b)
  }

  /** After exchanging a and b, square x holds the colour square Swap(e, x) held before. */
  function Swap(e: Exchange, x: Pos): (y: Pos)
    ensures x == e.a ==> y == e.b
    ensures x == e.b ==> y == e.a
    ensures x != e.a && x != e.b ==> y == x
  {
    if x == e.a then e.b else if x == e.b then e.a else x
  }

  /** After performing the exchanges es in order, square x holds the colour square
      Source(es, x) held before. */
  function Source(es: seq<Exchange>, x: Pos): Pos
    decreases |es|
  {
    if |es| == 0 then x else Swap(es[0], Source(es[1..], x))
  }

  lemma SwapInvolution(e: Exchange, x: Pos)
    ensures Swap(e, Swap(e, x)) == x
  {
  }

  /** Exchanges keep squares of the cube within the cube. */
  lemma {:induction false} SourceWithin(n: int, es: seq<Exchange>, x: Pos)
    requires Within(n, es) && InRange(n, x)
    ensures InRange(n, Source(es, x))
    decreases |es|
  {
    if |es| > 0 {
      assert Within(n, es[1..]) by {
        forall k | 0 <= k < |es[1..]| ensures InRange(n, es[1..][k].a) && InRange(n, es[1..][k].b) {
          assert es[1..][k] == es[k + 1];
        }
      }
      SourceWithin(n, es[1..], x);
    }
  }

  /** Doing es1 and then es2: the later exchanges are looked up first. */
  lemma {:induction false} SourceAppend(es1: seq<Exchange>, es2: seq<Exchange>, x: Pos)
    ensures Source(es1 + es2, x) == Source(es1, Source(es2, x))
    decreases |es1|
  {
    if |es1| == 0 {
      assert es1 + es2 == es2;
    } else {
      assert (es1 + es2)[1..] == es1[1..] + es2;
      SourceAppend(es1[1..], es2, x);
    }
  }

  lemma WithinAppend(n: int, es1: seq<Exchange>, es2: seq<Exchange>)
    requires Within(n, es1) && Within(n, es2)
    ensures Within(n, es1 + es2)
  {
    forall k | 0 <= k < |es1 + es2| ensures InRange(n, (es1 + es2)[k].a) && InRange(n, (es1 + es2)[k].b) {
      if k < |es1| {
        assert (es1 + es2)[k] == es1[k];
      } else {
        assert (es1 + es2)[k] == es2[k - |es1|];
      }
    }
  }

  /** Prepending one exchange: it is looked up last. */
  lemma SourceCons(e: Exchange, es: seq<Exchange>, x: Pos)
    ensures Source([e] + es, x) == Swap(e, Source(es, x))
  {
    assert ([e] + es)[1..] == es;
  }

  lemma WithinCons(n: int, e: Exchange, es: seq<Exchange>)
    requires InRange(n, e.a) && InRange(n, e.b) && Within(n, es)
    ensures Within(n, [e] + es)
  {
    forall k | 0 <= k < |[e] + es| ensures InRange(n, ([e] + es)[k].a) && InRange(n, ([e] + es)[k].b) {
      if k > 0 {
        assert ([e] + es)[k] == es[k - 1];
      }
    }
  }

  /** Three exchange lists performed one after the other. */
  lemma SourceAppend3(es1: seq<Exchange>, es2: seq<Exchange>, es3: seq<Exchange>, x: Pos)
    ensures Source(es1 + es2 + es3, x) == Source(es1, Source(es2, Source(es3, x)))
  {
    SourceAppend(es1 + es2, es3, x);
    SourceAppend(es1, es2, Source(es3, x));
  }

  /** Five exchange lists performed one after the other. */
  lemma SourceAppend5(es1: seq<Exchange>, es2: seq<Exchange>, es3: seq<Exchange>, es4: seq<Exchange>, es5: seq<Exchange>, x: Pos)
    ensures Source(es1 + es2 + es3 + es4 + es5, x) ==
      Source(es1, Source(es2, Source(es3, Source(es4, Source(es5, x)))))
  {
    SourceAppend(es1 + es2 + es3 + es4, es5, x);
    SourceAppend(es1 + es2 + es3, es4, Source(es5, x));
    SourceAppend3(es1, es2, es3, Source(es4, Source(es5, x)));
  }

  /** Three exchange lists performed in order, given where each one takes square x from. */
  lemma SourceChain3(es1: seq<Exchange>, es2: seq<Exchange>, es3: seq<Exchange>, x: Pos, x2: Pos, x1: Pos, r: Pos)
    requires Source(es3, x) == x2 && Source(es2, x2) == x1 && Source(es1, x1) == r
    ensures Source(es1 + es2 + es3, x) == r
  {
    SourceAppend3(es1, es2, es3, x);
  }

  /** Five exchange lists performed in order, given where each one takes square x from. */
  lemma SourceChain5(es1: seq<Exchange>, es2: seq<Exchange>, es3: seq<Exchange>, es4: seq<Exchange>, es5: seq<Exchange>,
                     x: Pos, x4: Pos, x3: Pos, x2: Pos, x1: Pos, r: Pos)
    requires Source(es5, x) == x4 && Source(es4, x4) == x3 && Source(es3, x3) == x2
    requires Source(es2, x2) == x1 && Source(es1, x1) == r
    ensures Source(es1 + es2 + es3 + es4 + es5, x) == r
  {
    SourceAppend5(es1, es2, es3, es4, es5, x);
  }
}
