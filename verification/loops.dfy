/** The loops of Rotation.java, each written as the list of swapSquareColors calls it makes,
    in the order it makes them, together with the closed form of where every square's colour
    comes from once the loop has run. A loop "from i" is the loop entered with its index at i;
    the Java loops start at 0 (or, for the reversals, at the two ends). */
module SwapLoops {
  import opened CubeSides
  import opened Cubes
  import opened Exchanges

  // ---------------------------------------------------------------------------
  // swapRowAndRow: for (col = 0; col < size; col++) swap (a, ra, col) with (b, rb, col)

  function RowAndRowSwaps(a: Face, ra: int, b: Face, rb: int, col: nat, n: nat): (es: seq<Exchange>)
    requires 0 <= ra < n && 0 <= rb < n
    ensures Within(n, es)
    ensures |es| == if col < n then n - col else 0
    decreases n - col
  {
    if col < n then
      var rest := RowAndRowSwaps(a, ra, b, rb, col + 1, n);
      WithinCons(n, Exchange(Pos(a, ra, col), Pos(b, rb, col)), rest);
      [Exchange(Pos(a, ra, col), Pos(b, rb, col))] + rest
    else []
  }

  /** From column `from` on, row ra of a and row rb of b have traded places. */
  function RowAndRowSource(a: Face, ra: int, b: Face, rb: int, from: int, x: Pos): Pos {
    if x.col >= from && x.face == a && x.row == ra then Pos(b, rb, x.col)
    else if x.col >= from && x.face == b && x.row == rb then Pos(a, ra, x.col)
    else x
  }

  /** One more step of the loop. */
  lemma RowAndRowStep(a: Face, ra: int, b: Face, rb: int, col: int, n: int, x: Pos)
    requires 0 <= ra < n && 0 <= rb < n && InRange(n, x) && 0 <= col < n
    ensures Swap(Exchange(Pos(a, ra, col), Pos(b, rb, col)), RowAndRowSource(a, ra, b, rb, col + 1, x)) == RowAndRowSource(a, ra, b, rb, col, x)
  {
  }

  lemma {:induction false} RowAndRowSwapsSource(a: Face, ra: int, b: Face, rb: int, col: nat, n: nat, x: Pos)
    requires 0 <= ra < n && 0 <= rb < n && InRange(n, x)
    ensures Source(RowAndRowSwaps(a, ra, b, rb, col, n), x) == RowAndRowSource(a, ra, b, rb, col, x)
    decreases n - col
  {
    if col < n {
      var e := Exchange(Pos(a, ra, col), Pos(b, rb, col));
      assert RowAndRowSwaps(a, ra, b, rb, col, n) == [e] + RowAndRowSwaps(a, ra, b, rb, col + 1, n);
      RowAndRowSwapsSource(a, ra, b, rb, col + 1, n, x);
      SourceCons(e, RowAndRowSwaps(a, ra, b, rb, col + 1, n), x);
      RowAndRowStep(a, ra, b, rb, col, n, x);
    }
  }

  // ---------------------------------------------------------------------------
  // swapColumnAndColumn: for (row = 0; row < size; row++) swap (a, row, ca) with (b, row, cb)

  function ColumnAndColumnSwaps(a: Face, ca: int, b: Face, cb: int, row: nat, n: nat): (es: seq<Exchange>)
    requires 0 <= ca < n && 0 <= cb < n
    ensures Within(n, es)
    ensures |es| == if row < n then n - row else 0
    decreases n - row
  {
    if row < n then
      var rest := ColumnAndColumnSwaps(a, ca, b, cb, row + 1, n);
      WithinCons(n, Exchange(Pos(a, row, ca), Pos(b, row, cb)), rest);
      [Exchange(Pos(a, row, ca), Pos(b, row, cb))] + rest
    else []
  }

  /** From row `from` on, column ca of a and column cb of b have traded places. */
  function ColumnAndColumnSource(a: Face, ca: int, b: Face, cb: int, from: int, x: Pos): Pos {
    if x.row >= from && x.face == a && x.col == ca then Pos(b, x.row, cb)
    else if x.row >= from && x.face == b && x.col == cb then Pos(a, x.row, ca)
    else x
  }

  /** One more step of the loop. */
  lemma ColumnAndColumnStep(a: Face, ca: int, b: Face, cb: int, row: int, n: int, x: Pos)
    requires 0 <= ca < n && 0 <= cb < n && InRange(n, x) && 0 <= row < n
    ensures Swap(Exchange(Pos(a, row, ca), Pos(b, row, cb)), ColumnAndColumnSource(a, ca, b, cb, row + 1, x)) == ColumnAndColumnSource(a, ca, b, cb, row, x)
  {
  }

  lemma {:induction false} ColumnAndColumnSwapsSource(a: Face, ca: int, b: Face, cb: int, row: nat, n: nat, x: Pos)
    requires 0 <= ca < n && 0 <= cb < n && InRange(n, x)
    ensures Source(ColumnAndColumnSwaps(a, ca, b, cb, row, n), x) == ColumnAndColumnSource(a, ca, b, cb, row, x)
    decreases n - row
  {
    if row < n {
      var e := Exchange(Pos(a, row, ca), Pos(b, row, cb));
      assert ColumnAndColumnSwaps(a, ca, b, cb, row, n) == [e] + ColumnAndColumnSwaps(a, ca, b, cb, row + 1, n);
      ColumnAndColumnSwapsSource(a, ca, b, cb, row + 1, n, x);
      SourceCons(e, ColumnAndColumnSwaps(a, ca, b, cb, row + 1, n), x);
      ColumnAndColumnStep(a, ca, b, cb, row, n, x);
    }
  }

  // ---------------------------------------------------------------------------
  // swapColumnAndRow: for (i = 0; i < size; i++) swap (sc, i, col) with (sr, row, i)

  function ColumnAndRowSwaps(sc: Face, col: int, sr: Face, row: int, i: nat, n: nat): (es: seq<Exchange>)
    requires 0 <= col < n && 0 <= row < n
    ensures Within(n, es)
    ensures |es| == if i < n then n - i else 0
    decreases n - i
  {
    if i < n then
      var rest := ColumnAndRowSwaps(sc, col, sr, row, i + 1, n);
      WithinCons(n, Exchange(Pos(sc, i, col), Pos(sr, row, i)), rest);
      [Exchange(Pos(sc, i, col), Pos(sr, row, i))] + rest
    else []
  }

  /** From index `from` on, column col of sc (read top-down) and row `row` of sr (read left
      to right) have traded places. */
  function ColumnAndRowSource(sc: Face, col: int, sr: Face, row: int, from: int, x: Pos): Pos {
    if x.face == sc && x.col == col && x.row >= from then Pos(sr, row, x.row)
    else if x.face == sr && x.row == row && x.col >= from then Pos(sc, x.col, col)
    else x
  }

  /** One more step of the loop; on two different sides its swaps never overlap. */
  lemma ColumnAndRowStep(sc: Face, col: int, sr: Face, row: int, i: int, n: int, x: Pos)
    requires 0 <= col < n && 0 <= row < n && sc != sr && InRange(n, x) && 0 <= i < n
    ensures Swap(Exchange(Pos(sc, i, col), Pos(sr, row, i)), ColumnAndRowSource(sc, col, sr, row, i + 1, x)) == ColumnAndRowSource(sc, col, sr, row, i, x)
  {
  }

  lemma {:induction false} ColumnAndRowSwapsSource(sc: Face, col: int, sr: Face, row: int, i: nat, n: nat, x: Pos)
    requires 0 <= col < n && 0 <= row < n && sc != sr && InRange(n, x)
    ensures Source(ColumnAndRowSwaps(sc, col, sr, row, i, n), x) == ColumnAndRowSource(sc, col, sr, row, i, x)
    decreases n - i
  {
    if i < n {
      var e := Exchange(Pos(sc, i, col), Pos(sr, row, i));
      assert ColumnAndRowSwaps(sc, col, sr, row, i, n) == [e] + ColumnAndRowSwaps(sc, col, sr, row, i + 1, n);
      ColumnAndRowSwapsSource(sc, col, sr, row, i + 1, n, x);
      SourceCons(e, ColumnAndRowSwaps(sc, col, sr, row, i + 1, n), x);
      ColumnAndRowStep(sc, col, sr, row, i, n, x);
    }
  }

  // ---------------------------------------------------------------------------
  // reverseRow: for (i = 0, j = size - 1; i < j; i++, j--) swap (f, row, i) with (f, row, j)

  function ReverseRowSwaps(f: Face, row: int, i: int, j: int, n: nat): (es: seq<Exchange>)
    requires 0 <= row < n && 0 <= i && j < n
    ensures Within(n, es)
    decreases j - i
  {
    if i < j then
      var rest := ReverseRowSwaps(f, row, i + 1, j - 1, n);
      WithinCons(n, Exchange(Pos(f, row, i), Pos(f, row, j)), rest);
      [Exchange(Pos(f, row, i), Pos(f, row, j))] + rest
    else []
  }

  /** Between columns i and j, the row reads backwards. */
  function ReverseRowSource(f: Face, row: int, i: int, j: int, x: Pos): Pos {
    if x.face == f && x.row == row && i <= x.col <= j then Pos(f, row, i + j - x.col) else x
  }

  lemma {:induction false} ReverseRowSwapsSource(f: Face, row: int, i: int, j: int, n: nat, x: Pos)
    requires 0 <= row < n && 0 <= i && j < n
    ensures Source(ReverseRowSwaps(f, row, i, j, n), x) == ReverseRowSource(f, row, i, j, x)
    decreases j - i
  {
    if i < j {
      var e := Exchange(Pos(f, row, i), Pos(f, row, j));
      ReverseRowSwapsSource(f, row, i + 1, j - 1, n, x);
      SourceCons(e, ReverseRowSwaps(f, row, i + 1, j - 1, n), x);
    }
  }

  // ---------------------------------------------------------------------------
  // reverseColumn: for (i = 0, j = size - 1; i < j; i++, j--) swap (f, i, col) with (f, j, col)

  function ReverseColumnSwaps(f: Face, col: int, i: int, j: int, n: nat): (es: seq<Exchange>)
    requires 0 <= col < n && 0 <= i && j < n
    ensures Within(n, es)
    decreases j - i
  {
    if i < j then
      var rest := ReverseColumnSwaps(f, col, i + 1, j - 1, n);
      WithinCons(n, Exchange(Pos(f, i, col), Pos(f, j, col)), rest);
      [Exchange(Pos(f, i, col), Pos(f, j, col))] + rest
    else []
  }

  /** Between rows i and j, the column reads backwards. */
  function ReverseColumnSource(f: Face, col: int, i: int, j: int, x: Pos): Pos {
    if x.face == f && x.col == col && i <= x.row <= j then Pos(f, i + j - x.row, col) else x
  }

  lemma {:induction false} ReverseColumnSwapsSource(f: Face, col: int, i: int, j: int, n: nat, x: Pos)
    requires 0 <= col < n && 0 <= i && j < n
    ensures Source(ReverseColumnSwaps(f, col, i, j, n), x) == ReverseColumnSource(f, col, i, j, x)
    decreases j - i
  {
    if i < j {
      var e := Exchange(Pos(f, i, col), Pos(f, j, col));
      ReverseColumnSwapsSource(f, col, i + 1, j - 1, n, x);
      SourceCons(e, ReverseColumnSwaps(f, col, i + 1, j - 1, n), x);
    }
  }

  // ---------------------------------------------------------------------------
  // reflectDiagonally: for (i = 0; i < size; i++) for (j = i + 1; j < size; j++)
  //                      swap (f, i, j) with (f, j, i)

  function DiagonalRowSwaps(f: Face, i: nat, j: nat, n: nat): (es: seq<Exchange>)
    requires i < n
    ensures Within(n, es)
    decreases n - j
  {
    if j < n then
      var rest := DiagonalRowSwaps(f, i, j + 1, n);
      WithinCons(n, Exchange(Pos(f, i, j), Pos(f, j, i)), rest);
      [Exchange(Pos(f, i, j), Pos(f, j, i))] + rest
    else []
  }

  function DiagonalSwaps(f: Face, i: nat, n: nat): (es: seq<Exchange>)
    ensures Within(n, es)
    decreases n - i
  {
    if i < n then
      var row := DiagonalRowSwaps(f, i, i + 1, n);
      var rest := DiagonalSwaps(f, i + 1, n);
      WithinAppend(n, row, rest);
      row + rest
    else []
  }

  /** The inner loop at row i from column j on: row i and column i of face f, beyond the
      diagonal, have been transposed. */
  function DiagonalRowSource(f: Face, i: int, j: int, x: Pos): Pos {
    if x.face == f && ((x.row == i && x.col >= j) || (x.col == i && x.row >= j)) then Pos(f, x.col, x.row)
    else x
  }

  /** The outer loop from row i on: the lower-right block of face f from (i, i) is transposed. */
  function DiagonalSource(f: Face, i: int, x: Pos): Pos {
    if x.face == f && x.row >= i && x.col >= i then Pos(f, x.col, x.row) else x
  }

  lemma {:induction false} DiagonalRowSwapsSource(f: Face, i: nat, j: nat, n: nat, x: Pos)
    requires i < j && i < n && InRange(n, x)
    ensures Source(DiagonalRowSwaps(f, i, j, n), x) == DiagonalRowSource(f, i, j, x)
    decreases n - j
  {
    if j < n {
      var e := Exchange(Pos(f, i, j), Pos(f, j, i));
      DiagonalRowSwapsSource(f, i, j + 1, n, x);
      SourceCons(e, DiagonalRowSwaps(f, i, j + 1, n), x);
    }
  }

  /** One row of the outer loop extends the transposed block by row and column i. */
  lemma DiagonalStep(f: Face, i: int, n: int, x: Pos)
    requires InRange(n, x)
    ensures InRange(n, DiagonalSource(f, i + 1, x))
    ensures DiagonalRowSource(f, i, i + 1, DiagonalSource(f, i + 1, x)) == DiagonalSource(f, i, x)
  {
  }

  lemma {:induction false} DiagonalSwapsSource(f: Face, i: nat, n: nat, x: Pos)
    requires InRange(n, x)
    ensures Source(DiagonalSwaps(f, i, n), x) == DiagonalSource(f, i, x)
    decreases n - i
  {
    if i < n {
      var row := DiagonalRowSwaps(f, i, i + 1, n);
      var rest := DiagonalSwaps(f, i + 1, n);
      assert DiagonalSwaps(f, i, n) == row + rest;
      DiagonalSwapsSource(f, i + 1, n, x);
      SourceAppend(row, rest, x);
      DiagonalStep(f, i, n, x);
      DiagonalRowSwapsSource(f, i, i + 1, n, DiagonalSource(f, i + 1, x));
    }
  }

  // ---------------------------------------------------------------------------
  // reflectHorizontally: for (i = 0; i < size; i++) for (j = 0; j < size / 2; j++)
  //                        swap (f, i, j) with (f, i, size - 1 - j)

  function HorizontalRowSwaps(f: Face, i: int, j: nat, n: nat): (es: seq<Exchange>)
    requires 0 <= i < n
    ensures Within(n, es)
    decreases n / 2 - j
  {
    if j < n / 2 then
      var rest := HorizontalRowSwaps(f, i, j + 1, n);
      WithinCons(n, Exchange(Pos(f, i, j), Pos(f, i, n - 1 - j)), rest);
      [Exchange(Pos(f, i, j), Pos(f, i, n - 1 - j))] + rest
    else []
  }

  function HorizontalSwaps(f: Face, i: nat, n: nat): (es: seq<Exchange>)
    ensures Within(n, es)
    decreases n - i
  {
    if i < n then
      var row := HorizontalRowSwaps(f, i, 0, n);
      var rest := HorizontalSwaps(f, i + 1, n);
      WithinAppend(n, row, rest);
      row + rest
    else []
  }

  /** The inner loop at row i from column j on: the outer columns of row i, from j in, have
      been mirrored left to right. */
  function HorizontalRowSource(f: Face, i: int, j: int, n: int, x: Pos): Pos {
    if x.face == f && x.row == i && ((j <= x.col < n / 2) || (j <= n - 1 - x.col < n / 2)) then
      Pos(f, i, n - 1 - x.col)
    else x
  }

  /** The outer loop from row i on: those rows of face f are mirrored left to right. */
  function HorizontalSource(f: Face, i: int, n: int, x: Pos): Pos {
    if x.face == f && x.row >= i then Pos(f, x.row, n - 1 - x.col) else x
  }

  /** One more step of the loop. */
  lemma HorizontalRowStep(f: Face, i: int, j: int, n: int, x: Pos)
    requires 0 <= i < n && InRange(n, x) && 0 <= j < n / 2
    ensures Swap(Exchange(Pos(f, i, j), Pos(f, i, n - 1 - j)), HorizontalRowSource(f, i, j + 1, n, x)) == HorizontalRowSource(f, i, j, n, x)
  {
  }

  lemma {:induction false} HorizontalRowSwapsSource(f: Face, i: int, j: nat, n: nat, x: Pos)
    requires 0 <= i < n && InRange(n, x)
    ensures Source(HorizontalRowSwaps(f, i, j, n), x) == HorizontalRowSource(f, i, j, n, x)
    decreases n / 2 - j
  {
    if j < n / 2 {
      var e := Exchange(Pos(f, i, j), Pos(f, i, n - 1 - j));
      assert HorizontalRowSwaps(f, i, j, n) == [e] + HorizontalRowSwaps(f, i, j + 1, n);
      HorizontalRowSwapsSource(f, i, j + 1, n, x);
      SourceCons(e, HorizontalRowSwaps(f, i, j + 1, n), x);
      HorizontalRowStep(f, i, j, n, x);
    }
  }

  /** One more row of the outer loop. */
  lemma HorizontalStep(f: Face, i: int, n: int, x: Pos)
    requires InRange(n, x) && 0 <= i && i < n
    ensures InRange(n, HorizontalSource(f, i + 1, n, x))
    ensures HorizontalRowSource(f, i, 0, n, HorizontalSource(f, i + 1, n, x)) == HorizontalSource(f, i, n, x)
  {
  }

  lemma {:induction false} HorizontalSwapsSource(f: Face, i: nat, n: nat, x: Pos)
    requires InRange(n, x)
    ensures Source(HorizontalSwaps(f, i, n), x) == HorizontalSource(f, i, n, x)
    decreases n - i
  {
    if i < n {
      var row := HorizontalRowSwaps(f, i, 0, n);
      var rest := HorizontalSwaps(f, i + 1, n);
      assert HorizontalSwaps(f, i, n) == row + rest;
      HorizontalSwapsSource(f, i + 1, n, x);
      SourceAppend(row, rest, x);
      HorizontalStep(f, i, n, x);
      HorizontalRowSwapsSource(f, i, 0, n, HorizontalSource(f, i + 1, n, x));
    }
  }

  // ---------------------------------------------------------------------------
  // reflectVertically: for (i = 0; i < size / 2; i++) for (j = 0; j < size; j++)
  //                      swap (f, i, j) with (f, size - 1 - i, j)

  function VerticalRowSwaps(f: Face, i: int, j: nat, n: nat): (es: seq<Exchange>)
    requires 0 <= i < n
    ensures Within(n, es)
    decreases n - j
  {
    if j < n then
      var rest := VerticalRowSwaps(f, i, j + 1, n);
      WithinCons(n, Exchange(Pos(f, i, j), Pos(f, n - 1 - i, j)), rest);
      [Exchange(Pos(f, i, j), Pos(f, n - 1 - i, j))] + rest
    else []
  }

  function VerticalSwaps(f: Face, i: nat, n: nat): (es: seq<Exchange>)
    ensures Within(n, es)
    decreases n / 2 - i
  {
    if i < n / 2 then
      var row := VerticalRowSwaps(f, i, 0, n);
      var rest := VerticalSwaps(f, i + 1, n);
      WithinAppend(n, row, rest);
      row + rest
    else []
  }

  /** The inner loop at row pair (i, size-1-i) from column j on: the two rows have traded
      places. */
  function VerticalRowSource(f: Face, i: int, j: int, n: int, x: Pos): Pos {
    if x.face == f && (x.row == i || x.row == n - 1 - i) && x.col >= j then Pos(f, n - 1 - x.row, x.col) else x
  }

  /** The outer loop from row pair i on: those row pairs of face f are mirrored top to bottom. */
  function VerticalSource(f: Face, i: int, n: int, x: Pos): Pos {
    if x.face == f && ((i <= x.row < n / 2) || (i <= n - 1 - x.row < n / 2)) then Pos(f, n - 1 - x.row, x.col)
    else x
  }

  lemma {:induction false} VerticalRowSwapsSource(f: Face, i: int, j: nat, n: nat, x: Pos)
    requires 0 <= i < n / 2 && InRange(n, x)
    ensures Source(VerticalRowSwaps(f, i, j, n), x) == VerticalRowSource(f, i, j, n, x)
    decreases n - j
  {
    if j < n {
      var e := Exchange(Pos(f, i, j), Pos(f, n - 1 - i, j));
      VerticalRowSwapsSource(f, i, j + 1, n, x);
      SourceCons(e, VerticalRowSwaps(f, i, j + 1, n), x);
    }
  }

  /** One more row pair of the outer loop. */
  lemma VerticalStep(f: Face, i: int, n: int, x: Pos)
    requires InRange(n, x) && 0 <= i && i < n / 2
    ensures InRange(n, VerticalSource(f, i + 1, n, x))
    ensures VerticalRowSource(f, i, 0, n, VerticalSource(f, i + 1, n, x)) == VerticalSource(f, i, n, x)
  {
  }

  lemma {:induction false} VerticalSwapsSource(f: Face, i: nat, n: nat, x: Pos)
    requires InRange(n, x)
    ensures Source(VerticalSwaps(f, i, n), x) == VerticalSource(f, i, n, x)
    decreases n / 2 - i
  {
    if i < n / 2 {
      var row := VerticalRowSwaps(f, i, 0, n);
      var rest := VerticalSwaps(f, i + 1, n);
      assert VerticalSwaps(f, i, n) == row + rest;
      VerticalSwapsSource(f, i + 1, n, x);
      SourceAppend(row, rest, x);
      VerticalStep(f, i, n, x);
      VerticalRowSwapsSource(f, i, 0, n, VerticalSource(f, i + 1, n, x));
    }
  }
}
