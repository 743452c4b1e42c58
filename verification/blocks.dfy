/** The building blocks of Rotation.java on a whole cube: line swaps, line reversals, the three
    reflections of a face and the two quarter-turns of a face. Each block is the corresponding
    loop's swaps performed on the cube; its `...At` lemma says, square by square, where the
    block takes every colour from. */
module RotationBlocks {
  import opened CubeSides
  import opened Cubes
  import opened Exchanges
  import opened RotationSteps
  import opened SwapLoops

  // ---------------------------------------------------------------------------
  // Swapping two lines

  /** swapRowAndRow: row ra of side a and row rb of side b trade places, column by column. */
  function SwapRowAndRow(c: Cube, a: Face, ra: int, b: Face, rb: int): (r: Cube)
    requires Valid(c) && 0 <= ra < c.size && 0 <= rb < c.size
    ensures Valid(r) && r.size == c.size
  {
    SwapAll(c, RowAndRowSwaps(a, ra, b, rb, 0, c.size))
  }

  lemma SwapRowAndRowAt(c: Cube, a: Face, ra: int, b: Face, rb: int, x: Pos)
    requires Valid(c) && 0 <= ra < c.size && 0 <= rb < c.size && InRange(c.size, x)
    ensures InRange(c.size, RowAndRowSource(a, ra, b, rb, 0, x))
    ensures At(SwapRowAndRow(c, a, ra, b, rb), x) == At(c, RowAndRowSource(a, ra, b, rb, 0, x))
  {
    SwapAllAt(c, RowAndRowSwaps(a, ra, b, rb, 0, c.size), x);
    RowAndRowSwapsSource(a, ra, b, rb, 0, c.size, x);
  }

  /** swapColumnAndColumn: column ca of side a and column cb of side b trade places, row by row. */
  function SwapColumnAndColumn(c: Cube, a: Face, ca: int, b: Face, cb: int): (r: Cube)
    requires Valid(c) && 0 <= ca < c.size && 0 <= cb < c.size
    ensures Valid(r) && r.size == c.size
  {
    SwapAll(c, ColumnAndColumnSwaps(a, ca, b, cb, 0, c.size))
  }

  lemma SwapColumnAndColumnAt(c: Cube, a: Face, ca: int, b: Face, cb: int, x: Pos)
    requires Valid(c) && 0 <= ca < c.size && 0 <= cb < c.size && InRange(c.size, x)
    ensures InRange(c.size, ColumnAndColumnSource(a, ca, b, cb, 0, x))
    ensures At(SwapColumnAndColumn(c, a, ca, b, cb), x) == At(c, ColumnAndColumnSource(a, ca, b, cb, 0, x))
  {
    SwapAllAt(c, ColumnAndColumnSwaps(a, ca, b, cb, 0, c.size), x);
    ColumnAndColumnSwapsSource(a, ca, b, cb, 0, c.size, x);
  }

  /** swapColumnAndRow: column col of side sc, read top-down, and row `row` of side sr, read
      left to right, trade places. */
  function SwapColumnAndRow(c: Cube, sc: Face, col: int, sr: Face, row: int): (r: Cube)
    requires Valid(c) && 0 <= col < c.size && 0 <= row < c.size
    ensures Valid(r) && r.size == c.size
  {
    SwapAll(c, ColumnAndRowSwaps(sc, col, sr, row, 0, c.size))
  }

  lemma SwapColumnAndRowAt(c: Cube, sc: Face, col: int, sr: Face, row: int, x: Pos)
    requires Valid(c) && 0 <= col < c.size && 0 <= row < c.size && sc != sr && InRange(c.size, x)
    ensures InRange(c.size, ColumnAndRowSource(sc, col, sr, row, 0, x))
    ensures At(SwapColumnAndRow(c, sc, col, sr, row), x) == At(c, ColumnAndRowSource(sc, col, sr, row, 0, x))
  {
    SwapAllAt(c, ColumnAndRowSwaps(sc, col, sr, row, 0, c.size), x);
    ColumnAndRowSwapsSource(sc, col, sr, row, 0, c.size, x);
  }

  // ---------------------------------------------------------------------------
  // Reversing a line

  /** reverseRow: row `row` of side f is reversed in place. */
  function ReverseRow(c: Cube, f: Face, row: int): (r: Cube)
    requires Valid(c) && 0 <= row < c.size
    ensures Valid(r) && r.size == c.size
  {
    SwapAll(c, ReverseRowSwaps(f, row, 0, c.size - 1, c.size))
  }

  lemma ReverseRowAt(c: Cube, f: Face, row: int, x: Pos)
    requires Valid(c) && 0 <= row < c.size && InRange(c.size, x)
    ensures InRange(c.size, ReverseRowSource(f, row, 0, c.size - 1, x))
    ensures At(ReverseRow(c, f, row), x) == At(c, ReverseRowSource(f, row, 0, c.size - 1, x))
  {
    SwapAllAt(c, ReverseRowSwaps(f, row, 0, c.size - 1, c.size), x);
    ReverseRowSwapsSource(f, row, 0, c.size - 1, c.size, x);
  }

  /** Reversing the same row twice restores the cube. */
  lemma ReverseRowTwice(c: Cube, f: Face, row: int)
    requires Valid(c) && 0 <= row < c.size
    ensures ReverseRow(ReverseRow(c, f, row), f, row) == c
  {
    var c1 := ReverseRow(c, f, row);
    forall x | InRange(c.size, x) ensures At(ReverseRow(c1, f, row), x) == At(c, x) {
      ReverseRowAt(c1, f, row, x);
      ReverseRowAt(c, f, row, x);
      ReverseRowAt(c, f, row, Pos(f, row, c.size - 1 - x.col));
    }
    CubeExt(ReverseRow(c1, f, row), c);
  }

  /** reverseColumn: column col of side f is reversed in place. */
  function ReverseColumn(c: Cube, f: Face, col: int): (r: Cube)
    requires Valid(c) && 0 <= col < c.size
    ensures Valid(r) && r.size == c.size
  {
    SwapAll(c, ReverseColumnSwaps(f, col, 0, c.size - 1, c.size))
  }

  lemma ReverseColumnAt(c: Cube, f: Face, col: int, x: Pos)
    requires Valid(c) && 0 <= col < c.size && InRange(c.size, x)
    ensures InRange(c.size, ReverseColumnSource(f, col, 0, c.size - 1, x))
    ensures At(ReverseColumn(c, f, col), x) == At(c, ReverseColumnSource(f, col, 0, c.size - 1, x))
  {
    SwapAllAt(c, ReverseColumnSwaps(f, col, 0, c.size - 1, c.size), x);
    ReverseColumnSwapsSource(f, col, 0, c.size - 1, c.size, x);
  }

  /** Reversing the same column twice restores the cube. */
  lemma ReverseColumnTwice(c: Cube, f: Face, col: int)
    requires Valid(c) && 0 <= col < c.size
    ensures ReverseColumn(ReverseColumn(c, f, col), f, col) == c
  {
    var c1 := ReverseColumn(c, f, col);
    forall x | InRange(c.size, x) ensures At(ReverseColumn(c1, f, col), x) == At(c, x) {
      ReverseColumnAt(c1, f, col, x);
      ReverseColumnAt(c, f, col, x);
      ReverseColumnAt(c, f, col, Pos(f, c.size - 1 - x.row, col));
    }
    CubeExt(ReverseColumn(c1, f, col), c);
  }

  // ---------------------------------------------------------------------------
  // Reflecting a face

  /** reflectDiagonally: side f is transposed. */
  function ReflectDiagonally(c: Cube, f: Face): (r: Cube)
    requires Valid(c)
    ensures Valid(r) && r.size == c.size
  {
    SwapAll(c, DiagonalSwaps(f, 0, c.size))
  }

  lemma ReflectDiagonallyAt(c: Cube, f: Face, x: Pos)
    requires Valid(c) && InRange(c.size, x)
    ensures At(ReflectDiagonally(c, f), x) ==
      if x.face == f then At(c, Pos(f, x.col, x.row)) else At(c, x)
  {
    SwapAllAt(c, DiagonalSwaps(f, 0, c.size), x);
    DiagonalSwapsSource(f, 0, c.size, x);
  }

  lemma ReflectDiagonallyTwice(c: Cube, f: Face)
    requires Valid(c)
    ensures ReflectDiagonally(ReflectDiagonally(c, f), f) == c
  {
    var c1 := ReflectDiagonally(c, f);
    forall x | InRange(c.size, x) ensures At(ReflectDiagonally(c1, f), x) == At(c, x) {
      ReflectDiagonallyAt(c1, f, x);
      ReflectDiagonallyAt(c, f, x);
      ReflectDiagonallyAt(c, f, Pos(f, x.col, x.row));
    }
    CubeExt(ReflectDiagonally(c1, f), c);
  }

  /** reflectHorizontally: side f is mirrored left to right. */
  function ReflectHorizontally(c: Cube, f: Face): (r: Cube)
    requires Valid(c)
    ensures Valid(r) && r.size == c.size
  {
    SwapAll(c, HorizontalSwaps(f, 0, c.size))
  }

  lemma ReflectHorizontallyAt(c: Cube, f: Face, x: Pos)
    requires Valid(c) && InRange(c.size, x)
    ensures At(ReflectHorizontally(c, f), x) ==
      if x.face == f then At(c, Pos(f, x.row, c.size - 1 - x.col)) else At(c, x)
  {
    SwapAllAt(c, HorizontalSwaps(f, 0, c.size), x);
    HorizontalSwapsSource(f, 0, c.size, x);
  }

  lemma ReflectHorizontallyTwice(c: Cube, f: Face)
    requires Valid(c)
    ensures ReflectHorizontally(ReflectHorizontally(c, f), f) == c
  {
    var c1 := ReflectHorizontally(c, f);
    forall x | InRange(c.size, x) ensures At(ReflectHorizontally(c1, f), x) == At(c, x) {
      ReflectHorizontallyAt(c1, f, x);
      ReflectHorizontallyAt(c, f, x);
      ReflectHorizontallyAt(c, f, Pos(f, x.row, c.size - 1 - x.col));
    }
    CubeExt(ReflectHorizontally(c1, f), c);
  }

  /** reflectVertically: side f is mirrored top to bottom. */
  function ReflectVertically(c: Cube, f: Face): (r: Cube)
    requires Valid(c)
    ensures Valid(r) && r.size == c.size
  {
    SwapAll(c, VerticalSwaps(f, 0, c.size))
  }

  lemma ReflectVerticallyAt(c: Cube, f: Face, x: Pos)
    requires Valid(c) && InRange(c.size, x)
    ensures At(ReflectVertically(c, f), x) ==
      if x.face == f then At(c, Pos(f, c.size - 1 - x.row, x.col)) else At(c, x)
  {
    SwapAllAt(c, VerticalSwaps(f, 0, c.size), x);
    VerticalSwapsSource(f, 0, c.size, x);
  }

  lemma ReflectVerticallyTwice(c: Cube, f: Face)
    requires Valid(c)
    ensures ReflectVertically(ReflectVertically(c, f), f) == c
  {
    var c1 := ReflectVertically(c, f);
    forall x | InRange(c.size, x) ensures At(ReflectVertically(c1, f), x) == At(c, x) {
      ReflectVerticallyAt(c1, f, x);
      ReflectVerticallyAt(c, f, x);
      ReflectVerticallyAt(c, f, Pos(f, c.size - 1 - x.row, x.col));
    }
    CubeExt(ReflectVertically(c1, f), c);
  }

  // ---------------------------------------------------------------------------
  // Quarter-turns of a face

  /** turnSideClockwise: a diagonal reflection followed by a horizontal one. */
  function TurnSideClockwise(c: Cube, f: Face): (r: Cube)
    requires Valid(c)
    ensures Valid(r) && r.size == c.size
  {
    ReflectHorizontally(ReflectDiagonally(c, f), f)
  }

  /** turnSideCounterClockwise: a diagonal reflection followed by a vertical one. */
  function TurnSideCounterClockwise(c: Cube, f: Face): (r: Cube)
    requires Valid(c)
    ensures Valid(r) && r.size == c.size
  {
    ReflectVertically(ReflectDiagonally(c, f), f)
  }

  /** Where a clockwise quarter-turn of face f takes square x's colour from:
      new[i][j] = old[size-1-j][i] on face f, everything else in place. */
  function ClockwiseSource(f: Face, n: int, x: Pos): Pos {
    if x.face == f then Pos(f, n - 1 - x.col, x.row) else x
  }

  /** The counter-clockwise quarter-turn: new[i][j] = old[j][size-1-i] on face f. */
  function CounterClockwiseSource(f: Face, n: int, x: Pos): Pos {
    if x.face == f then Pos(f, x.col, n - 1 - x.row) else x
  }

  lemma TurnSideClockwiseAt(c: Cube, f: Face, x: Pos)
    requires Valid(c) && InRange(c.size, x)
    ensures InRange(c.size, ClockwiseSource(f, c.size, x))
    ensures At(TurnSideClockwise(c, f), x) == At(c, ClockwiseSource(f, c.size, x))
  {
    var n := c.size;
    var c1 := ReflectDiagonally(c, f);
    assert TurnSideClockwise(c, f) == ReflectHorizontally(c1, f);
    ReflectHorizontallyAt(c1, f, x);
    if x.face == f {
      var y := Pos(f, x.row, n - 1 - x.col);
      assert InRange(n, y);
      ReflectDiagonallyAt(c, f, y);
      assert At(c1, y) == At(c, Pos(f, n - 1 - x.col, x.row));
    } else {
      ReflectDiagonallyAt(c, f, x);
    }
  }

  lemma TurnSideCounterClockwiseAt(c: Cube, f: Face, x: Pos)
    requires Valid(c) && InRange(c.size, x)
    ensures InRange(c.size, CounterClockwiseSource(f, c.size, x))
    ensures At(TurnSideCounterClockwise(c, f), x) == At(c, CounterClockwiseSource(f, c.size, x))
  {
    var n := c.size;
    var c1 := ReflectDiagonally(c, f);
    assert TurnSideCounterClockwise(c, f) == ReflectVertically(c1, f);
    ReflectVerticallyAt(c1, f, x);
    if x.face == f {
      var y := Pos(f, n - 1 - x.row, x.col);
      assert InRange(n, y);
      ReflectDiagonallyAt(c, f, y);
      assert At(c1, y) == At(c, Pos(f, x.col, n - 1 - x.row));
    } else {
      ReflectDiagonallyAt(c, f, x);
    }
  }

  /** A clockwise turn undoes a counter-clockwise one. */
  lemma ClockwiseUndoesCounterClockwise(c: Cube, f: Face)
    requires Valid(c)
    ensures TurnSideClockwise(TurnSideCounterClockwise(c, f), f) == c
  {
    var c1 := TurnSideCounterClockwise(c, f);
    var c2 := TurnSideClockwise(c1, f);
    forall x | InRange(c.size, x) ensures At(c2, x) == At(c, x) {
      TurnSideClockwiseAt(c1, f, x);
      TurnSideCounterClockwiseAt(c, f, ClockwiseSource(f, c.size, x));
    }
    CubeExt(c2, c);
  }

  /** A counter-clockwise turn undoes a clockwise one. */
  lemma CounterClockwiseUndoesClockwise(c: Cube, f: Face)
    requires Valid(c)
    ensures TurnSideCounterClockwise(TurnSideClockwise(c, f), f) == c
  {
    var c1 := TurnSideClockwise(c, f);
    var c2 := TurnSideCounterClockwise(c1, f);
    forall x | InRange(c.size, x) ensures At(c2, x) == At(c, x) {
      TurnSideCounterClockwiseAt(c1, f, x);
      TurnSideClockwiseAt(c, f, CounterClockwiseSource(f, c.size, x));
    }
    CubeExt(c2, c);
  }

  /** Four clockwise quarter-turns of a face, read at one square. */
  lemma TurnSideClockwiseFourAt(c: Cube, f: Face, x: Pos)
    requires Valid(c) && InRange(c.size, x)
    ensures At(TurnSideClockwise(TurnSideClockwise(TurnSideClockwise(TurnSideClockwise(c, f), f), f), f), x) == At(c, x)
  {
    var n := c.size;
    var c1 := TurnSideClockwise(c, f);
    var c2 := TurnSideClockwise(c1, f);
    var c3 := TurnSideClockwise(c2, f);
    var y1 := ClockwiseSource(f, n, x);
    var y2 := ClockwiseSource(f, n, y1);
    var y3 := ClockwiseSource(f, n, y2);
    assert ClockwiseSource(f, n, y3) == x;
    TurnSideClockwiseAt(c3, f, x);
    TurnSideClockwiseAt(c2, f, y1);
    TurnSideClockwiseAt(c1, f, y2);
    TurnSideClockwiseAt(c, f, y3);
  }

  /** Four clockwise quarter-turns of a face restore the cube. */
  lemma TurnSideClockwiseFour(c: Cube, f: Face)
    requires Valid(c)
    ensures TurnSideClockwise(TurnSideClockwise(TurnSideClockwise(TurnSideClockwise(c, f), f), f), f) == c
  {
    forall x | InRange(c.size, x)
      ensures At(TurnSideClockwise(TurnSideClockwise(TurnSideClockwise(TurnSideClockwise(c, f), f), f), f), x) == At(c, x)
    {
      TurnSideClockwiseFourAt(c, f, x);
    }
    CubeExt(TurnSideClockwise(TurnSideClockwise(TurnSideClockwise(TurnSideClockwise(c, f), f), f), f), c);
  }
}
