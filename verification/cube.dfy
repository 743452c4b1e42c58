/** The cube's grid (Cube.java): six faces of size x size squares.
    The model keeps each face as a sequence of rows; Cube.java's row-major layout,
    squares[side][row * size + col], is the view `Squares`, and `Flatten` lists every
    square face by face, row by row, in the order toString prints them. */
module Cubes {
  import opened Wrappers
  import opened CubeSides
  import opened CubeColors
  import opened SeqUtil
  import opened JavaInts

  /** A square of the cube: a face and a row and column on it. */
  datatype Pos = Pos(face: Face, row: int, col: int)

  predicate InRange(n: int, x: Pos) {
    0 <= x.row < n && 0 <= x.col < n
  }

  datatype Cube = Cube(size: nat, grid: seq<seq<seq<Paint>>>)

  /** Six faces of size rows of size squares; the constructor rejects size <= 0. */
  predicate Valid(c: Cube) {
    && c.size > 0
    && |c.grid| == FaceCount
    && forall f :: 0 <= f < FaceCount ==> |c.grid[f]| == c.size && Uniform(c.grid[f], c.size)
  }

  /** The colour of square x. */
  function At(c: Cube, x: Pos): Paint
    requires Valid(c) && InRange(c.size, x)
  {
    c.grid[Index(x.face)][x.row][x.col]
  }

  /** Paints square x with v. */
  function Put(c: Cube, x: Pos, v: Paint): (r: Cube)
    requires Valid(c) && InRange(c.size, x)
    ensures Valid(r) && r.size == c.size
  {
    var f := Index(x.face);
    Cube(c.size, c.grid[f := c.grid[f][x.row := c.grid[f][x.row][x.col := v]]])
  }

  /** After painting square x with v, x holds v and every other square keeps its colour. */
  lemma PutAt(c: Cube, x: Pos, v: Paint, y: Pos)
    requires Valid(c) && InRange(c.size, x) && InRange(c.size, y)
    ensures At(Put(c, x, v), y) == if y == x then v else At(c, y)
  {
  }

  /** Two cubes of one size with the same colour on every square are the same cube. */
  lemma CubeExt(a: Cube, b: Cube)
    requires Valid(a) && Valid(b) && a.size == b.size
    requires forall x :: InRange(a.size, x) ==> At(a, x) == At(b, x)
    ensures a == b
  {
    forall f | 0 <= f < FaceCount
      ensures a.grid[f] == b.grid[f]
    {
      forall r | 0 <= r < a.size
        ensures a.grid[f][r] == b.grid[f][r]
      {
        forall k | 0 <= k < a.size
          ensures a.grid[f][r][k] == b.grid[f][r][k]
        {
          assert At(a, Pos(FaceOf(f), r, k)) == At(b, Pos(FaceOf(f), r, k));
        }
      }
    }
  }

  // ---------------------------------------------------------------------------
  // Solving

  /** The colour every square of face f has on a solved cube: Color.fromInt of the face's code. */
  function SolvedColor(f: Face): (p: Paint)
    ensures p.IntValue() == f.IntValue()
  {
    PaintOf(Index(f))
  }

  /** solve(): every face painted in the colour with its own code. */
  function Solve(c: Cube): (r: Cube)
    requires c.size > 0
    ensures Valid(r) && r.size == c.size
    ensures forall x :: InRange(r.size, x) ==> At(r, x).IntValue() == x.face.IntValue()
  {
    Cube(c.size, seq(FaceCount, f requires 0 <= f < FaceCount =>
                       seq(c.size, _ => seq(c.size, _ => PaintOf(f)))))
  }

  /** The largest size whose size * size is still a Java int, so that the constructor's
      face arrays of length size * size exist. */
  const MaxSize: int := 46340

  lemma MaxSizeBound()
    ensures MaxSize * MaxSize <= IntMax < (MaxSize + 1) * (MaxSize + 1)
  {
  }

  /** The constructor: size must be positive, and the new cube is solved. */
  function NewCube(size: int): (r: Cube)
    requires size > 0
    ensures Valid(r) && r.size == size && IsSolved(r)
  {
    Solve(Cube(size, []))
  }

  /** isSolved(): every square has the colour of its face. */
  ghost predicate IsSolved(c: Cube)
    requires Valid(c)
  {
    forall x :: InRange(c.size, x) ==> At(c, x) == SolvedColor(x.face)
  }

  /** A cube is solved exactly when it equals the result of solving it. */
  lemma SolvedIffSolve(c: Cube)
    requires Valid(c)
    ensures IsSolved(c) <==> c == Solve(c)
  {
    if IsSolved(c) {
      CubeExt(c, Solve(c));
    }
  }

  /** isSolved() as Cube.java scans it: every cell squares[side][k] holds Color.fromInt(side). */
  predicate SquaresSolved(c: Cube)
    requires Valid(c)
  {
    var sq := Squares(c);
    forall f, k :: 0 <= f < FaceCount && 0 <= k < c.size * c.size ==> sq[f][k] == PaintOf(f)
  }

  /** The scan over the row-major arrays agrees with the square-by-square definition. */
  lemma SquaresSolvedIff(c: Cube)
    requires Valid(c)
    ensures SquaresSolved(c) <==> IsSolved(c)
  {
    var sq := Squares(c);
    if IsSolved(c) {
      forall f, k | 0 <= f < FaceCount && 0 <= k < c.size * c.size
        ensures sq[f][k] == PaintOf(f)
      {
        var x := Unflatten(c.size, FaceOf(f), k);
        assert RowMajor(c.size, x) == k;
      }
    }
  }

  // ---------------------------------------------------------------------------
  // Row-major views

  /** Where square x sits in its face's row-major array: row * size + col. */
  function RowMajor(n: nat, x: Pos): (k: int)
    requires InRange(n, x)
    ensures k == x.row * n + x.col && 0 <= k < n * n
  {
    BlockBound(n, x.row, x.col, n);
    n * x.row + x.col
  }

  /** Where square x sits when the faces are laid out one after another, each row-major:
      toString's index col + size * (row + size * side). */
  function Offset(n: nat, x: Pos): (o: int)
    requires InRange(n, x)
    ensures o == x.col + n * (x.row + n * Index(x.face))
    ensures o == n * n * Index(x.face) + RowMajor(n, x)
    ensures 0 <= o < FaceCount * (n * n)
  {
    OffsetFormula(n, x);
    BlockBound(n * n, Index(x.face), RowMajor(n, x), FaceCount);
    n * n * Index(x.face) + RowMajor(n, x)
  }

  /** One face laid out row-major. */
  function FaceCells(c: Cube, f: nat): (r: seq<Paint>)
    requires Valid(c) && f < FaceCount
    ensures |r| == c.size * c.size
  {
    ConcatLength(c.grid[f], c.size);
    Concat(c.grid[f])
  }

  /** Every square, face by face in code order, each face row-major. */
  function Flatten(c: Cube): (r: seq<Paint>)
    requires Valid(c)
    ensures |r| == FaceCount * (c.size * c.size)
  {
    var faces := seq(FaceCount, f requires 0 <= f < FaceCount => FaceCells(c, f));
    ConcatLength(faces, c.size * c.size);
    Concat(faces)
  }

  lemma FlattenIndex(c: Cube, x: Pos)
    requires Valid(c) && InRange(c.size, x)
    ensures 0 <= Offset(c.size, x) < |Flatten(c)|
    ensures Flatten(c)[Offset(c.size, x)] == At(c, x)
  {
    var n := c.size;
    var f := Index(x.face);
    var k := RowMajor(n, x);
    var faces := seq(FaceCount, f requires 0 <= f < FaceCount => FaceCells(c, f));
    ConcatIndex(c.grid[f], n, x.row, x.col);
    assert faces[f][k] == At(c, x);
    assert Uniform(faces, n * n);
    ConcatIndex(faces, n * n, f, k);
  }

  /** Painting one square updates the flat listing at that square's offset. */
  lemma FlattenPut(c: Cube, x: Pos, v: Paint)
    requires Valid(c) && InRange(c.size, x)
    ensures 0 <= Offset(c.size, x) < |Flatten(c)|
    ensures Flatten(Put(c, x, v)) == Flatten(c)[Offset(c.size, x) := v]
  {
    var n := c.size;
    var f := Index(x.face);
    var r := Put(c, x, v);
    var faces := seq(FaceCount, f requires 0 <= f < FaceCount => FaceCells(c, f));
    var faces' := seq(FaceCount, f requires 0 <= f < FaceCount => FaceCells(r, f));
    ConcatUpdate(c.grid[f], n, x.row, x.col, v);
    assert faces' == faces[f := faces[f][RowMajor(n, x) := v]];
    ConcatUpdate(faces, n * n, f, RowMajor(n, x), v);
    FlattenIndex(c, x);
  }

  /** squares / getCopyOfSquares(): each face as one row-major array. */
  function Squares(c: Cube): (r: seq<seq<Paint>>)
    requires Valid(c)
    ensures |r| == FaceCount && forall f :: 0 <= f < FaceCount ==> |r[f]| == c.size * c.size
    ensures forall x :: InRange(c.size, x) ==> r[Index(x.face)][RowMajor(c.size, x)] == At(c, x)
  {
    var r := seq(FaceCount, f requires 0 <= f < FaceCount => FaceCells(c, f));
    assert forall x :: InRange(c.size, x) ==> r[Index(x.face)][RowMajor(c.size, x)] == At(c, x) by {
      forall x | InRange(c.size, x)
        ensures r[Index(x.face)][RowMajor(c.size, x)] == At(c, x)
      {
        ConcatIndex(c.grid[Index(x.face)], c.size, x.row, x.col);
      }
    }
    r
  }

  /** The square a flat face index k stands for: row k / size, column k % size. */
  function Unflatten(n: nat, s: Face, k: int): (x: Pos)
    requires 0 <= k < n * n
    ensures InRange(n, x) && x.face == s && x.row * n + x.col == k
  {
    Pos(s, k / n, k % n)
  }

  /** The array index row * size + col as Java computes it: the product wraps to an int,
      and so does the sum. */
  function CellIndex(n: int, row: int, col: int): (k: int)
    ensures k == Wrap32(row * n + col)
  {
    WrapAdd(row * n, col);
    Wrap32(Wrap32(row * n) + col)
  }

  /** Cell k of face side's row-major array; the sentinel sides and an index outside the
      face throw. */
  function ReadCell(c: Cube, side: Side, k: int): (r: Result<Paint>)
    requires Valid(c)
    ensures r.Success? <==> side.IsFace() && 0 <= k < c.size * c.size
    ensures r.Success? ==> r.value == At(c, Unflatten(c.size, side, k))
  {
    if side.IsFace() && 0 <= k < c.size * c.size then
      var x := Unflatten(c.size, side, k);
      assert RowMajor(c.size, x) == k;
      Success(Squares(c)[Index(side)][k])
    else Failure(IndexOutOfRange)
  }

  /** Writing cell k of face side's row-major array. */
  function WriteCell(c: Cube, color: Paint, side: Side, k: int): (r: Result<Cube>)
    requires Valid(c)
    ensures r.Success? <==> side.IsFace() && 0 <= k < c.size * c.size
    ensures r.Success? ==> Valid(r.value) && r.value.size == c.size
  {
    if side.IsFace() && 0 <= k < c.size * c.size then Success(Put(c, Unflatten(c.size, side, k), color))
    else Failure(IndexOutOfRange)
  }

  /** A write is read back at its own cell and nowhere else. */
  lemma WriteThenRead(c: Cube, color: Paint, side: Side, k: int, side': Side, k': int)
    requires Valid(c) && WriteCell(c, color, side, k).Success?
    ensures ReadCell(WriteCell(c, color, side, k).value, side', k') ==
      if side' == side && k' == k then Success(color) else ReadCell(c, side', k')
  {
    var n := c.size;
    var x := Unflatten(n, side, k);
    if side'.IsFace() && 0 <= k' < n * n {
      PutAt(c, x, color, Unflatten(n, side', k'));
    }
  }

  /** getSquareColor: the array access squares[side.intValue()][row * size + col], which
      throws for the sentinel sides and for an index outside the face. The index is an
      int, so a row far outside the face can wrap around onto a square of it. */
  function GetSquareColor(c: Cube, side: Side, row: int, col: int): (r: Result<Paint>)
    requires Valid(c)
    ensures r.Success? <==> side.IsFace() && 0 <= Wrap32(row * c.size + col) < c.size * c.size
    ensures r.Success? ==> r.value == At(c, Unflatten(c.size, side, Wrap32(row * c.size + col)))
  {
    ReadCell(c, side, CellIndex(c.size, row, col))
  }

  /** Distinct squares of one face have distinct row-major indices. */
  lemma RowMajorInjective(n: nat, x: Pos, y: Pos)
    requires InRange(n, x) && InRange(n, y) && x.face == y.face && RowMajor(n, x) == RowMajor(n, y)
    ensures x == y
  {
    if x.row < y.row {
      MulMono(n, x.row, y.row);
    } else if y.row < x.row {
      MulMono(n, y.row, x.row);
    }
  }

  /** On a cube Java can allocate, the index of an in-range square is an int, so it does not
      wrap. */
  lemma RowMajorFits(n: nat, x: Pos)
    requires InRange(n, x) && n <= MaxSize
    ensures RowMajor(n, x) <= IntMax
  {
    SquareFits(n);
  }

  /** A square in range is read by getSquareColor at its own row and column, on every cube
      whose faces Java can allocate. */
  lemma GetInRange(c: Cube, x: Pos)
    requires Valid(c) && InRange(c.size, x) && c.size <= MaxSize
    ensures GetSquareColor(c, x.face, x.row, x.col) == Success(At(c, x))
  {
    var n := c.size;
    var k := RowMajor(n, x);
    RowMajorFits(n, x);
    assert CellIndex(n, x.row, x.col) == k;
    RowMajorInjective(n, x, Unflatten(n, x.face, k));
    assert ReadCell(c, x.face, k) == Success(At(c, x));
  }

  /** Rows k apart name the same array cell when k * size is a multiple of 2^32: the index
      wraps. On a size-4 cube, for instance, the int rows 2^30 and 0 read the same cells. */
  lemma GetRowWraps(c: Cube, side: Side, row: int, col: int, k: int)
    requires Valid(c) && (k * c.size) % Modulus == 0
    ensures GetSquareColor(c, side, row + k, col) == GetSquareColor(c, side, row, col)
  {
    var n := c.size;
    var v := row * n + col;
    var q := (k * n) / Modulus;
    assert k * n == q * Modulus;
    assert (row + k) * n == row * n + k * n;
    WrapPeriodic(v, q);
    assert CellIndex(n, row + k, col) == CellIndex(n, row, col);
  }

  /** On a size-4 cube, row 2^30 is read from row 0: 2^30 * 4 = 2^32 wraps to 0. */
  lemma GetAliasSizeFour(c: Cube, side: Side, col: int)
    requires Valid(c) && c.size == 4
    ensures GetSquareColor(c, side, 0x4000_0000, col) == GetSquareColor(c, side, 0, col)
  {
    assert (0x4000_0000 * c.size) % Modulus == 0;
    GetRowWraps(c, side, 0, col, 0x4000_0000);
  }

  /** On a size-3 cube, row 1431655766 of column 0 is read from square (0, 2): the index
      1431655766 * 3 = 2^32 + 2 wraps to 2. */
  lemma GetAliasSizeThree(c: Cube, side: Side)
    requires Valid(c) && c.size == 3 && side.IsFace()
    ensures GetSquareColor(c, side, 1431655766, 0) == Success(At(c, Pos(side, 0, 2)))
  {
    assert Wrap32(1431655766 * 3 + 0) == 2;
  }

  /** setSquareColor: writes the same array cell that getSquareColor reads, at the same
      wrapped int index. */
  function SetSquareColor(c: Cube, color: Paint, side: Side, row: int, col: int): (r: Result<Cube>)
    requires Valid(c)
    ensures r.Success? <==> side.IsFace() && 0 <= Wrap32(row * c.size + col) < c.size * c.size
    ensures r.Success? ==> Valid(r.value) && r.value.size == c.size
  {
    WriteCell(c, color, side, CellIndex(c.size, row, col))
  }

  /** Setting a square and reading it back yields the colour. */
  lemma SetThenGet(c: Cube, color: Paint, side: Side, row: int, col: int)
    requires Valid(c) && SetSquareColor(c, color, side, row, col).Success?
    ensures GetSquareColor(SetSquareColor(c, color, side, row, col).value, side, row, col) == Success(color)
  {
    WriteThenRead(c, color, side, CellIndex(c.size, row, col), side, CellIndex(c.size, row, col));
  }

  /** Setting a square leaves every other array cell as it was, and invalid reads invalid. */
  lemma SetThenGetOther(c: Cube, color: Paint, side: Side, row: int, col: int, side': Side, row': int, col': int)
    requires Valid(c) && SetSquareColor(c, color, side, row, col).Success?
    requires side' != side || Wrap32(row' * c.size + col') != Wrap32(row * c.size + col)
    ensures GetSquareColor(SetSquareColor(c, color, side, row, col).value, side', row', col') == GetSquareColor(c, side', row', col')
  {
    WriteThenRead(c, color, side, CellIndex(c.size, row, col), side', CellIndex(c.size, row', col'));
  }

  /** equals(): same size and the same colour in every array cell. */
  predicate Equals(a: Cube, b: Cube)
    requires Valid(a) && Valid(b)
  {
    a.size == b.size && Squares(a) == Squares(b)
  }

  /** equals() holds exactly for equal cubes. */
  lemma EqualsIff(a: Cube, b: Cube)
    requires Valid(a) && Valid(b)
    ensures Equals(a, b) <==> a == b
  {
    if Equals(a, b) {
      forall x | InRange(a.size, x)
        ensures At(a, x) == At(b, x)
      {
        assert Squares(a)[Index(x.face)][x.row * a.size + x.col] == Squares(b)[Index(x.face)][x.row * a.size + x.col];
      }
      CubeExt(a, b);
    }
  }

  // ---------------------------------------------------------------------------
  // Text and colour counts

  /** toString(): one digit per square, in the order of Flatten, written into a char array
      of length 6 * size * size. That length is an int: when the product wraps below zero
      the allocation throws, and when it wraps to a smaller length the loop's writes run
      past the end of the array at index length. */
  function ToString(c: Cube): (r: Result<string>)
    requires Valid(c)
    ensures r.Success? <==> FaceCount * (c.size * c.size) <= IntMax
    ensures r.Failure? ==> r.error == if Wrap32(FaceCount * c.size * c.size) < 0 then NegativeArraySize else IndexOutOfRange
    ensures r.Success? ==> |r.value| == FaceCount * (c.size * c.size)
    ensures r.Success? ==> forall x :: InRange(c.size, x) ==> r.value[Offset(c.size, x)] == At(c, x).CharValue()
  {
    var length := Wrap32(FaceCount * c.size * c.size);
    if length < 0 then Failure(NegativeArraySize)
    else if length < FaceCount * (c.size * c.size) then Failure(IndexOutOfRange)
    else
      var cells := Flatten(c);
      var s := seq(|cells|, i requires 0 <= i < |cells| => cells[i].CharValue());
      assert forall x :: InRange(c.size, x) ==> s[Offset(c.size, x)] == At(c, x).CharValue() by {
        forall x | InRange(c.size, x)
          ensures s[Offset(c.size, x)] == At(c, x).CharValue()
        {
          FlattenIndex(c, x);
        }
      }
      Success(s)
  }

  /** toString's index col + size * (row + size * side), regrouped. */
  lemma OffsetFormula(n: nat, x: Pos)
    ensures x.col + n * (x.row + n * Index(x.face)) == n * n * Index(x.face) + (n * x.row + x.col)
  {
    var f := Index(x.face);
    assert n * (x.row + n * f) == n * x.row + n * (n * f);
    assert n * (n * f) == n * n * f;
  }

  /** The multiset of colours on the cube. */
  function Bag(c: Cube): multiset<Paint>
    requires Valid(c)
  {
    multiset(Flatten(c))
  }

  /** Each of the six colours occurs exactly size * size times. */
  predicate Legal(c: Cube)
    requires Valid(c)
  {
    forall k :: 0 <= k < ColorCount ==> Bag(c)[PaintOf(k)] == c.size * c.size
  }

  /** counts[k] is how often colour k occurs in the multiset m. */
  ghost predicate Counted(counts: seq<int>, m: multiset<Paint>) {
    |counts| == ColorCount && forall k :: 0 <= k < ColorCount ==> counts[k] == m[PaintOf(k)]
  }

  /** Counting one more square: increment the count of its colour. */
  lemma CountStep(counts: seq<int>, m: multiset<Paint>, p: Paint)
    requires Counted(counts, m)
    ensures Counted(counts[p.IntValue() := counts[p.IntValue()] + 1], m + multiset{p})
  {
  }

  /** Concatenating one more block. */
  lemma ConcatSnoc<T>(ss: seq<seq<T>>, i: nat)
    requires i < |ss|
    ensures Concat(ss[..i + 1]) == Concat(ss[..i]) + ss[i]
  {
    assert ss[..i + 1][..i] == ss[..i];
  }

  /** The innermost loop of isLegal(): count the squares of one row. */
  method CountRow(row: seq<Paint>, counts0: seq<int>, ghost before: multiset<Paint>) returns (counts: seq<int>)
    requires Counted(counts0, before)
    ensures Counted(counts, before + multiset(row))
  {
    counts := counts0;
    var col := 0;
    while col < |row|
      invariant 0 <= col <= |row|
      invariant Counted(counts, before + multiset(row[..col]))
    {
      var p := row[col];
      CountStep(counts, before + multiset(row[..col]), p);
      assert row[..col + 1] == row[..col] + [p];
      counts := counts[p.IntValue() := counts[p.IntValue()] + 1];
      col := col + 1;
    }
    assert row[..col] == row;
  }

  /** The middle loop of isLegal(): count the squares of one face, row by row. */
  method CountFace(rows: seq<seq<Paint>>, counts0: seq<int>, ghost before: multiset<Paint>) returns (counts: seq<int>)
    requires Counted(counts0, before)
    ensures Counted(counts, before + multiset(Concat(rows)))
  {
    counts := counts0;
    var row := 0;
    while row < |rows|
      invariant 0 <= row <= |rows|
      invariant Counted(counts, before + multiset(Concat(rows[..row])))
    {
      counts := CountRow(rows[row], counts, before + multiset(Concat(rows[..row])));
      ConcatSnoc(rows, row);
      row := row + 1;
    }
    assert rows[..row] == rows;
  }

  /** The counting part of isLegal(): the outer loop over the sides. */
  method CountColors(c: Cube) returns (counts: seq<int>)
    requires Valid(c)
    ensures Counted(counts, Bag(c))
  {
    ghost var faces := seq(FaceCount, f requires 0 <= f < FaceCount => FaceCells(c, f));
    counts := seq(ColorCount, _ => 0);
    var side := 0;
    while side < FaceCount
      invariant 0 <= side <= FaceCount
      invariant Counted(counts, multiset(Concat(faces[..side])))
    {
      counts := CountFace(c.grid[side], counts, multiset(Concat(faces[..side])));
      ConcatSnoc(faces, side);
      side := side + 1;
    }
    assert faces[..side] == faces;
  }

  /** isLegal(): every colour's count equals size * size. */
  method IsLegal(c: Cube) returns (legal: bool)
    requires Valid(c)
    ensures legal <==> Legal(c)
  {
    var n := c.size;
    var counts := CountColors(c);
    legal := true;
    var i := 0;
    while i < ColorCount
      invariant 0 <= i <= ColorCount
      invariant legal <==> forall k :: 0 <= k < i ==> counts[k] == n * n
    {
      if counts[i] != n * n {
        legal := false;
      }
      i := i + 1;
    }
  }

  /** isLegal's counters are ints, so a colour on more than 2^31 - 1 squares wraps its
      counter. On a cube Java can build this never changes the answer: every count is
      non-negative and the counts sum to 6 * size * size, so all wrapped counts equal
      size * size exactly when all exact counts do. */
  lemma LegalUnderWrap(c: Cube)
    requires Valid(c) && c.size <= MaxSize
    ensures (forall k :: 0 <= k < ColorCount ==> Wrap32(Bag(c)[PaintOf(k)]) == c.size * c.size) <==> Legal(c)
  {
    var m := Bag(c);
    var n2 := c.size * c.size;
    SquareFits(c.size);
    if forall k :: 0 <= k < ColorCount ==> Wrap32(m[PaintOf(k)]) == n2 {
      forall k | 0 <= k < ColorCount
        ensures m[PaintOf(k)] >= n2
      {
        WrapLower(m[PaintOf(k)], n2);
      }
      CountSumAll(Flatten(c));
      CountsAtLeast(m, n2);
    }
  }

  /** Six counts, each at least w, adding up to 6 * w are all w. */
  lemma CountsAtLeast(m: multiset<Paint>, w: int)
    requires forall k :: 0 <= k < ColorCount ==> m[PaintOf(k)] >= w
    requires CountSum(m, ColorCount) == FaceCount * w
    ensures forall k :: 0 <= k < ColorCount ==> m[PaintOf(k)] == w
  {
    assert CountSum(m, 1) == m[PaintOf(0)];
    assert CountSum(m, 2) == CountSum(m, 1) + m[PaintOf(1)];
    assert CountSum(m, 3) == CountSum(m, 2) + m[PaintOf(2)];
    assert CountSum(m, 4) == CountSum(m, 3) + m[PaintOf(3)];
    assert CountSum(m, 5) == CountSum(m, 4) + m[PaintOf(4)];
    assert CountSum(m, 6) == CountSum(m, 5) + m[PaintOf(5)];
  }

  /** size * size is an int for every size up to MaxSize. */
  lemma SquareFits(n: nat)
    requires n <= MaxSize
    ensures n * n <= IntMax
  {
    MaxSizeBound();
    if n < MaxSize {
      MulMono(n, n, MaxSize);
      MulMono(MaxSize, n, MaxSize);
    }
  }

  /** A non-negative value that wraps to the int w is at least w. */
  lemma WrapLower(v: int, w: int)
    requires v >= 0 && 0 <= w <= IntMax && Wrap32(v) == w
    ensures v >= w
  {
  }

  /** The number of elements of m with a colour code below k. */
  ghost function CountSum(m: multiset<Paint>, k: nat): int
    requires k <= ColorCount
  {
    if k == 0 then 0 else CountSum(m, k - 1) + m[PaintOf(k - 1)]
  }

  /** Adding a square of colour p raises the sum for codes below k by one when p's code is
      among them. */
  lemma {:induction false} CountSumAdd(m: multiset<Paint>, p: Paint, k: nat)
    requires k <= ColorCount
    ensures CountSum(m + multiset{p}, k) == CountSum(m, k) + if p.IntValue() < k then 1 else 0
  {
    if k > 0 {
      CountSumAdd(m, p, k - 1);
      CodesRoundTrip(p, PaintOf(k - 1));
    }
  }

  /** Every square has one of the six colours: the six counts add up to the length. */
  lemma {:induction false} CountSumAll(s: seq<Paint>)
    ensures CountSum(multiset(s), ColorCount) == |s|
  {
    if |s| == 0 {
      assert forall k | 0 <= k <= ColorCount :: CountSum(multiset(s), k) == 0 by {
        forall k | 0 <= k <= ColorCount
          ensures CountSum(multiset(s), k) == 0
        {
          CountSumEmpty(k);
        }
      }
    } else {
      var init := s[..|s| - 1];
      var p := s[|s| - 1];
      assert s == init + [p];
      assert multiset(s) == multiset(init) + multiset{p};
      CountSumAll(init);
      CountSumAdd(multiset(init), p, ColorCount);
      CodesRoundTrip(p, p);
    }
  }

  lemma {:induction false} CountSumEmpty(k: nat)
    requires k <= ColorCount
    ensures CountSum(multiset{}, k) == 0
  {
    if k > 0 {
      CountSumEmpty(k - 1);
    }
  }

  // ---------------------------------------------------------------------------
  // The solved cube, flat

  /** The faces of a solved cube, each row-major: m squares of the face's own colour. */
  function SolvedFaces(m: nat): (ss: seq<seq<Paint>>)
    ensures |ss| == FaceCount && Uniform(ss, m)
  {
    seq(FaceCount, f requires 0 <= f < FaceCount => Repeat<Paint>(PaintOf(f), m))
  }

  /** Laid out flat, a solved cube is face 0's colour size*size times, then face 1's, ... */
  lemma SolveFlatten(c: Cube)
    requires c.size > 0
    ensures Flatten(Solve(c)) == Concat(SolvedFaces(c.size * c.size))
  {
    var n := c.size;
    var r := Solve(c);
    var faces := seq(FaceCount, f requires 0 <= f < FaceCount => FaceCells(r, f));
    forall f | 0 <= f < FaceCount
      ensures faces[f] == SolvedFaces(n * n)[f]
    {
      assert forall i :: 0 <= i < n ==> r.grid[f][i] == Repeat(PaintOf(f), n);
      assert r.grid[f] == seq(n, _ => Repeat(PaintOf(f), n));
      ConcatRepeat(PaintOf(f), n, n);
    }
    assert faces == SolvedFaces(n * n);
  }

  /** A repetition of v holds m copies of v and nothing else. */
  lemma {:induction false} RepeatCount(v: Paint, m: nat, w: Paint)
    ensures multiset(Repeat<Paint>(v, m))[w] == if w == v then m else 0
  {
    if m > 0 {
      assert Repeat<Paint>(v, m) == Repeat<Paint>(v, m - 1) + [v];
      var a := multiset(Repeat<Paint>(v, m - 1));
      assert multiset(Repeat<Paint>(v, m)) == a + multiset{v};
      RepeatCount(v, m - 1, w);
      assert a[w] == if w == v then m - 1 else 0;
    } else {
      assert Repeat<Paint>(v, m) == [];
    }
  }

  /** The first k solved faces hold m squares of each of colours 0..k-1. */
  lemma {:induction false} SolvedPrefixCount(m: nat, k: nat, j: int)
    requires k <= FaceCount && 0 <= j < ColorCount
    ensures multiset(Concat<Paint>(SolvedFaces(m)[..k]))[PaintOf(j)] == if j < k then m else 0
  {
    var ss := SolvedFaces(m);
    if k > 0 {
      var p := PaintOf(j);
      PrefixCountStep(ss, k, p);
      SolvedPrefixCount(m, k - 1, j);
      SolvedBlockCount(m, k - 1, j);
    } else {
      assert ss[..k] == [];
    }
  }

  /** Solved face i holds m squares of colour i and none of any other colour. */
  lemma SolvedBlockCount(m: nat, i: int, j: int)
    requires 0 <= i < FaceCount && 0 <= j < ColorCount
    ensures multiset(SolvedFaces(m)[i])[PaintOf(j)] == if i == j then m else 0
  {
    RepeatCount(PaintOf(i), m, PaintOf(j));
    assert PaintOf(i).IntValue() == i;
  }

  /** How often v occurs in the first k blocks: the first k - 1 blocks and block k - 1. */
  lemma PrefixCountStep<T>(ss: seq<seq<T>>, k: nat, v: T)
    requires 0 < k <= |ss|
    ensures multiset(Concat(ss[..k]))[v] == multiset(Concat(ss[..k - 1]))[v] + multiset(ss[k - 1])[v]
  {
    ConcatSnoc(ss, k - 1);
  }

  /** A solved cube is legal. */
  lemma SolveLegal(c: Cube)
    requires c.size > 0
    ensures Legal(Solve(c))
  {
    SolveFlatten(c);
    var m := c.size * c.size;
    assert SolvedFaces(m)[..FaceCount] == SolvedFaces(m);
    forall k | 0 <= k < ColorCount
      ensures Bag(Solve(c))[PaintOf(k)] == m
    {
      SolvedPrefixCount(m, FaceCount, k);
    }
  }

  /** toString() of a solved cube: character i is the digit of face i / (size * size). */
  lemma ToStringSolved(c: Cube, i: int)
    requires c.size > 0 && FaceCount * (c.size * c.size) <= IntMax && 0 <= i < FaceCount * (c.size * c.size)
    ensures ToString(Solve(c)).Success?
    ensures ToString(Solve(c)).value[i] as int == '0' as int + i / (c.size * c.size)
  {
    var m := c.size * c.size;
    assert m > 0;
    SolveFlatten(c);
    BlockDivision(m, i, FaceCount);
    ConcatIndex(SolvedFaces(m), m, i / m, i % m);
  }

  /** i splits into block i / m and offset i % m. */
  lemma BlockDivision(m: nat, i: int, k: nat)
    requires m > 0 && 0 <= i < k * m
    ensures 0 <= i / m < k && 0 <= i % m < m && m * (i / m) + i % m == i
  {
  }
}
