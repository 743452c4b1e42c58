/** Rotations of one layer of the cube (Rotation.java and its six subclasses). A rotation
    faces the cube from `side`, grabs the ring of squares `layer` deep and turns it a quarter
    clockwise; when the layer is an outer one, the end face it carries turns with it. */
module Rotations {
  import opened Wrappers
  import opened CubeSides
  import opened Cubes
  import opened AxisGroups
  import opened Exchanges
  import opened RotationSteps
  import opened SwapLoops
  import opened RotationBlocks

  datatype Rotation = Rotation(side: Face, layer: int)

  /** The rotation can be applied to a cube of size n: its layer is one of the cube's. */
  predicate Fits(n: int, rot: Rotation) {
    0 <= rot.layer < n
  }

  /** A layer outside the cube can still name cells of it, because the cell index wraps: on a
      size-4 cube, TopRotation with layer 2^30 reads and writes row 0 of the side faces,
      since 2^30 * 4 wraps to 0. Java accepts that rotation; Fits excludes it. */
  lemma WrappedLayer(i: int)
    requires 0 <= i < 4
    ensures !Fits(4, Rotation(Top, 0x4000_0000))
    ensures CellIndex(4, 0x4000_0000, i) == CellIndex(4, 0, i) == i
  {
  }

  /** newRotation: one subclass per face; any other side value is rejected. */
  function NewRotation(side: Side, layer: int): (r: Result<Rotation>)
    ensures r.Success? <==> side.IsFace()
    ensures r.Success? ==> r.value.side == side && r.value.layer == layer
    ensures r.Failure? ==> r.error == InvalidSide
  {
    match side
    case Top => Success(Rotation(Top, layer))
    case Left => Success(Rotation(Left, layer))
    case Front => Success(Rotation(Front, layer))
    case Right => Success(Rotation(Right, layer))
    case Back => Success(Rotation(Back, layer))
    case Bottom => Success(Rotation(Bottom, layer))
    case _ => Failure(InvalidSide)
  }

  /** assignGroup of each subclass. */
  function AssignGroup(rot: Rotation): (a: AxisGroup)
    ensures Success(a) == FromSide(rot.side)
  {
    match rot.side
    case Top | Bottom => TopBottom
    case Left | Right => LeftRight
    case Front | Back => FrontBack
  }

  /** The plane of the ring a rotation turns, counted from the axis' primary face (Top, Left
      or Front): the layer itself for the primary faces, size-1-layer for their opposites. */
  function Plane(size: int, side: Face, layer: int): (p: int)
    ensures 0 <= layer < size ==> 0 <= p < size
    ensures p == (if side == Top || side == Left || side == Front then layer else size - 1 - layer)
  {
    match side
    case Top | Left | Front => layer
    case Right | Back | Bottom => size - 1 - layer
  }

  /** Antagonist rotations, turning the same ring from opposite faces, report the same plane,
      and no other rotation of the same axis does. */
  lemma PlaneAntagonist(size: int, side: Face, layer: int, side': Face, layer': int)
    requires AxisOf(side) == AxisOf(side')
    ensures Plane(size, side, layer) == Plane(size, side', layer') <==>
      (side' == side && layer' == layer) || (side' == Opp(side) && layer' == size - 1 - layer)
  {
    SameAxisIff(side, side');
  }

  // ---------------------------------------------------------------------------
  // applyRotation

  /** The base class' applyRotation: the end face carried by an outer layer turns with it. */
  function ApplyBase(c: Cube, rot: Rotation): (r: Cube)
    requires Valid(c) && Fits(c.size, rot)
    ensures Valid(r) && r.size == c.size
  {
    if rot.layer == 0 then TurnSideClockwise(c, rot.side)
    else if rot.layer == c.size - 1 then TurnSideCounterClockwise(c, Opp(rot.side))
    else c
  }


  // ---------------------------------------------------------------------------
  // The subclasses' applyRotation: a cycle of four lines, as the list of its square swaps

  /** TopRotation.applyRotation before it calls the base class, as the swaps of
      swapRowAndRow(Left, l, Front, l), swapRowAndRow(Front, l, Right, l),
      swapRowAndRow(Right, l, Back, l) in this order. */
  function TopSwaps(n: nat, l: int, m: int): (es: seq<Exchange>)
    requires 0 <= l < n && m == n - 1 - l
    ensures Within(n, es)
  {
    var es1 := RowAndRowSwaps(Left, l, Front, l, 0, n);
    var es2 := RowAndRowSwaps(Front, l, Right, l, 0, n);
    var es3 := RowAndRowSwaps(Right, l, Back, l, 0, n);
    WithinAppend(n, es1, es2);
    WithinAppend(n, es1 + es2, es3);
    es1 + es2 + es3
  }

  /** LeftRotation.applyRotation before it calls the base class, as the swaps of
      swapColumnAndColumn(Bottom, l, Front, l), swapColumnAndColumn(Front, l, Top, l),
      swapColumnAndColumn(Top, l, Back, m), reverseColumn(Top, l), reverseColumn(Back, m) in this
      order, where m is n-1-l. */
  function LeftSwaps(n: nat, l: int, m: int): (es: seq<Exchange>)
    requires 0 <= l < n && m == n - 1 - l
    ensures Within(n, es)
  {
    var es1 := ColumnAndColumnSwaps(Bottom, l, Front, l, 0, n);
    var es2 := ColumnAndColumnSwaps(Front, l, Top, l, 0, n);
    var es3 := ColumnAndColumnSwaps(Top, l, Back, m, 0, n);
    var es4 := ReverseColumnSwaps(Top, l, 0, n - 1, n);
    var es5 := ReverseColumnSwaps(Back, m, 0, n - 1, n);
    WithinAppend(n, es1, es2);
    WithinAppend(n, es1 + es2, es3);
    WithinAppend(n, es1 + es2 + es3, es4);
    WithinAppend(n, es1 + es2 + es3 + es4, es5);
    es1 + es2 + es3 + es4 + es5
  }

  /** FrontRotation.applyRotation before it calls the base class, as the swaps of
      swapColumnAndRow(Left, m, Top, m), swapColumnAndRow(Left, m, Bottom, l),
      swapColumnAndRow(Right, l, Bottom, l), reverseRow(Top, m), reverseRow(Bottom, l) in this
      order, where m is n-1-l. */
  function FrontSwaps(n: nat, l: int, m: int): (es: seq<Exchange>)
    requires 0 <= l < n && m == n - 1 - l
    ensures Within(n, es)
  {
    var es1 := ColumnAndRowSwaps(Left, m, Top, m, 0, n);
    var es2 := ColumnAndRowSwaps(Left, m, Bottom, l, 0, n);
    var es3 := ColumnAndRowSwaps(Right, l, Bottom, l, 0, n);
    var es4 := ReverseRowSwaps(Top, m, 0, n - 1, n);
    var es5 := ReverseRowSwaps(Bottom, l, 0, n - 1, n);
    WithinAppend(n, es1, es2);
    WithinAppend(n, es1 + es2, es3);
    WithinAppend(n, es1 + es2 + es3, es4);
    WithinAppend(n, es1 + es2 + es3 + es4, es5);
    es1 + es2 + es3 + es4 + es5
  }

  /** RightRotation.applyRotation before it calls the base class, as the swaps of
      swapColumnAndColumn(Top, m, Front, m), swapColumnAndColumn(Front, m, Bottom, m),
      swapColumnAndColumn(Bottom, m, Back, l), reverseColumn(Bottom, m), reverseColumn(Back, l) in
      this order, where m is n-1-l. */
  function RightSwaps(n: nat, l: int, m: int): (es: seq<Exchange>)
    requires 0 <= l < n && m == n - 1 - l
    ensures Within(n, es)
  {
    var es1 := ColumnAndColumnSwaps(Top, m, Front, m, 0, n);
    var es2 := ColumnAndColumnSwaps(Front, m, Bottom, m, 0, n);
    var es3 := ColumnAndColumnSwaps(Bottom, m, Back, l, 0, n);
    var es4 := ReverseColumnSwaps(Bottom, m, 0, n - 1, n);
    var es5 := ReverseColumnSwaps(Back, l, 0, n - 1, n);
    WithinAppend(n, es1, es2);
    WithinAppend(n, es1 + es2, es3);
    WithinAppend(n, es1 + es2 + es3, es4);
    WithinAppend(n, es1 + es2 + es3 + es4, es5);
    es1 + es2 + es3 + es4 + es5
  }

  /** BackRotation.applyRotation before it calls the base class, as the swaps of
      swapColumnAndRow(Left, l, Bottom, m), swapColumnAndRow(Left, l, Top, l),
      swapColumnAndRow(Right, m, Top, l), reverseColumn(Left, l), reverseColumn(Right, m) in this
      order, where m is n-1-l. */
  function BackSwaps(n: nat, l: int, m: int): (es: seq<Exchange>)
    requires 0 <= l < n && m == n - 1 - l
    ensures Within(n, es)
  {
    var es1 := ColumnAndRowSwaps(Left, l, Bottom, m, 0, n);
    var es2 := ColumnAndRowSwaps(Left, l, Top, l, 0, n);
    var es3 := ColumnAndRowSwaps(Right, m, Top, l, 0, n);
    var es4 := ReverseColumnSwaps(Left, l, 0, n - 1, n);
    var es5 := ReverseColumnSwaps(Right, m, 0, n - 1, n);
    WithinAppend(n, es1, es2);
    WithinAppend(n, es1 + es2, es3);
    WithinAppend(n, es1 + es2 + es3, es4);
    WithinAppend(n, es1 + es2 + es3 + es4, es5);
    es1 + es2 + es3 + es4 + es5
  }

  /** BottomRotation.applyRotation before it calls the base class, as the swaps of
      swapRowAndRow(Left, m, Back, m), swapRowAndRow(Back, m, Right, m),
      swapRowAndRow(Right, m, Front, m) in this order, where m is n-1-l. */
  function BottomSwaps(n: nat, l: int, m: int): (es: seq<Exchange>)
    requires 0 <= l < n && m == n - 1 - l
    ensures Within(n, es)
  {
    var es1 := RowAndRowSwaps(Left, m, Back, m, 0, n);
    var es2 := RowAndRowSwaps(Back, m, Right, m, 0, n);
    var es3 := RowAndRowSwaps(Right, m, Front, m, 0, n);
    WithinAppend(n, es1, es2);
    WithinAppend(n, es1 + es2, es3);
    es1 + es2 + es3
  }

  /** The swaps of the subclass named by the rotation's side. */
  function CycleSwaps(n: nat, rot: Rotation): (es: seq<Exchange>)
    requires Fits(n, rot)
    ensures Within(n, es)
  {
    match rot.side
    case Top => TopSwaps(n, rot.layer, n - 1 - rot.layer)
    case Left => LeftSwaps(n, rot.layer, n - 1 - rot.layer)
    case Front => FrontSwaps(n, rot.layer, n - 1 - rot.layer)
    case Right => RightSwaps(n, rot.layer, n - 1 - rot.layer)
    case Back => BackSwaps(n, rot.layer, n - 1 - rot.layer)
    case Bottom => BottomSwaps(n, rot.layer, n - 1 - rot.layer)
  }

  /** The subclass' part of applyRotation: its swaps performed on the cube. */
  function Cycle(c: Cube, rot: Rotation): (r: Cube)
    requires Valid(c) && Fits(c.size, rot)
    ensures Valid(r) && r.size == c.size
  {
    SwapAll(c, CycleSwaps(c.size, rot))
  }

  /** applyRotation: the subclass' cycle of four lines, then the base class' end-face turn. */
  function Apply(c: Cube, rot: Rotation): (r: Cube)
    requires Valid(c) && Fits(c.size, rot)
    ensures Valid(r) && r.size == c.size
  {
    ApplyBase(Cycle(c, rot), rot)
  }

  // ---------------------------------------------------------------------------
  // Where a rotation takes every colour from

  /** The end-face turn of the base class: for layer 0 the rotation's own face turns
      clockwise, otherwise for the last layer the opposite face turns counter-clockwise. */
  function EndSource(n: int, rot: Rotation, x: Pos): Pos {
    if rot.layer == 0 then ClockwiseSource(rot.side, n, x)
    else if rot.layer == n - 1 then CounterClockwiseSource(Opp(rot.side), n, x)
    else x
  }

  /** The ring of four lines each subclass cycles, written per face as "new line = old line". */
  function RingSource(n: int, rot: Rotation, x: Pos): Pos {
    var l := rot.layer;
    var m := n - 1 - l;
    var f := x.face;
    var i := x.row;
    var j := x.col;
    match rot.side
    case Top =>
      if i != l then x
      else if f == Left then Pos(Front, i, j)
      else if f == Front then Pos(Right, i, j)
      else if f == Right then Pos(Back, i, j)
      else if f == Back then Pos(Left, i, j)
      else x
    case Bottom =>
      if i != m then x
      else if f == Left then Pos(Back, i, j)
      else if f == Back then Pos(Right, i, j)
      else if f == Right then Pos(Front, i, j)
      else if f == Front then Pos(Left, i, j)
      else x
    case Left =>
      if f == Bottom && j == l then Pos(Front, i, l)
      else if f == Front && j == l then Pos(Top, i, l)
      else if f == Top && j == l then Pos(Back, n - 1 - i, m)
      else if f == Back && j == m then Pos(Bottom, n - 1 - i, l)
      else x
    case Right =>
      if f == Top && j == m then Pos(Front, i, m)
      else if f == Front && j == m then Pos(Bottom, i, m)
      else if f == Bottom && j == m then Pos(Back, n - 1 - i, l)
      else if f == Back && j == l then Pos(Top, n - 1 - i, m)
      else x
    case Front =>
      if f == Left && j == m then Pos(Bottom, l, i)
      else if f == Right && j == l then Pos(Top, m, i)
      else if f == Top && i == m then Pos(Left, n - 1 - j, m)
      else if f == Bottom && i == l then Pos(Right, n - 1 - j, l)
      else x
    case Back =>
      if f == Left && j == l then Pos(Top, l, n - 1 - i)
      else if f == Right && j == m then Pos(Bottom, m, n - 1 - i)
      else if f == Top && i == l then Pos(Right, j, m)
      else if f == Bottom && i == m then Pos(Left, j, l)
      else x
  }

  /** After rot, square x holds the colour square RotationSource(n, rot, x) held before. */
  function RotationSource(n: int, rot: Rotation, x: Pos): Pos {
    RingSource(n, rot, EndSource(n, rot, x))
  }

  lemma ApplyBaseAt(c: Cube, rot: Rotation, x: Pos)
    requires Valid(c) && Fits(c.size, rot) && InRange(c.size, x)
    ensures InRange(c.size, EndSource(c.size, rot, x))
    ensures At(ApplyBase(c, rot), x) == At(c, EndSource(c.size, rot, x))
  {
    if rot.layer == 0 {
      TurnSideClockwiseAt(c, rot.side, x);
    } else if rot.layer == c.size - 1 {
      TurnSideCounterClockwiseAt(c, Opp(rot.side), x);
    }
  }


  // The ring each subclass cycles, as the composition of the closed forms of its loops
  // (the last loop is looked up first).

  lemma TopRing(n: int, l: int, m: int, y3: Pos, y2: Pos, y1: Pos)
    requires 0 <= l < n && m == n - 1 - l && InRange(n, y3)
    requires y2 == RowAndRowSource(Right, l, Back, l, 0, y3)
    requires y1 == RowAndRowSource(Front, l, Right, l, 0, y2)
    ensures InRange(n, y2) && InRange(n, y1)
    ensures InRange(n, RingSource(n, Rotation(Top, l), y3))
    ensures RowAndRowSource(Left, l, Front, l, 0, y1) == RingSource(n, Rotation(Top, l), y3)
  {
  }

  lemma LeftRing(n: int, l: int, m: int, y5: Pos, y4: Pos, y3: Pos, y2: Pos, y1: Pos)
    requires 0 <= l < n && m == n - 1 - l && InRange(n, y5)
    requires y4 == ReverseColumnSource(Back, m, 0, n - 1, y5)
    requires y3 == ReverseColumnSource(Top, l, 0, n - 1, y4)
    requires y2 == ColumnAndColumnSource(Top, l, Back, m, 0, y3)
    requires y1 == ColumnAndColumnSource(Front, l, Top, l, 0, y2)
    ensures InRange(n, y4) && InRange(n, y3) && InRange(n, y2) && InRange(n, y1)
    ensures InRange(n, RingSource(n, Rotation(Left, l), y5))
    ensures ColumnAndColumnSource(Bottom, l, Front, l, 0, y1) == RingSource(n, Rotation(Left, l), y5)
  {
  }

  lemma FrontRing(n: int, l: int, m: int, y5: Pos, y4: Pos, y3: Pos, y2: Pos, y1: Pos)
    requires 0 <= l < n && m == n - 1 - l && InRange(n, y5)
    requires y4 == ReverseRowSource(Bottom, l, 0, n - 1, y5)
    requires y3 == ReverseRowSource(Top, m, 0, n - 1, y4)
    requires y2 == ColumnAndRowSource(Right, l, Bottom, l, 0, y3)
    requires y1 == ColumnAndRowSource(Left, m, Bottom, l, 0, y2)
    ensures InRange(n, y4) && InRange(n, y3) && InRange(n, y2) && InRange(n, y1)
    ensures InRange(n, RingSource(n, Rotation(Front, l), y5))
    ensures ColumnAndRowSource(Left, m, Top, m, 0, y1) == RingSource(n, Rotation(Front, l), y5)
  {
  }

  lemma RightRing(n: int, l: int, m: int, y5: Pos, y4: Pos, y3: Pos, y2: Pos, y1: Pos)
    requires 0 <= l < n && m == n - 1 - l && InRange(n, y5)
    requires y4 == ReverseColumnSource(Back, l, 0, n - 1, y5)
    requires y3 == ReverseColumnSource(Bottom, m, 0, n - 1, y4)
    requires y2 == ColumnAndColumnSource(Bottom, m, Back, l, 0, y3)
    requires y1 == ColumnAndColumnSource(Front, m, Bottom, m, 0, y2)
    ensures InRange(n, y4) && InRange(n, y3) && InRange(n, y2) && InRange(n, y1)
    ensures InRange(n, RingSource(n, Rotation(Right, l), y5))
    ensures ColumnAndColumnSource(Top, m, Front, m, 0, y1) == RingSource(n, Rotation(Right, l), y5)
  {
  }

  lemma BackRing(n: int, l: int, m: int, y5: Pos, y4: Pos, y3: Pos, y2: Pos, y1: Pos)
    requires 0 <= l < n && m == n - 1 - l && InRange(n, y5)
    requires y4 == ReverseColumnSource(Right, m, 0, n - 1, y5)
    requires y3 == ReverseColumnSource(Left, l, 0, n - 1, y4)
    requires y2 == ColumnAndRowSource(Right, m, Top, l, 0, y3)
    requires y1 == ColumnAndRowSource(Left, l, Top, l, 0, y2)
    ensures InRange(n, y4) && InRange(n, y3) && InRange(n, y2) && InRange(n, y1)
    ensures InRange(n, RingSource(n, Rotation(Back, l), y5))
    ensures ColumnAndRowSource(Left, l, Bottom, m, 0, y1) == RingSource(n, Rotation(Back, l), y5)
  {
  }

  lemma BottomRing(n: int, l: int, m: int, y3: Pos, y2: Pos, y1: Pos)
    requires 0 <= l < n && m == n - 1 - l && InRange(n, y3)
    requires y2 == RowAndRowSource(Right, m, Front, m, 0, y3)
    requires y1 == RowAndRowSource(Back, m, Right, m, 0, y2)
    ensures InRange(n, y2) && InRange(n, y1)
    ensures InRange(n, RingSource(n, Rotation(Bottom, l), y3))
    ensures RowAndRowSource(Left, m, Back, m, 0, y1) == RingSource(n, Rotation(Bottom, l), y3)
  {
  }

  /** Performing the Top swaps composes the closed forms of their loops. */
  lemma TopSwapsChain(n: nat, l: int, m: int, y3: Pos, y2: Pos, y1: Pos, y0: Pos)
    requires 0 <= l < n && m == n - 1 - l
    requires InRange(n, y3) && InRange(n, y2) && InRange(n, y1)
    requires y2 == RowAndRowSource(Right, l, Back, l, 0, y3)
    requires y1 == RowAndRowSource(Front, l, Right, l, 0, y2)
    requires y0 == RowAndRowSource(Left, l, Front, l, 0, y1)
    ensures Source(RowAndRowSwaps(Left, l, Front, l, 0, n) + RowAndRowSwaps(Front, l, Right, l, 0, n) + RowAndRowSwaps(Right, l, Back, l, 0, n), y3) == y0
  {
    RowAndRowSwapsSource(Right, l, Back, l, 0, n, y3);
    RowAndRowSwapsSource(Front, l, Right, l, 0, n, y2);
    RowAndRowSwapsSource(Left, l, Front, l, 0, n, y1);
    SourceChain3(RowAndRowSwaps(Left, l, Front, l, 0, n), RowAndRowSwaps(Front, l, Right, l, 0, n), RowAndRowSwaps(Right, l, Back, l, 0, n),
      y3, y2, y1, y0);
  }

  /** Performing the Top swaps cycles the ring of the Top rotation. */
  lemma TopSwapsSource(n: nat, l: int, m: int, y: Pos)
    requires 0 <= l < n && m == n - 1 - l && InRange(n, y)
    ensures InRange(n, RingSource(n, Rotation(Top, l), y))
    ensures Source(TopSwaps(n, l, m), y) == RingSource(n, Rotation(Top, l), y)
  {
    var y3 := y;
    var y2 := RowAndRowSource(Right, l, Back, l, 0, y3);
    var y1 := RowAndRowSource(Front, l, Right, l, 0, y2);
    var y0 := RowAndRowSource(Left, l, Front, l, 0, y1);
    TopRing(n, l, m, y3, y2, y1);
    TopSwapsChain(n, l, m, y3, y2, y1, y0);
  }

  /** Performing the Left swaps composes the closed forms of their loops. */
  lemma LeftSwapsChain(n: nat, l: int, m: int, y5: Pos, y4: Pos, y3: Pos, y2: Pos, y1: Pos, y0: Pos)
    requires 0 <= l < n && m == n - 1 - l
    requires InRange(n, y5) && InRange(n, y4) && InRange(n, y3) && InRange(n, y2) && InRange(n, y1)
    requires y4 == ReverseColumnSource(Back, m, 0, n - 1, y5)
    requires y3 == ReverseColumnSource(Top, l, 0, n - 1, y4)
    requires y2 == ColumnAndColumnSource(Top, l, Back, m, 0, y3)
    requires y1 == ColumnAndColumnSource(Front, l, Top, l, 0, y2)
    requires y0 == ColumnAndColumnSource(Bottom, l, Front, l, 0, y1)
    ensures Source(ColumnAndColumnSwaps(Bottom, l, Front, l, 0, n) + ColumnAndColumnSwaps(Front, l, Top, l, 0, n) + ColumnAndColumnSwaps(Top, l, Back, m, 0, n) + ReverseColumnSwaps(Top, l, 0, n - 1, n) + ReverseColumnSwaps(Back, m, 0, n - 1, n), y5) == y0
  {
    ReverseColumnSwapsSource(Back, m, 0, n - 1, n, y5);
    ReverseColumnSwapsSource(Top, l, 0, n - 1, n, y4);
    ColumnAndColumnSwapsSource(Top, l, Back, m, 0, n, y3);
    ColumnAndColumnSwapsSource(Front, l, Top, l, 0, n, y2);
    ColumnAndColumnSwapsSource(Bottom, l, Front, l, 0, n, y1);
    SourceChain5(ColumnAndColumnSwaps(Bottom, l, Front, l, 0, n), ColumnAndColumnSwaps(Front, l, Top, l, 0, n), ColumnAndColumnSwaps(Top, l, Back, m, 0, n), ReverseColumnSwaps(Top, l, 0, n - 1, n), ReverseColumnSwaps(Back, m, 0, n - 1, n),
      y5, y4, y3, y2, y1, y0);
  }

  /** Performing the Left swaps cycles the ring of the Left rotation. */
  lemma LeftSwapsSource(n: nat, l: int, m: int, y: Pos)
    requires 0 <= l < n && m == n - 1 - l && InRange(n, y)
    ensures InRange(n, RingSource(n, Rotation(Left, l), y))
    ensures Source(LeftSwaps(n, l, m), y) == RingSource(n, Rotation(Left, l), y)
  {
    var y5 := y;
    var y4 := ReverseColumnSource(Back, m, 0, n - 1, y5);
    var y3 := ReverseColumnSource(Top, l, 0, n - 1, y4);
    var y2 := ColumnAndColumnSource(Top, l, Back, m, 0, y3);
    var y1 := ColumnAndColumnSource(Front, l, Top, l, 0, y2);
    var y0 := ColumnAndColumnSource(Bottom, l, Front, l, 0, y1);
    LeftRing(n, l, m, y5, y4, y3, y2, y1);
    LeftSwapsChain(n, l, m, y5, y4, y3, y2, y1, y0);
  }

  /** Performing the Front swaps composes the closed forms of their loops. */
  lemma FrontSwapsChain(n: nat, l: int, m: int, y5: Pos, y4: Pos, y3: Pos, y2: Pos, y1: Pos, y0: Pos)
    requires 0 <= l < n && m == n - 1 - l
    requires InRange(n, y5) && InRange(n, y4) && InRange(n, y3) && InRange(n, y2) && InRange(n, y1)
    requires y4 == ReverseRowSource(Bottom, l, 0, n - 1, y5)
    requires y3 == ReverseRowSource(Top, m, 0, n - 1, y4)
    requires y2 == ColumnAndRowSource(Right, l, Bottom, l, 0, y3)
    requires y1 == ColumnAndRowSource(Left, m, Bottom, l, 0, y2)
    requires y0 == ColumnAndRowSource(Left, m, Top, m, 0, y1)
    ensures Source(ColumnAndRowSwaps(Left, m, Top, m, 0, n) + ColumnAndRowSwaps(Left, m, Bottom, l, 0, n) + ColumnAndRowSwaps(Right, l, Bottom, l, 0, n) + ReverseRowSwaps(Top, m, 0, n - 1, n) + ReverseRowSwaps(Bottom, l, 0, n - 1, n), y5) == y0
  {
    ReverseRowSwapsSource(Bottom, l, 0, n - 1, n, y5);
    ReverseRowSwapsSource(Top, m, 0, n - 1, n, y4);
    ColumnAndRowSwapsSource(Right, l, Bottom, l, 0, n, y3);
    ColumnAndRowSwapsSource(Left, m, Bottom, l, 0, n, y2);
    ColumnAndRowSwapsSource(Left, m, Top, m, 0, n, y1);
    SourceChain5(ColumnAndRowSwaps(Left, m, Top, m, 0, n), ColumnAndRowSwaps(Left, m, Bottom, l, 0, n), ColumnAndRowSwaps(Right, l, Bottom, l, 0, n), ReverseRowSwaps(Top, m, 0, n - 1, n), ReverseRowSwaps(Bottom, l, 0, n - 1, n),
      y5, y4, y3, y2, y1, y0);
  }

  /** Performing the Front swaps cycles the ring of the Front rotation. */
  lemma FrontSwapsSource(n: nat, l: int, m: int, y: Pos)
    requires 0 <= l < n && m == n - 1 - l && InRange(n, y)
    ensures InRange(n, RingSource(n, Rotation(Front, l), y))
    ensures Source(FrontSwaps(n, l, m), y) == RingSource(n, Rotation(Front, l), y)
  {
    var y5 := y;
    var y4 := ReverseRowSource(Bottom, l, 0, n - 1, y5);
    var y3 := ReverseRowSource(Top, m, 0, n - 1, y4);
    var y2 := ColumnAndRowSource(Right, l, Bottom, l, 0, y3);
    var y1 := ColumnAndRowSource(Left, m, Bottom, l, 0, y2);
    var y0 := ColumnAndRowSource(Left, m, Top, m, 0, y1);
    FrontRing(n, l, m, y5, y4, y3, y2, y1);
    FrontSwapsChain(n, l, m, y5, y4, y3, y2, y1, y0);
  }

  /** Performing the Right swaps composes the closed forms of their loops. */
  lemma RightSwapsChain(n: nat, l: int, m: int, y5: Pos, y4: Pos, y3: Pos, y2: Pos, y1: Pos, y0: Pos)
    requires 0 <= l < n && m == n - 1 - l
    requires InRange(n, y5) && InRange(n, y4) && InRange(n, y3) && InRange(n, y2) && InRange(n, y1)
    requires y4 == ReverseColumnSource(Back, l, 0, n - 1, y5)
    requires y3 == ReverseColumnSource(Bottom, m, 0, n - 1, y4)
    requires y2 == ColumnAndColumnSource(Bottom, m, Back, l, 0, y3)
    requires y1 == ColumnAndColumnSource(Front, m, Bottom, m, 0, y2)
    requires y0 == ColumnAndColumnSource(Top, m, Front, m, 0, y1)
    ensures Source(ColumnAndColumnSwaps(Top, m, Front, m, 0, n) + ColumnAndColumnSwaps(Front, m, Bottom, m, 0, n) + ColumnAndColumnSwaps(Bottom, m, Back, l, 0, n) + ReverseColumnSwaps(Bottom, m, 0, n - 1, n) + ReverseColumnSwaps(Back, l, 0, n - 1, n), y5) == y0
  {
    ReverseColumnSwapsSource(Back, l, 0, n - 1, n, y5);
    ReverseColumnSwapsSource(Bottom, m, 0, n - 1, n, y4);
    ColumnAndColumnSwapsSource(Bottom, m, Back, l, 0, n, y3);
    ColumnAndColumnSwapsSource(Front, m, Bottom, m, 0, n, y2);
    ColumnAndColumnSwapsSource(Top, m, Front, m, 0, n, y1);
    SourceChain5(ColumnAndColumnSwaps(Top, m, Front, m, 0, n), ColumnAndColumnSwaps(Front, m, Bottom, m, 0, n), ColumnAndColumnSwaps(Bottom, m, Back, l, 0, n), ReverseColumnSwaps(Bottom, m, 0, n - 1, n), ReverseColumnSwaps(Back, l, 0, n - 1, n),
      y5, y4, y3, y2, y1, y0);
  }

  /** Performing the Right swaps cycles the ring of the Right rotation. */
  lemma RightSwapsSource(n: nat, l: int, m: int, y: Pos)
    requires 0 <= l < n && m == n - 1 - l && InRange(n, y)
    ensures InRange(n, RingSource(n, Rotation(Right, l), y))
    ensures Source(RightSwaps(n, l, m), y) == RingSource(n, Rotation(Right, l), y)
  {
    var y5 := y;
    var y4 := ReverseColumnSource(Back, l, 0, n - 1, y5);
    var y3 := ReverseColumnSource(Bottom, m, 0, n - 1, y4);
    var y2 := ColumnAndColumnSource(Bottom, m, Back, l, 0, y3);
    var y1 := ColumnAndColumnSource(Front, m, Bottom, m, 0, y2);
    var y0 := ColumnAndColumnSource(Top, m, Front, m, 0, y1);
    RightRing(n, l, m, y5, y4, y3, y2, y1);
    RightSwapsChain(n, l, m, y5, y4, y3, y2, y1, y0);
  }

  /** Performing the Back swaps composes the closed forms of their loops. */
  lemma BackSwapsChain(n: nat, l: int, m: int, y5: Pos, y4: Pos, y3: Pos, y2: Pos, y1: Pos, y0: Pos)
    requires 0 <= l < n && m == n - 1 - l
    requires InRange(n, y5) && InRange(n, y4) && InRange(n, y3) && InRange(n, y2) && InRange(n, y1)
    requires y4 == ReverseColumnSource(Right, m, 0, n - 1, y5)
    requires y3 == ReverseColumnSource(Left, l, 0, n - 1, y4)
    requires y2 == ColumnAndRowSource(Right, m, Top, l, 0, y3)
    requires y1 == ColumnAndRowSource(Left, l, Top, l, 0, y2)
    requires y0 == ColumnAndRowSource(Left, l, Bottom, m, 0, y1)
    ensures Source(ColumnAndRowSwaps(Left, l, Bottom, m, 0, n) + ColumnAndRowSwaps(Left, l, Top, l, 0, n) + ColumnAndRowSwaps(Right, m, Top, l, 0, n) + ReverseColumnSwaps(Left, l, 0, n - 1, n) + ReverseColumnSwaps(Right, m, 0, n - 1, n), y5) == y0
  {
    ReverseColumnSwapsSource(Right, m, 0, n - 1, n, y5);
    ReverseColumnSwapsSource(Left, l, 0, n - 1, n, y4);
    ColumnAndRowSwapsSource(Right, m, Top, l, 0, n, y3);
    ColumnAndRowSwapsSource(Left, l, Top, l, 0, n, y2);
    ColumnAndRowSwapsSource(Left, l, Bottom, m, 0, n, y1);
    SourceChain5(ColumnAndRowSwaps(Left, l, Bottom, m, 0, n), ColumnAndRowSwaps(Left, l, Top, l, 0, n), ColumnAndRowSwaps(Right, m, Top, l, 0, n), ReverseColumnSwaps(Left, l, 0, n - 1, n), ReverseColumnSwaps(Right, m, 0, n - 1, n),
      y5, y4, y3, y2, y1, y0);
  }

  /** Performing the Back swaps cycles the ring of the Back rotation. */
  lemma BackSwapsSource(n: nat, l: int, m: int, y: Pos)
    requires 0 <= l < n && m == n - 1 - l && InRange(n, y)
    ensures InRange(n, RingSource(n, Rotation(Back, l), y))
    ensures Source(BackSwaps(n, l, m), y) == RingSource(n, Rotation(Back, l), y)
  {
    var y5 := y;
    var y4 := ReverseColumnSource(Right, m, 0, n - 1, y5);
    var y3 := ReverseColumnSource(Left, l, 0, n - 1, y4);
    var y2 := ColumnAndRowSource(Right, m, Top, l, 0, y3);
    var y1 := ColumnAndRowSource(Left, l, Top, l, 0, y2);
    var y0 := ColumnAndRowSource(Left, l, Bottom, m, 0, y1);
    BackRing(n, l, m, y5, y4, y3, y2, y1);
    BackSwapsChain(n, l, m, y5, y4, y3, y2, y1, y0);
  }

  /** Performing the Bottom swaps composes the closed forms of their loops. */
  lemma BottomSwapsChain(n: nat, l: int, m: int, y3: Pos, y2: Pos, y1: Pos, y0: Pos)
    requires 0 <= l < n && m == n - 1 - l
    requires InRange(n, y3) && InRange(n, y2) && InRange(n, y1)
    requires y2 == RowAndRowSource(Right, m, Front, m, 0, y3)
    requires y1 == RowAndRowSource(Back, m, Right, m, 0, y2)
    requires y0 == RowAndRowSource(Left, m, Back, m, 0, y1)
    ensures Source(RowAndRowSwaps(Left, m, Back, m, 0, n) + RowAndRowSwaps(Back, m, Right, m, 0, n) + RowAndRowSwaps(Right, m, Front, m, 0, n), y3) == y0
  {
    RowAndRowSwapsSource(Right, m, Front, m, 0, n, y3);
    RowAndRowSwapsSource(Back, m, Right, m, 0, n, y2);
    RowAndRowSwapsSource(Left, m, Back, m, 0, n, y1);
    SourceChain3(RowAndRowSwaps(Left, m, Back, m, 0, n), RowAndRowSwaps(Back, m, Right, m, 0, n), RowAndRowSwaps(Right, m, Front, m, 0, n),
      y3, y2, y1, y0);
  }

  /** Performing the Bottom swaps cycles the ring of the Bottom rotation. */
  lemma BottomSwapsSource(n: nat, l: int, m: int, y: Pos)
    requires 0 <= l < n && m == n - 1 - l && InRange(n, y)
    ensures InRange(n, RingSource(n, Rotation(Bottom, l), y))
    ensures Source(BottomSwaps(n, l, m), y) == RingSource(n, Rotation(Bottom, l), y)
  {
    var y3 := y;
    var y2 := RowAndRowSource(Right, m, Front, m, 0, y3);
    var y1 := RowAndRowSource(Back, m, Right, m, 0, y2);
    var y0 := RowAndRowSource(Left, m, Back, m, 0, y1);
    BottomRing(n, l, m, y3, y2, y1);
    BottomSwapsChain(n, l, m, y3, y2, y1, y0);
  }

  lemma CycleSwapsSource(n: nat, rot: Rotation, y: Pos)
    requires Fits(n, rot) && InRange(n, y)
    ensures InRange(n, RingSource(n, rot, y))
    ensures Source(CycleSwaps(n, rot), y) == RingSource(n, rot, y)
  {
    match rot.side
    case Top =>
      assert CycleSwaps(n, rot) == TopSwaps(n, rot.layer, n - 1 - rot.layer);
      TopSwapsSource(n, rot.layer, n - 1 - rot.layer, y);
    case Left =>
      assert CycleSwaps(n, rot) == LeftSwaps(n, rot.layer, n - 1 - rot.layer);
      LeftSwapsSource(n, rot.layer, n - 1 - rot.layer, y);
    case Front =>
      assert CycleSwaps(n, rot) == FrontSwaps(n, rot.layer, n - 1 - rot.layer);
      FrontSwapsSource(n, rot.layer, n - 1 - rot.layer, y);
    case Right =>
      assert CycleSwaps(n, rot) == RightSwaps(n, rot.layer, n - 1 - rot.layer);
      RightSwapsSource(n, rot.layer, n - 1 - rot.layer, y);
    case Back =>
      assert CycleSwaps(n, rot) == BackSwaps(n, rot.layer, n - 1 - rot.layer);
      BackSwapsSource(n, rot.layer, n - 1 - rot.layer, y);
    case Bottom =>
      assert CycleSwaps(n, rot) == BottomSwaps(n, rot.layer, n - 1 - rot.layer);
      BottomSwapsSource(n, rot.layer, n - 1 - rot.layer, y);
  }

  /** The cycle of four lines, square by square. */
  lemma CycleAt(c: Cube, rot: Rotation, y: Pos)
    requires Valid(c) && Fits(c.size, rot) && InRange(c.size, y)
    ensures InRange(c.size, RingSource(c.size, rot, y))
    ensures At(Cycle(c, rot), y) == At(c, RingSource(c.size, rot, y))
  {
    SwapAllAt(c, CycleSwaps(c.size, rot), y);
    CycleSwapsSource(c.size, rot, y);
  }

  /** After a rotation, every square holds the colour RotationSource names. */
  lemma ApplyAt(c: Cube, rot: Rotation, x: Pos)
    requires Valid(c) && Fits(c.size, rot) && InRange(c.size, x)
    ensures InRange(c.size, RotationSource(c.size, rot, x))
    ensures At(Apply(c, rot), x) == At(c, RotationSource(c.size, rot, x))
  {
    ApplyBaseAt(Cycle(c, rot), rot, x);
    CycleAt(c, rot, EndSource(c.size, rot, x));
  }
}
