/** Laws of the rotations: which squares a rotation may move, its order, its antagonist, the
    rotations it commutes with, and the colours it keeps. Each law is first stated for the
    position map RotationSource and then carried over to cubes with Rotations.ApplyAt. */
module RotationLaws {
  import opened CubeSides
  import opened Cubes
  import opened AxisGroups
  import opened RotationSteps
  import opened SwapLoops
  import opened RotationBlocks
  import opened CubeColors
  import opened Rotations

  // ---------------------------------------------------------------------------
  // Planes

  /** Square x lies in plane p of axis a: the ring of four side-face lines at that depth, and,
      for the two outer planes, the whole end face that closes the slice. Plane 0 is the one
      next to the axis' primary face (Top, Left or Front). */
  predicate InPlane(n: int, a: AxisGroup, p: int, x: Pos) {
    var f := x.face;
    match a
    case TopBottom =>
      ((f == Left || f == Front || f == Right || f == Back) && x.row == p)
      || (f == Top && p == 0) || (f == Bottom && p == n - 1)
    case LeftRight =>
      ((f == Top || f == Front || f == Bottom) && x.col == p) || (f == Back && x.col == n - 1 - p)
      || (f == Left && p == 0) || (f == Right && p == n - 1)
    case FrontBack =>
      (f == Left && x.col == n - 1 - p) || (f == Top && x.row == n - 1 - p)
      || (f == Right && x.col == p) || (f == Bottom && x.row == p)
      || (f == Front && p == 0) || (f == Back && p == n - 1)
    case _ => false
  }

  /** The slice a rotation turns: the plane its group and plane index name. */
  predicate InSlice(n: int, rot: Rotation, x: Pos) {
    InPlane(n, AssignGroup(rot), Plane(n, rot.side, rot.layer), x)
  }

  /** Square x is on the end face the base class turns. */
  predicate OnEndFace(n: int, rot: Rotation, x: Pos) {
    if rot.layer == 0 then x.face == rot.side
    else rot.layer == n - 1 && x.face == Opp(rot.side)
  }

  /** Two different planes of one axis share no square. */
  lemma PlanesDisjoint(n: int, a: AxisGroup, p: int, q: int, x: Pos)
    requires p != q
    ensures !(InPlane(n, a, p, x) && InPlane(n, a, q, x))
  {
  }

  // ---------------------------------------------------------------------------
  // Where the two halves of a rotation move squares

  /** The end-face turn moves only squares of the end face, and keeps them there. */
  lemma EndSourceStays(n: int, rot: Rotation, x: Pos)
    requires Fits(n, rot) && InRange(n, x)
    ensures InRange(n, EndSource(n, rot, x))
    ensures !OnEndFace(n, rot, x) ==> EndSource(n, rot, x) == x
    ensures OnEndFace(n, rot, x) ==> OnEndFace(n, rot, EndSource(n, rot, x))
  {
  }

  /** The ring never touches the end face, and never moves a square onto it. */
  lemma RingSourceAvoidsEndFace(n: int, rot: Rotation, x: Pos)
    requires Fits(n, rot) && InRange(n, x)
    ensures InRange(n, RingSource(n, rot, x))
    ensures OnEndFace(n, rot, x) ==> RingSource(n, rot, x) == x
    ensures !OnEndFace(n, rot, x) ==> !OnEndFace(n, rot, RingSource(n, rot, x))
  {
  }

  /** A rotation moves a square by its end-face turn or by its ring, never by both. */
  lemma RotationSourceSplit(n: int, rot: Rotation, x: Pos)
    requires Fits(n, rot) && InRange(n, x)
    ensures RotationSource(n, rot, x) ==
      if OnEndFace(n, rot, x) then EndSource(n, rot, x) else RingSource(n, rot, x)
  {
    EndSourceStays(n, rot, x);
    RingSourceAvoidsEndFace(n, rot, EndSource(n, rot, x));
  }

  /** The ring moves only squares of the slice, within the slice. */
  lemma RingSourceInSlice(n: int, rot: Rotation, x: Pos)
    requires Fits(n, rot) && InRange(n, x)
    ensures !InSlice(n, rot, x) ==> RingSource(n, rot, x) == x
    ensures InSlice(n, rot, x) ==> InSlice(n, rot, RingSource(n, rot, x))
  {
  }

  /** The end face belongs to the slice. */
  lemma EndFaceInSlice(n: int, rot: Rotation, x: Pos)
    requires Fits(n, rot) && InRange(n, x) && OnEndFace(n, rot, x)
    ensures InSlice(n, rot, x)
  {
  }

  /** A rotation moves only squares of its slice, and keeps them in the slice. */
  lemma RotationSourceInSlice(n: int, rot: Rotation, x: Pos)
    requires Fits(n, rot) && InRange(n, x)
    ensures InRange(n, RotationSource(n, rot, x))
    ensures !InSlice(n, rot, x) ==> RotationSource(n, rot, x) == x
    ensures InSlice(n, rot, x) ==> InSlice(n, rot, RotationSource(n, rot, x))
  {
    RotationSourceSplit(n, rot, x);
    EndSourceStays(n, rot, x);
    RingSourceAvoidsEndFace(n, rot, x);
    if OnEndFace(n, rot, x) {
      EndFaceInSlice(n, rot, x);
      EndFaceInSlice(n, rot, EndSource(n, rot, x));
    } else {
      RingSourceInSlice(n, rot, x);
    }
  }

  // ---------------------------------------------------------------------------
  // Order four

  /** Four quarter-turns of the end face bring every square back. */
  lemma EndSourceFour(n: int, rot: Rotation, x: Pos)
    requires Fits(n, rot) && InRange(n, x)
    ensures EndSource(n, rot, EndSource(n, rot, EndSource(n, rot, EndSource(n, rot, x)))) == x
  {
  }

  /** Four quarter-turns of the ring bring every square back. */
  lemma RingSourceFour(n: int, rot: Rotation, x: Pos)
    requires Fits(n, rot) && InRange(n, x)
    ensures RingSource(n, rot, RingSource(n, rot, RingSource(n, rot, RingSource(n, rot, x)))) == x
  {
    match AssignGroup(rot)
    case TopBottom => RingSourceFourTopBottom(n, rot, x);
    case LeftRight => RingSourceFourLeftRight(n, rot, x);
    case FrontBack => RingSourceFourFrontBack(n, rot, x);
  }

  lemma RingSourceFourTopBottom(n: int, rot: Rotation, x: Pos)
    requires Fits(n, rot) && InRange(n, x) && (rot.side == Top || rot.side == Bottom)
    ensures RingSource(n, rot, RingSource(n, rot, RingSource(n, rot, RingSource(n, rot, x)))) == x
  {
  }

  lemma RingSourceFourLeftRight(n: int, rot: Rotation, x: Pos)
    requires Fits(n, rot) && InRange(n, x) && (rot.side == Left || rot.side == Right)
    ensures RingSource(n, rot, RingSource(n, rot, RingSource(n, rot, RingSource(n, rot, x)))) == x
  {
  }

  lemma RingSourceFourFrontBack(n: int, rot: Rotation, x: Pos)
    requires Fits(n, rot) && InRange(n, x) && (rot.side == Front || rot.side == Back)
    ensures RingSource(n, rot, RingSource(n, rot, RingSource(n, rot, RingSource(n, rot, x)))) == x
  {
  }

  /** A rotation applied four times moves no square. */
  lemma RotationSourceFour(n: int, rot: Rotation, x: Pos)
    requires Fits(n, rot) && InRange(n, x)
    ensures RotationSource(n, rot, RotationSource(n, rot, RotationSource(n, rot, RotationSource(n, rot, x)))) == x
  {
    var x1 := RotationSource(n, rot, x);
    RotationSourceSplit(n, rot, x);
    EndSourceStays(n, rot, x);
    RingSourceAvoidsEndFace(n, rot, x);
    var x2 := RotationSource(n, rot, x1);
    RotationSourceSplit(n, rot, x1);
    EndSourceStays(n, rot, x1);
    RingSourceAvoidsEndFace(n, rot, x1);
    var x3 := RotationSource(n, rot, x2);
    RotationSourceSplit(n, rot, x2);
    EndSourceStays(n, rot, x2);
    RingSourceAvoidsEndFace(n, rot, x2);
    RotationSourceSplit(n, rot, x3);
    if OnEndFace(n, rot, x) {
      EndSourceFour(n, rot, x);
    } else {
      RingSourceFour(n, rot, x);
    }
  }

  // ---------------------------------------------------------------------------
  // Antagonists

  /** The antagonist of a rotation turns the same slice from the opposite face. */
  function Antagonist(n: int, rot: Rotation): (a: Rotation)
    ensures Fits(n, rot) ==> Fits(n, a)
    ensures AssignGroup(a) == AssignGroup(rot)
    ensures Plane(n, a.side, a.layer) == Plane(n, rot.side, rot.layer)
    ensures a != rot
  {
    Rotation(Opp(rot.side), n - 1 - rot.layer)
  }

  /** The end-face turns of antagonists undo each other. */
  lemma EndSourceAntagonist(n: int, rot: Rotation, x: Pos)
    requires Fits(n, rot) && InRange(n, x)
    ensures EndSource(n, rot, EndSource(n, Antagonist(n, rot), x)) == x
  {
  }

  /** The rings of antagonists undo each other. */
  lemma RingSourceAntagonist(n: int, rot: Rotation, x: Pos)
    requires Fits(n, rot) && InRange(n, x)
    ensures RingSource(n, rot, RingSource(n, Antagonist(n, rot), x)) == x
  {
    match AssignGroup(rot)
    case TopBottom => RingSourceAntagonistTopBottom(n, rot, x);
    case LeftRight => RingSourceAntagonistLeftRight(n, rot, x);
    case FrontBack => RingSourceAntagonistFrontBack(n, rot, x);
  }

  lemma RingSourceAntagonistTopBottom(n: int, rot: Rotation, x: Pos)
    requires Fits(n, rot) && InRange(n, x) && (rot.side == Top || rot.side == Bottom)
    ensures RingSource(n, rot, RingSource(n, Antagonist(n, rot), x)) == x
  {
  }

  lemma RingSourceAntagonistLeftRight(n: int, rot: Rotation, x: Pos)
    requires Fits(n, rot) && InRange(n, x) && (rot.side == Left || rot.side == Right)
    ensures RingSource(n, rot, RingSource(n, Antagonist(n, rot), x)) == x
  {
  }

  lemma RingSourceAntagonistFrontBack(n: int, rot: Rotation, x: Pos)
    requires Fits(n, rot) && InRange(n, x) && (rot.side == Front || rot.side == Back)
    ensures RingSource(n, rot, RingSource(n, Antagonist(n, rot), x)) == x
  {
  }

  /** Antagonists carry the same end face, except on a cube of size one where there is no
      end-face turn to speak of. */
  lemma AntagonistEndFace(n: int, rot: Rotation, x: Pos)
    requires Fits(n, rot) && InRange(n, x) && n > 1
    ensures OnEndFace(n, Antagonist(n, rot), x) <==> OnEndFace(n, rot, x)
  {
  }

  /** On a cube of size one the end-face turn moves nothing. */
  lemma EndSourceSizeOne(n: int, rot: Rotation, x: Pos)
    requires Fits(n, rot) && InRange(n, x) && n == 1
    ensures EndSource(n, rot, x) == x
  {
  }

  /** A rotation undoes its antagonist. */
  lemma RotationSourceAntagonist(n: int, rot: Rotation, x: Pos)
    requires Fits(n, rot) && InRange(n, x)
    ensures RotationSource(n, rot, RotationSource(n, Antagonist(n, rot), x)) == x
  {
    var a := Antagonist(n, rot);
    if n == 1 {
      EndSourceSizeOne(n, a, x);
      var w := RingSource(n, a, x);
      assert RotationSource(n, a, x) == w;
      RingSourceAntagonist(n, rot, x);
      RingSourceAvoidsEndFace(n, a, x);
      EndSourceSizeOne(n, rot, w);
    } else if OnEndFace(n, rot, x) {
      AntagonistEndFace(n, rot, x);
      EndSourceStays(n, a, x);
      var z := EndSource(n, a, x);
      AntagonistEndFace(n, rot, z);
      RingSourceAvoidsEndFace(n, a, z);
      assert RotationSource(n, a, x) == z;
      EndSourceAntagonist(n, rot, x);
      RingSourceAvoidsEndFace(n, rot, x);
    } else {
      AntagonistEndFace(n, rot, x);
      EndSourceStays(n, a, x);
      var w := RingSource(n, a, x);
      assert RotationSource(n, a, x) == w;
      RingSourceAvoidsEndFace(n, a, x);
      AntagonistEndFace(n, rot, w);
      EndSourceStays(n, rot, w);
      RingSourceAntagonist(n, rot, x);
    }
  }

  // ---------------------------------------------------------------------------
  // Commuting rotations

  /** Rotations about the same axis commute: different planes move disjoint squares, and
      within one plane the only other rotation is the antagonist, which undoes it. */
  lemma RotationSourceCommute(n: int, r1: Rotation, r2: Rotation, x: Pos)
    requires Fits(n, r1) && Fits(n, r2) && InRange(n, x)
    requires AssignGroup(r1) == AssignGroup(r2)
    ensures RotationSource(n, r1, RotationSource(n, r2, x)) == RotationSource(n, r2, RotationSource(n, r1, x))
  {
    var a := AssignGroup(r1);
    var p1 := Plane(n, r1.side, r1.layer);
    var p2 := Plane(n, r2.side, r2.layer);
    if p1 == p2 {
      assert AxisOf(r1.side) == AxisOf(r2.side);
      PlaneAntagonist(n, r1.side, r1.layer, r2.side, r2.layer);
      if r2 != r1 {
        assert r2 == Antagonist(n, r1);
        OppositeInvolution(r1.side);
        assert Antagonist(n, r2) == r1;
        RotationSourceAntagonist(n, r1, x);
        RotationSourceAntagonist(n, r2, x);
      }
    } else {
      var y1 := RotationSource(n, r1, x);
      var y2 := RotationSource(n, r2, x);
      RotationSourceInSlice(n, r1, x);
      RotationSourceInSlice(n, r2, x);
      RotationSourceInSlice(n, r1, y2);
      RotationSourceInSlice(n, r2, y1);
      PlanesDisjoint(n, a, p1, p2, x);
      PlanesDisjoint(n, a, p1, p2, y1);
      PlanesDisjoint(n, a, p1, p2, y2);
    }
  }

  // ---------------------------------------------------------------------------
  // The laws on cubes

  /** applyRotation leaves every square outside the rotation's slice as it was. */
  lemma ApplyOutsideSlice(c: Cube, rot: Rotation, x: Pos)
    requires Valid(c) && Fits(c.size, rot) && InRange(c.size, x) && !InSlice(c.size, rot, x)
    ensures At(Apply(c, rot), x) == At(c, x)
  {
    ApplyAt(c, rot, x);
    RotationSourceInSlice(c.size, rot, x);
  }

  /** Four applications of one rotation restore the cube. */
  lemma ApplyFour(c: Cube, rot: Rotation)
    requires Valid(c) && Fits(c.size, rot)
    ensures Apply(Apply(Apply(Apply(c, rot), rot), rot), rot) == c
  {
    var n := c.size;
    var c1 := Apply(c, rot);
    var c2 := Apply(c1, rot);
    var c3 := Apply(c2, rot);
    var c4 := Apply(c3, rot);
    forall x | InRange(n, x) ensures At(c4, x) == At(c, x) {
      var y1 := RotationSource(n, rot, x);
      ApplyAt(c3, rot, x);
      var y2 := RotationSource(n, rot, y1);
      ApplyAt(c2, rot, y1);
      var y3 := RotationSource(n, rot, y2);
      ApplyAt(c1, rot, y2);
      ApplyAt(c, rot, y3);
      RotationSourceFour(n, rot, x);
    }
    CubeExt(c4, c);
  }

  /** A rotation undoes its antagonist. */
  lemma ApplyAntagonist(c: Cube, rot: Rotation)
    requires Valid(c) && Fits(c.size, rot)
    ensures Apply(Apply(c, Antagonist(c.size, rot)), rot) == c
  {
    var n := c.size;
    var a := Antagonist(n, rot);
    var c1 := Apply(c, a);
    var c2 := Apply(c1, rot);
    forall x | InRange(n, x) ensures At(c2, x) == At(c, x) {
      ApplyAt(c1, rot, x);
      ApplyAt(c, a, RotationSource(n, rot, x));
      RotationSourceAntagonistBack(n, rot, x);
    }
    CubeExt(c2, c);
  }

  /** The antagonist undoes the rotation, read as "antagonist after rotation". */
  lemma RotationSourceAntagonistBack(n: int, rot: Rotation, x: Pos)
    requires Fits(n, rot) && InRange(n, x)
    ensures RotationSource(n, Antagonist(n, rot), RotationSource(n, rot, x)) == x
  {
    var a := Antagonist(n, rot);
    OppositeInvolution(rot.side);
    assert Antagonist(n, a) == rot;
    RotationSourceAntagonist(n, a, x);
  }

  /** Rotations about the same axis can be applied in either order. */
  lemma ApplyCommute(c: Cube, r1: Rotation, r2: Rotation)
    requires Valid(c) && Fits(c.size, r1) && Fits(c.size, r2)
    requires AssignGroup(r1) == AssignGroup(r2)
    ensures Apply(Apply(c, r1), r2) == Apply(Apply(c, r2), r1)
  {
    var n := c.size;
    var c12 := Apply(Apply(c, r1), r2);
    var c21 := Apply(Apply(c, r2), r1);
    forall x | InRange(n, x) ensures At(c12, x) == At(c21, x) {
      ApplyAt(Apply(c, r1), r2, x);
      ApplyAt(c, r1, RotationSource(n, r2, x));
      ApplyAt(Apply(c, r2), r1, x);
      ApplyAt(c, r2, RotationSource(n, r1, x));
      RotationSourceCommute(n, r1, r2, x);
    }
    CubeExt(c12, c21);
  }

  // ---------------------------------------------------------------------------
  // Colours are only moved, never changed

  lemma TurnSideClockwiseBag(c: Cube, f: Face)
    requires Valid(c)
    ensures Bag(TurnSideClockwise(c, f)) == Bag(c)
  {
    var c1 := ReflectDiagonally(c, f);
    SwapAllBag(c, DiagonalSwaps(f, 0, c.size));
    SwapAllBag(c1, HorizontalSwaps(f, 0, c.size));
  }

  lemma TurnSideCounterClockwiseBag(c: Cube, f: Face)
    requires Valid(c)
    ensures Bag(TurnSideCounterClockwise(c, f)) == Bag(c)
  {
    var c1 := ReflectDiagonally(c, f);
    SwapAllBag(c, DiagonalSwaps(f, 0, c.size));
    SwapAllBag(c1, VerticalSwaps(f, 0, c.size));
  }

  /** applyRotation permutes the squares: every colour keeps its number of squares. */
  lemma ApplyBag(c: Cube, rot: Rotation)
    requires Valid(c) && Fits(c.size, rot)
    ensures Bag(Apply(c, rot)) == Bag(c)
  {
    var c1 := Cycle(c, rot);
    SwapAllBag(c, CycleSwaps(c.size, rot));
    if rot.layer == 0 {
      TurnSideClockwiseBag(c1, rot.side);
    } else if rot.layer == c.size - 1 {
      TurnSideCounterClockwiseBag(c1, Opp(rot.side));
    }
  }

  /** applyRotation keeps a legal cube legal. */
  lemma ApplyLegal(c: Cube, rot: Rotation)
    requires Valid(c) && Fits(c.size, rot)
    ensures Legal(Apply(c, rot)) <==> Legal(c)
  {
    ApplyBag(c, rot);
  }

  /** On a solved cube, square x shows after rot the colour of the face its colour came from. */
  lemma ApplySolvedAt(c: Cube, rot: Rotation, x: Pos)
    requires c.size > 0 && Fits(c.size, rot) && InRange(c.size, x)
    ensures InRange(c.size, RotationSource(c.size, rot, x))
    ensures At(Apply(Solve(c), rot), x) == SolvedColor(RotationSource(c.size, rot, x).face)
  {
    ApplyAt(Solve(c), rot, x);
    CodesRoundTrip(At(Solve(c), RotationSource(c.size, rot, x)), SolvedColor(RotationSource(c.size, rot, x).face));
  }
}
