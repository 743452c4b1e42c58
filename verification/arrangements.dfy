/** The arrangements CubeTest expects after one turn of layer 0 of a solved
    cube of size 3. The colours are read through RotationSource, which ApplySolvedAt ties to
    Apply; FaceListAfter states that tie face by face. */
module SolvedArrangements {
  import opened CubeSides
  import opened CubeColors
  import opened Cubes
  import opened Rotations
  import opened RotationLaws

  /** Face f of a cube of size 3, row-major. */
  function FaceList(c: Cube, f: Face): seq<Paint>
    requires Valid(c) && c.size == 3
  {
    [At(c, Pos(f, 0, 0)), At(c, Pos(f, 0, 1)), At(c, Pos(f, 0, 2)),
     At(c, Pos(f, 1, 0)), At(c, Pos(f, 1, 1)), At(c, Pos(f, 1, 2)),
     At(c, Pos(f, 2, 0)), At(c, Pos(f, 2, 1)), At(c, Pos(f, 2, 2))]
  }

  /** The colour that square (f, i, j) of a solved cube of size n shows after rot. */
  function ShownAfter(n: int, rot: Rotation, f: Face, i: int, j: int): Paint {
    SolvedColor(RotationSource(n, rot, Pos(f, i, j)).face)
  }

  /** Face f of a solved cube of size 3 after rot, row-major. */
  function FaceAfter(rot: Rotation, f: Face): seq<Paint> {
    [ShownAfter(3, rot, f, 0, 0), ShownAfter(3, rot, f, 0, 1), ShownAfter(3, rot, f, 0, 2),
     ShownAfter(3, rot, f, 1, 0), ShownAfter(3, rot, f, 1, 1), ShownAfter(3, rot, f, 1, 2),
     ShownAfter(3, rot, f, 2, 0), ShownAfter(3, rot, f, 2, 1), ShownAfter(3, rot, f, 2, 2)]
  }

  /** The six faces of a solved cube of size 3 after rot, in the order of the Side enum. */
  function FacesAfter(rot: Rotation): seq<seq<Paint>> {
    [FaceAfter(rot, Top), FaceAfter(rot, Left), FaceAfter(rot, Front),
     FaceAfter(rot, Right), FaceAfter(rot, Back), FaceAfter(rot, Bottom)]
  }

  /** Each face of a solved cube of size 3 after rot reads as FaceAfter lists it. */
  lemma FaceListAfter(c: Cube, rot: Rotation, f: Face)
    requires c.size == 3 && Fits(3, rot)
    ensures FaceList(Apply(Solve(c), rot), f) == FaceAfter(rot, f)
  {
    ApplySolvedAt(c, rot, Pos(f, 0, 0));
    ApplySolvedAt(c, rot, Pos(f, 0, 1));
    ApplySolvedAt(c, rot, Pos(f, 0, 2));
    ApplySolvedAt(c, rot, Pos(f, 1, 0));
    ApplySolvedAt(c, rot, Pos(f, 1, 1));
    ApplySolvedAt(c, rot, Pos(f, 1, 2));
    ApplySolvedAt(c, rot, Pos(f, 2, 0));
    ApplySolvedAt(c, rot, Pos(f, 2, 1));
    ApplySolvedAt(c, rot, Pos(f, 2, 2));
  }


  lemma TopTurnShowsTop()
    ensures FaceAfter(Rotation(Top, 0), Top) == [White, White, White, White, White, White, White, White, White]
  {
    var rot := Rotation(Top, 0);
    assert ShownAfter(3, rot, Top, 0, 0) == White;
    assert ShownAfter(3, rot, Top, 0, 1) == White;
    assert ShownAfter(3, rot, Top, 0, 2) == White;
    assert ShownAfter(3, rot, Top, 1, 0) == White;
    assert ShownAfter(3, rot, Top, 1, 1) == White;
    assert ShownAfter(3, rot, Top, 1, 2) == White;
    assert ShownAfter(3, rot, Top, 2, 0) == White;
    assert ShownAfter(3, rot, Top, 2, 1) == White;
    assert ShownAfter(3, rot, Top, 2, 2) == White;
  }

  lemma TopTurnShowsLeft()
    ensures FaceAfter(Rotation(Top, 0), Left) == [Red, Red, Red, Green, Green, Green, Green, Green, Green]
  {
    var rot := Rotation(Top, 0);
    assert ShownAfter(3, rot, Left, 0, 0) == Red;
    assert ShownAfter(3, rot, Left, 0, 1) == Red;
    assert ShownAfter(3, rot, Left, 0, 2) == Red;
    assert ShownAfter(3, rot, Left, 1, 0) == Green;
    assert ShownAfter(3, rot, Left, 1, 1) == Green;
    assert ShownAfter(3, rot, Left, 1, 2) == Green;
    assert ShownAfter(3, rot, Left, 2, 0) == Green;
    assert ShownAfter(3, rot, Left, 2, 1) == Green;
    assert ShownAfter(3, rot, Left, 2, 2) == Green;
  }

  lemma TopTurnShowsFront()
    ensures FaceAfter(Rotation(Top, 0), Front) == [Blue, Blue, Blue, Red, Red, Red, Red, Red, Red]
  {
    var rot := Rotation(Top, 0);
    assert ShownAfter(3, rot, Front, 0, 0) == Blue;
    assert ShownAfter(3, rot, Front, 0, 1) == Blue;
    assert ShownAfter(3, rot, Front, 0, 2) == Blue;
    assert ShownAfter(3, rot, Front, 1, 0) == Red;
    assert ShownAfter(3, rot, Front, 1, 1) == Red;
    assert ShownAfter(3, rot, Front, 1, 2) == Red;
    assert ShownAfter(3, rot, Front, 2, 0) == Red;
    assert ShownAfter(3, rot, Front, 2, 1) == Red;
    assert ShownAfter(3, rot, Front, 2, 2) == Red;
  }

  lemma TopTurnShowsRight()
    ensures FaceAfter(Rotation(Top, 0), Right) == [Orange, Orange, Orange, Blue, Blue, Blue, Blue, Blue, Blue]
  {
    var rot := Rotation(Top, 0);
    assert ShownAfter(3, rot, Right, 0, 0) == Orange;
    assert ShownAfter(3, rot, Right, 0, 1) == Orange;
    assert ShownAfter(3, rot, Right, 0, 2) == Orange;
    assert ShownAfter(3, rot, Right, 1, 0) == Blue;
    assert ShownAfter(3, rot, Right, 1, 1) == Blue;
    assert ShownAfter(3, rot, Right, 1, 2) == Blue;
    assert ShownAfter(3, rot, Right, 2, 0) == Blue;
    assert ShownAfter(3, rot, Right, 2, 1) == Blue;
    assert ShownAfter(3, rot, Right, 2, 2) == Blue;
  }

  lemma TopTurnShowsBack()
    ensures FaceAfter(Rotation(Top, 0), Back) == [Green, Green, Green, Orange, Orange, Orange, Orange, Orange, Orange]
  {
    var rot := Rotation(Top, 0);
    assert ShownAfter(3, rot, Back, 0, 0) == Green;
    assert ShownAfter(3, rot, Back, 0, 1) == Green;
    assert ShownAfter(3, rot, Back, 0, 2) == Green;
    assert ShownAfter(3, rot, Back, 1, 0) == Orange;
    assert ShownAfter(3, rot, Back, 1, 1) == Orange;
    assert ShownAfter(3, rot, Back, 1, 2) == Orange;
    assert ShownAfter(3, rot, Back, 2, 0) == Orange;
    assert ShownAfter(3, rot, Back, 2, 1) == Orange;
    assert ShownAfter(3, rot, Back, 2, 2) == Orange;
  }

  lemma TopTurnShowsBottom()
    ensures FaceAfter(Rotation(Top, 0), Bottom) == [Yellow, Yellow, Yellow, Yellow, Yellow, Yellow, Yellow, Yellow, Yellow]
  {
    var rot := Rotation(Top, 0);
    assert ShownAfter(3, rot, Bottom, 0, 0) == Yellow;
    assert ShownAfter(3, rot, Bottom, 0, 1) == Yellow;
    assert ShownAfter(3, rot, Bottom, 0, 2) == Yellow;
    assert ShownAfter(3, rot, Bottom, 1, 0) == Yellow;
    assert ShownAfter(3, rot, Bottom, 1, 1) == Yellow;
    assert ShownAfter(3, rot, Bottom, 1, 2) == Yellow;
    assert ShownAfter(3, rot, Bottom, 2, 0) == Yellow;
    assert ShownAfter(3, rot, Bottom, 2, 1) == Yellow;
    assert ShownAfter(3, rot, Bottom, 2, 2) == Yellow;
  }

  /** One turn of layer 0 of Top on a solved cube of size 3 leaves the faces
      (Top, Left, Front, Right, Back, Bottom; each row-major) as listed. */
  lemma TopTurnArrangement()
    ensures FacesAfter(Rotation(Top, 0)) ==
      [
       [White, White, White, White, White, White, White, White, White],
       [Red, Red, Red, Green, Green, Green, Green, Green, Green],
       [Blue, Blue, Blue, Red, Red, Red, Red, Red, Red],
       [Orange, Orange, Orange, Blue, Blue, Blue, Blue, Blue, Blue],
       [Green, Green, Green, Orange, Orange, Orange, Orange, Orange, Orange],
       [Yellow, Yellow, Yellow, Yellow, Yellow, Yellow, Yellow, Yellow, Yellow]
      ]
  {
    TopTurnShowsTop();
    TopTurnShowsLeft();
    TopTurnShowsFront();
    TopTurnShowsRight();
    TopTurnShowsBack();
    TopTurnShowsBottom();
  }

  lemma LeftTurnShowsTop()
    ensures FaceAfter(Rotation(Left, 0), Top) == [Orange, White, White, Orange, White, White, Orange, White, White]
  {
    var rot := Rotation(Left, 0);
    assert ShownAfter(3, rot, Top, 0, 0) == Orange;
    assert ShownAfter(3, rot, Top, 0, 1) == White;
    assert ShownAfter(3, rot, Top, 0, 2) == White;
    assert ShownAfter(3, rot, Top, 1, 0) == Orange;
    assert ShownAfter(3, rot, Top, 1, 1) == White;
    assert ShownAfter(3, rot, Top, 1, 2) == White;
    assert ShownAfter(3, rot, Top, 2, 0) == Orange;
    assert ShownAfter(3, rot, Top, 2, 1) == White;
    assert ShownAfter(3, rot, Top, 2, 2) == White;
  }

  lemma LeftTurnShowsLeft()
    ensures FaceAfter(Rotation(Left, 0), Left) == [Green, Green, Green, Green, Green, Green, Green, Green, Green]
  {
    var rot := Rotation(Left, 0);
    assert ShownAfter(3, rot, Left, 0, 0) == Green;
    assert ShownAfter(3, rot, Left, 0, 1) == Green;
    assert ShownAfter(3, rot, Left, 0, 2) == Green;
    assert ShownAfter(3, rot, Left, 1, 0) == Green;
    assert ShownAfter(3, rot, Left, 1, 1) == Green;
    assert ShownAfter(3, rot, Left, 1, 2) == Green;
    assert ShownAfter(3, rot, Left, 2, 0) == Green;
    assert ShownAfter(3, rot, Left, 2, 1) == Green;
    assert ShownAfter(3, rot, Left, 2, 2) == Green;
  }

  lemma LeftTurnShowsFront()
    ensures FaceAfter(Rotation(Left, 0), Front) == [White, Red, Red, White, Red, Red, White, Red, Red]
  {
    var rot := Rotation(Left, 0);
    assert ShownAfter(3, rot, Front, 0, 0) == White;
    assert ShownAfter(3, rot, Front, 0, 1) == Red;
    assert ShownAfter(3, rot, Front, 0, 2) == Red;
    assert ShownAfter(3, rot, Front, 1, 0) == White;
    assert ShownAfter(3, rot, Front, 1, 1) == Red;
    assert ShownAfter(3, rot, Front, 1, 2) == Red;
    assert ShownAfter(3, rot, Front, 2, 0) == White;
    assert ShownAfter(3, rot, Front, 2, 1) == Red;
    assert ShownAfter(3, rot, Front, 2, 2) == Red;
  }

  lemma LeftTurnShowsRight()
    ensures FaceAfter(Rotation(Left, 0), Right) == [Blue, Blue, Blue, Blue, Blue, Blue, Blue, Blue, Blue]
  {
    var rot := Rotation(Left, 0);
    assert ShownAfter(3, rot, Right, 0, 0) == Blue;
    assert ShownAfter(3, rot, Right, 0, 1) == Blue;
    assert ShownAfter(3, rot, Right, 0, 2) == Blue;
    assert ShownAfter(3, rot, Right, 1, 0) == Blue;
    assert ShownAfter(3, rot, Right, 1, 1) == Blue;
    assert ShownAfter(3, rot, Right, 1, 2) == Blue;
    assert ShownAfter(3, rot, Right, 2, 0) == Blue;
    assert ShownAfter(3, rot, Right, 2, 1) == Blue;
    assert ShownAfter(3, rot, Right, 2, 2) == Blue;
  }

  lemma LeftTurnShowsBack()
    ensures FaceAfter(Rotation(Left, 0), Back) == [Orange, Orange, Yellow, Orange, Orange, Yellow, Orange, Orange, Yellow]
  {
    var rot := Rotation(Left, 0);
    assert ShownAfter(3, rot, Back, 0, 0) == Orange;
    assert ShownAfter(3, rot, Back, 0, 1) == Orange;
    assert ShownAfter(3, rot, Back, 0, 2) == Yellow;
    assert ShownAfter(3, rot, Back, 1, 0) == Orange;
    assert ShownAfter(3, rot, Back, 1, 1) == Orange;
    assert ShownAfter(3, rot, Back, 1, 2) == Yellow;
    assert ShownAfter(3, rot, Back, 2, 0) == Orange;
    assert ShownAfter(3, rot, Back, 2, 1) == Orange;
    assert ShownAfter(3, rot, Back, 2, 2) == Yellow;
  }

  lemma LeftTurnShowsBottom()
    ensures FaceAfter(Rotation(Left, 0), Bottom) == [Red, Yellow, Yellow, Red, Yellow, Yellow, Red, Yellow, Yellow]
  {
    var rot := Rotation(Left, 0);
    assert ShownAfter(3, rot, Bottom, 0, 0) == Red;
    assert ShownAfter(3, rot, Bottom, 0, 1) == Yellow;
    assert ShownAfter(3, rot, Bottom, 0, 2) == Yellow;
    assert ShownAfter(3, rot, Bottom, 1, 0) == Red;
    assert ShownAfter(3, rot, Bottom, 1, 1) == Yellow;
    assert ShownAfter(3, rot, Bottom, 1, 2) == Yellow;
    assert ShownAfter(3, rot, Bottom, 2, 0) == Red;
    assert ShownAfter(3, rot, Bottom, 2, 1) == Yellow;
    assert ShownAfter(3, rot, Bottom, 2, 2) == Yellow;
  }

  /** One turn of layer 0 of Left on a solved cube of size 3 leaves the faces
      (Top, Left, Front, Right, Back, Bottom; each row-major) as listed. */
  lemma LeftTurnArrangement()
    ensures FacesAfter(Rotation(Left, 0)) ==
      [
       [Orange, White, White, Orange, White, White, Orange, White, White],
       [Green, Green, Green, Green, Green, Green, Green, Green, Green],
       [White, Red, Red, White, Red, Red, White, Red, Red],
       [Blue, Blue, Blue, Blue, Blue, Blue, Blue, Blue, Blue],
       [Orange, Orange, Yellow, Orange, Orange, Yellow, Orange, Orange, Yellow],
       [Red, Yellow, Yellow, Red, Yellow, Yellow, Red, Yellow, Yellow]
      ]
  {
    LeftTurnShowsTop();
    LeftTurnShowsLeft();
    LeftTurnShowsFront();
    LeftTurnShowsRight();
    LeftTurnShowsBack();
    LeftTurnShowsBottom();
  }

  lemma FrontTurnShowsTop()
    ensures FaceAfter(Rotation(Front, 0), Top) == [White, White, White, White, White, White, Green, Green, Green]
  {
    var rot := Rotation(Front, 0);
    assert ShownAfter(3, rot, Top, 0, 0) == White;
    assert ShownAfter(3, rot, Top, 0, 1) == White;
    assert ShownAfter(3, rot, Top, 0, 2) == White;
    assert ShownAfter(3, rot, Top, 1, 0) == White;
    assert ShownAfter(3, rot, Top, 1, 1) == White;
    assert ShownAfter(3, rot, Top, 1, 2) == White;
    assert ShownAfter(3, rot, Top, 2, 0) == Green;
    assert ShownAfter(3, rot, Top, 2, 1) == Green;
    assert ShownAfter(3, rot, Top, 2, 2) == Green;
  }

  lemma FrontTurnShowsLeft()
    ensures FaceAfter(Rotation(Front, 0), Left) == [Green, Green, Yellow, Green, Green, Yellow, Green, Green, Yellow]
  {
    var rot := Rotation(Front, 0);
    assert ShownAfter(3, rot, Left, 0, 0) == Green;
    assert ShownAfter(3, rot, Left, 0, 1) == Green;
    assert ShownAfter(3, rot, Left, 0, 2) == Yellow;
    assert ShownAfter(3, rot, Left, 1, 0) == Green;
    assert ShownAfter(3, rot, Left, 1, 1) == Green;
    assert ShownAfter(3, rot, Left, 1, 2) == Yellow;
    assert ShownAfter(3, rot, Left, 2, 0) == Green;
    assert ShownAfter(3, rot, Left, 2, 1) == Green;
    assert ShownAfter(3, rot, Left, 2, 2) == Yellow;
  }

  lemma FrontTurnShowsFront()
    ensures FaceAfter(Rotation(Front, 0), Front) == [Red, Red, Red, Red, Red, Red, Red, Red, Red]
  {
    var rot := Rotation(Front, 0);
    assert ShownAfter(3, rot, Front, 0, 0) == Red;
    assert ShownAfter(3, rot, Front, 0, 1) == Red;
    assert ShownAfter(3, rot, Front, 0, 2) == Red;
    assert ShownAfter(3, rot, Front, 1, 0) == Red;
    assert ShownAfter(3, rot, Front, 1, 1) == Red;
    assert ShownAfter(3, rot, Front, 1, 2) == Red;
    assert ShownAfter(3, rot, Front, 2, 0) == Red;
    assert ShownAfter(3, rot, Front, 2, 1) == Red;
    assert ShownAfter(3, rot, Front, 2, 2) == Red;
  }

  lemma FrontTurnShowsRight()
    ensures FaceAfter(Rotation(Front, 0), Right) == [White, Blue, Blue, White, Blue, Blue, White, Blue, Blue]
  {
    var rot := Rotation(Front, 0);
    assert ShownAfter(3, rot, Right, 0, 0) == White;
    assert ShownAfter(3, rot, Right, 0, 1) == Blue;
    assert ShownAfter(3, rot, Right, 0, 2) == Blue;
    assert ShownAfter(3, rot, Right, 1, 0) == White;
    assert ShownAfter(3, rot, Right, 1, 1) == Blue;
    assert ShownAfter(3, rot, Right, 1, 2) == Blue;
    assert ShownAfter(3, rot, Right, 2, 0) == White;
    assert ShownAfter(3, rot, Right, 2, 1) == Blue;
    assert ShownAfter(3, rot, Right, 2, 2) == Blue;
  }

  lemma FrontTurnShowsBack()
    ensures FaceAfter(Rotation(Front, 0), Back) == [Orange, Orange, Orange, Orange, Orange, Orange, Orange, Orange, Orange]
  {
    var rot := Rotation(Front, 0);
    assert ShownAfter(3, rot, Back, 0, 0) == Orange;
    assert ShownAfter(3, rot, Back, 0, 1) == Orange;
    assert ShownAfter(3, rot, Back, 0, 2) == Orange;
    assert ShownAfter(3, rot, Back, 1, 0) == Orange;
    assert ShownAfter(3, rot, Back, 1, 1) == Orange;
    assert ShownAfter(3, rot, Back, 1, 2) == Orange;
    assert ShownAfter(3, rot, Back, 2, 0) == Orange;
    assert ShownAfter(3, rot, Back, 2, 1) == Orange;
    assert ShownAfter(3, rot, Back, 2, 2) == Orange;
  }

  lemma FrontTurnShowsBottom()
    ensures FaceAfter(Rotation(Front, 0), Bottom) == [Blue, Blue, Blue, Yellow, Yellow, Yellow, Yellow, Yellow, Yellow]
  {
    var rot := Rotation(Front, 0);
    assert ShownAfter(3, rot, Bottom, 0, 0) == Blue;
    assert ShownAfter(3, rot, Bottom, 0, 1) == Blue;
    assert ShownAfter(3, rot, Bottom, 0, 2) == Blue;
    assert ShownAfter(3, rot, Bottom, 1, 0) == Yellow;
    assert ShownAfter(3, rot, Bottom, 1, 1) == Yellow;
    assert ShownAfter(3, rot, Bottom, 1, 2) == Yellow;
    assert ShownAfter(3, rot, Bottom, 2, 0) == Yellow;
    assert ShownAfter(3, rot, Bottom, 2, 1) == Yellow;
    assert ShownAfter(3, rot, Bottom, 2, 2) == Yellow;
  }

  /** One turn of layer 0 of Front on a solved cube of size 3 leaves the faces
      (Top, Left, Front, Right, Back, Bottom; each row-major) as listed. */
  lemma FrontTurnArrangement()
    ensures FacesAfter(Rotation(Front, 0)) ==
      [
       [White, White, White, White, White, White, Green, Green, Green],
       [Green, Green, Yellow, Green, Green, Yellow, Green, Green, Yellow],
       [Red, Red, Red, Red, Red, Red, Red, Red, Red],
       [White, Blue, Blue, White, Blue, Blue, White, Blue, Blue],
       [Orange, Orange, Orange, Orange, Orange, Orange, Orange, Orange, Orange],
       [Blue, Blue, Blue, Yellow, Yellow, Yellow, Yellow, Yellow, Yellow]
      ]
  {
    FrontTurnShowsTop();
    FrontTurnShowsLeft();
    FrontTurnShowsFront();
    FrontTurnShowsRight();
    FrontTurnShowsBack();
    FrontTurnShowsBottom();
  }

  lemma RightTurnShowsTop()
    ensures FaceAfter(Rotation(Right, 0), Top) == [White, White, Red, White, White, Red, White, White, Red]
  {
    var rot := Rotation(Right, 0);
    assert ShownAfter(3, rot, Top, 0, 0) == White;
    assert ShownAfter(3, rot, Top, 0, 1) == White;
    assert ShownAfter(3, rot, Top, 0, 2) == Red;
    assert ShownAfter(3, rot, Top, 1, 0) == White;
    assert ShownAfter(3, rot, Top, 1, 1) == White;
    assert ShownAfter(3, rot, Top, 1, 2) == Red;
    assert ShownAfter(3, rot, Top, 2, 0) == White;
    assert ShownAfter(3, rot, Top, 2, 1) == White;
    assert ShownAfter(3, rot, Top, 2, 2) == Red;
  }

  lemma RightTurnShowsLeft()
    ensures FaceAfter(Rotation(Right, 0), Left) == [Green, Green, Green, Green, Green, Green, Green, Green, Green]
  {
    var rot := Rotation(Right, 0);
    assert ShownAfter(3, rot, Left, 0, 0) == Green;
    assert ShownAfter(3, rot, Left, 0, 1) == Green;
    assert ShownAfter(3, rot, Left, 0, 2) == Green;
    assert ShownAfter(3, rot, Left, 1, 0) == Green;
    assert ShownAfter(3, rot, Left, 1, 1) == Green;
    assert ShownAfter(3, rot, Left, 1, 2) == Green;
    assert ShownAfter(3, rot, Left, 2, 0) == Green;
    assert ShownAfter(3, rot, Left, 2, 1) == Green;
    assert ShownAfter(3, rot, Left, 2, 2) == Green;
  }

  lemma RightTurnShowsFront()
    ensures FaceAfter(Rotation(Right, 0), Front) == [Red, Red, Yellow, Red, Red, Yellow, Red, Red, Yellow]
  {
    var rot := Rotation(Right, 0);
    assert ShownAfter(3, rot, Front, 0, 0) == Red;
    assert ShownAfter(3, rot, Front, 0, 1) == Red;
    assert ShownAfter(3, rot, Front, 0, 2) == Yellow;
    assert ShownAfter(3, rot, Front, 1, 0) == Red;
    assert ShownAfter(3, rot, Front, 1, 1) == Red;
    assert ShownAfter(3, rot, Front, 1, 2) == Yellow;
    assert ShownAfter(3, rot, Front, 2, 0) == Red;
    assert ShownAfter(3, rot, Front, 2, 1) == Red;
    assert ShownAfter(3, rot, Front, 2, 2) == Yellow;
  }

  lemma RightTurnShowsRight()
    ensures FaceAfter(Rotation(Right, 0), Right) == [Blue, Blue, Blue, Blue, Blue, Blue, Blue, Blue, Blue]
  {
    var rot := Rotation(Right, 0);
    assert ShownAfter(3, rot, Right, 0, 0) == Blue;
    assert ShownAfter(3, rot, Right, 0, 1) == Blue;
    assert ShownAfter(3, rot, Right, 0, 2) == Blue;
    assert ShownAfter(3, rot, Right, 1, 0) == Blue;
    assert ShownAfter(3, rot, Right, 1, 1) == Blue;
    assert ShownAfter(3, rot, Right, 1, 2) == Blue;
    assert ShownAfter(3, rot, Right, 2, 0) == Blue;
    assert ShownAfter(3, rot, Right, 2, 1) == Blue;
    assert ShownAfter(3, rot, Right, 2, 2) == Blue;
  }

  lemma RightTurnShowsBack()
    ensures FaceAfter(Rotation(Right, 0), Back) == [White, Orange, Orange, White, Orange, Orange, White, Orange, Orange]
  {
    var rot := Rotation(Right, 0);
    assert ShownAfter(3, rot, Back, 0, 0) == White;
    assert ShownAfter(3, rot, Back, 0, 1) == Orange;
    assert ShownAfter(3, rot, Back, 0, 2) == Orange;
    assert ShownAfter(3, rot, Back, 1, 0) == White;
    assert ShownAfter(3, rot, Back, 1, 1) == Orange;
    assert ShownAfter(3, rot, Back, 1, 2) == Orange;
    assert ShownAfter(3, rot, Back, 2, 0) == White;
    assert ShownAfter(3, rot, Back, 2, 1) == Orange;
    assert ShownAfter(3, rot, Back, 2, 2) == Orange;
  }

  lemma RightTurnShowsBottom()
    ensures FaceAfter(Rotation(Right, 0), Bottom) == [Yellow, Yellow, Orange, Yellow, Yellow, Orange, Yellow, Yellow, Orange]
  {
    var rot := Rotation(Right, 0);
    assert ShownAfter(3, rot, Bottom, 0, 0) == Yellow;
    assert ShownAfter(3, rot, Bottom, 0, 1) == Yellow;
    assert ShownAfter(3, rot, Bottom, 0, 2) == Orange;
    assert ShownAfter(3, rot, Bottom, 1, 0) == Yellow;
    assert ShownAfter(3, rot, Bottom, 1, 1) == Yellow;
    assert ShownAfter(3, rot, Bottom, 1, 2) == Orange;
    assert ShownAfter(3, rot, Bottom, 2, 0) == Yellow;
    assert ShownAfter(3, rot, Bottom, 2, 1) == Yellow;
    assert ShownAfter(3, rot, Bottom, 2, 2) == Orange;
  }

  /** One turn of layer 0 of Right on a solved cube of size 3 leaves the faces
      (Top, Left, Front, Right, Back, Bottom; each row-major) as listed. */
  lemma RightTurnArrangement()
    ensures FacesAfter(Rotation(Right, 0)) ==
      [
       [White, White, Red, White, White, Red, White, White, Red],
       [Green, Green, Green, Green, Green, Green, Green, Green, Green],
       [Red, Red, Yellow, Red, Red, Yellow, Red, Red, Yellow],
       [Blue, Blue, Blue, Blue, Blue, Blue, Blue, Blue, Blue],
       [White, Orange, Orange, White, Orange, Orange, White, Orange, Orange],
       [Yellow, Yellow, Orange, Yellow, Yellow, Orange, Yellow, Yellow, Orange]
      ]
  {
    RightTurnShowsTop();
    RightTurnShowsLeft();
    RightTurnShowsFront();
    RightTurnShowsRight();
    RightTurnShowsBack();
    RightTurnShowsBottom();
  }

  lemma BackTurnShowsTop()
    ensures FaceAfter(Rotation(Back, 0), Top) == [Blue, Blue, Blue, White, White, White, White, White, White]
  {
    var rot := Rotation(Back, 0);
    assert ShownAfter(3, rot, Top, 0, 0) == Blue;
    assert ShownAfter(3, rot, Top, 0, 1) == Blue;
    assert ShownAfter(3, rot, Top, 0, 2) == Blue;
    assert ShownAfter(3, rot, Top, 1, 0) == White;
    assert ShownAfter(3, rot, Top, 1, 1) == White;
    assert ShownAfter(3, rot, Top, 1, 2) == White;
    assert ShownAfter(3, rot, Top, 2, 0) == White;
    assert ShownAfter(3, rot, Top, 2, 1) == White;
    assert ShownAfter(3, rot, Top, 2, 2) == White;
  }

  lemma BackTurnShowsLeft()
    ensures FaceAfter(Rotation(Back, 0), Left) == [White, Green, Green, White, Green, Green, White, Green, Green]
  {
    var rot := Rotation(Back, 0);
    assert ShownAfter(3, rot, Left, 0, 0) == White;
    assert ShownAfter(3, rot, Left, 0, 1) == Green;
    assert ShownAfter(3, rot, Left, 0, 2) == Green;
    assert ShownAfter(3, rot, Left, 1, 0) == White;
    assert ShownAfter(3, rot, Left, 1, 1) == Green;
    assert ShownAfter(3, rot, Left, 1, 2) == Green;
    assert ShownAfter(3, rot, Left, 2, 0) == White;
    assert ShownAfter(3, rot, Left, 2, 1) == Green;
    assert ShownAfter(3, rot, Left, 2, 2) == Green;
  }

  lemma BackTurnShowsFront()
    ensures FaceAfter(Rotation(Back, 0), Front) == [Red, Red, Red, Red, Red, Red, Red, Red, Red]
  {
    var rot := Rotation(Back, 0);
    assert ShownAfter(3, rot, Front, 0, 0) == Red;
    assert ShownAfter(3, rot, Front, 0, 1) == Red;
    assert ShownAfter(3, rot, Front, 0, 2) == Red;
    assert ShownAfter(3, rot, Front, 1, 0) == Red;
    assert ShownAfter(3, rot, Front, 1, 1) == Red;
    assert ShownAfter(3, rot, Front, 1, 2) == Red;
    assert ShownAfter(3, rot, Front, 2, 0) == Red;
    assert ShownAfter(3, rot, Front, 2, 1) == Red;
    assert ShownAfter(3, rot, Front, 2, 2) == Red;
  }

  lemma BackTurnShowsRight()
    ensures FaceAfter(Rotation(Back, 0), Right) == [Blue, Blue, Yellow, Blue, Blue, Yellow, Blue, Blue, Yellow]
  {
    var rot := Rotation(Back, 0);
    assert ShownAfter(3, rot, Right, 0, 0) == Blue;
    assert ShownAfter(3, rot, Right, 0, 1) == Blue;
    assert ShownAfter(3, rot, Right, 0, 2) == Yellow;
    assert ShownAfter(3, rot, Right, 1, 0) == Blue;
    assert ShownAfter(3, rot, Right, 1, 1) == Blue;
    assert ShownAfter(3, rot, Right, 1, 2) == Yellow;
    assert ShownAfter(3, rot, Right, 2, 0) == Blue;
    assert ShownAfter(3, rot, Right, 2, 1) == Blue;
    assert ShownAfter(3, rot, Right, 2, 2) == Yellow;
  }

  lemma BackTurnShowsBack()
    ensures FaceAfter(Rotation(Back, 0), Back) == [Orange, Orange, Orange, Orange, Orange, Orange, Orange, Orange, Orange]
  {
    var rot := Rotation(Back, 0);
    assert ShownAfter(3, rot, Back, 0, 0) == Orange;
    assert ShownAfter(3, rot, Back, 0, 1) == Orange;
    assert ShownAfter(3, rot, Back, 0, 2) == Orange;
    assert ShownAfter(3, rot, Back, 1, 0) == Orange;
    assert ShownAfter(3, rot, Back, 1, 1) == Orange;
    assert ShownAfter(3, rot, Back, 1, 2) == Orange;
    assert ShownAfter(3, rot, Back, 2, 0) == Orange;
    assert ShownAfter(3, rot, Back, 2, 1) == Orange;
    assert ShownAfter(3, rot, Back, 2, 2) == Orange;
  }

  lemma BackTurnShowsBottom()
    ensures FaceAfter(Rotation(Back, 0), Bottom) == [Yellow, Yellow, Yellow, Yellow, Yellow, Yellow, Green, Green, Green]
  {
    var rot := Rotation(Back, 0);
    assert ShownAfter(3, rot, Bottom, 0, 0) == Yellow;
    assert ShownAfter(3, rot, Bottom, 0, 1) == Yellow;
    assert ShownAfter(3, rot, Bottom, 0, 2) == Yellow;
    assert ShownAfter(3, rot, Bottom, 1, 0) == Yellow;
    assert ShownAfter(3, rot, Bottom, 1, 1) == Yellow;
    assert ShownAfter(3, rot, Bottom, 1, 2) == Yellow;
    assert ShownAfter(3, rot, Bottom, 2, 0) == Green;
    assert ShownAfter(3, rot, Bottom, 2, 1) == Green;
    assert ShownAfter(3, rot, Bottom, 2, 2) == Green;
  }

  /** One turn of layer 0 of Back on a solved cube of size 3 leaves the faces
      (Top, Left, Front, Right, Back, Bottom; each row-major) as listed. */
  lemma BackTurnArrangement()
    ensures FacesAfter(Rotation(Back, 0)) ==
      [
       [Blue, Blue, Blue, White, White, White, White, White, White],
       [White, Green, Green, White, Green, Green, White, Green, Green],
       [Red, Red, Red, Red, Red, Red, Red, Red, Red],
       [Blue, Blue, Yellow, Blue, Blue, Yellow, Blue, Blue, Yellow],
       [Orange, Orange, Orange, Orange, Orange, Orange, Orange, Orange, Orange],
       [Yellow, Yellow, Yellow, Yellow, Yellow, Yellow, Green, Green, Green]
      ]
  {
    BackTurnShowsTop();
    BackTurnShowsLeft();
    BackTurnShowsFront();
    BackTurnShowsRight();
    BackTurnShowsBack();
    BackTurnShowsBottom();
  }

  lemma BottomTurnShowsTop()
    ensures FaceAfter(Rotation(Bottom, 0), Top) == [White, White, White, White, White, White, White, White, White]
  {
    var rot := Rotation(Bottom, 0);
    assert ShownAfter(3, rot, Top, 0, 0) == White;
    assert ShownAfter(3, rot, Top, 0, 1) == White;
    assert ShownAfter(3, rot, Top, 0, 2) == White;
    assert ShownAfter(3, rot, Top, 1, 0) == White;
    assert ShownAfter(3, rot, Top, 1, 1) == White;
    assert ShownAfter(3, rot, Top, 1, 2) == White;
    assert ShownAfter(3, rot, Top, 2, 0) == White;
    assert ShownAfter(3, rot, Top, 2, 1) == White;
    assert ShownAfter(3, rot, Top, 2, 2) == White;
  }

  lemma BottomTurnShowsLeft()
    ensures FaceAfter(Rotation(Bottom, 0), Left) == [Green, Green, Green, Green, Green, Green, Orange, Orange, Orange]
  {
    var rot := Rotation(Bottom, 0);
    assert ShownAfter(3, rot, Left, 0, 0) == Green;
    assert ShownAfter(3, rot, Left, 0, 1) == Green;
    assert ShownAfter(3, rot, Left, 0, 2) == Green;
    assert ShownAfter(3, rot, Left, 1, 0) == Green;
    assert ShownAfter(3, rot, Left, 1, 1) == Green;
    assert ShownAfter(3, rot, Left, 1, 2) == Green;
    assert ShownAfter(3, rot, Left, 2, 0) == Orange;
    assert ShownAfter(3, rot, Left, 2, 1) == Orange;
    assert ShownAfter(3, rot, Left, 2, 2) == Orange;
  }

  lemma BottomTurnShowsFront()
    ensures FaceAfter(Rotation(Bottom, 0), Front) == [Red, Red, Red, Red, Red, Red, Green, Green, Green]
  {
    var rot := Rotation(Bottom, 0);
    assert ShownAfter(3, rot, Front, 0, 0) == Red;
    assert ShownAfter(3, rot, Front, 0, 1) == Red;
    assert ShownAfter(3, rot, Front, 0, 2) == Red;
    assert ShownAfter(3, rot, Front, 1, 0) == Red;
    assert ShownAfter(3, rot, Front, 1, 1) == Red;
    assert ShownAfter(3, rot, Front, 1, 2) == Red;
    assert ShownAfter(3, rot, Front, 2, 0) == Green;
    assert ShownAfter(3, rot, Front, 2, 1) == Green;
    assert ShownAfter(3, rot, Front, 2, 2) == Green;
  }

  lemma BottomTurnShowsRight()
    ensures FaceAfter(Rotation(Bottom, 0), Right) == [Blue, Blue, Blue, Blue, Blue, Blue, Red, Red, Red]
  {
    var rot := Rotation(Bottom, 0);
    assert ShownAfter(3, rot, Right, 0, 0) == Blue;
    assert ShownAfter(3, rot, Right, 0, 1) == Blue;
    assert ShownAfter(3, rot, Right, 0, 2) == Blue;
    assert ShownAfter(3, rot, Right, 1, 0) == Blue;
    assert ShownAfter(3, rot, Right, 1, 1) == Blue;
    assert ShownAfter(3, rot, Right, 1, 2) == Blue;
    assert ShownAfter(3, rot, Right, 2, 0) == Red;
    assert ShownAfter(3, rot, Right, 2, 1) == Red;
    assert ShownAfter(3, rot, Right, 2, 2) == Red;
  }

  lemma BottomTurnShowsBack()
    ensures FaceAfter(Rotation(Bottom, 0), Back) == [Orange, Orange, Orange, Orange, Orange, Orange, Blue, Blue, Blue]
  {
    var rot := Rotation(Bottom, 0);
    assert ShownAfter(3, rot, Back, 0, 0) == Orange;
    assert ShownAfter(3, rot, Back, 0, 1) == Orange;
    assert ShownAfter(3, rot, Back, 0, 2) == Orange;
    assert ShownAfter(3, rot, Back, 1, 0) == Orange;
    assert ShownAfter(3, rot, Back, 1, 1) == Orange;
    assert ShownAfter(3, rot, Back, 1, 2) == Orange;
    assert ShownAfter(3, rot, Back, 2, 0) == Blue;
    assert ShownAfter(3, rot, Back, 2, 1) == Blue;
    assert ShownAfter(3, rot, Back, 2, 2) == Blue;
  }

  lemma BottomTurnShowsBottom()
    ensures FaceAfter(Rotation(Bottom, 0), Bottom) == [Yellow, Yellow, Yellow, Yellow, Yellow, Yellow, Yellow, Yellow, Yellow]
  {
    var rot := Rotation(Bottom, 0);
    assert ShownAfter(3, rot, Bottom, 0, 0) == Yellow;
    assert ShownAfter(3, rot, Bottom, 0, 1) == Yellow;
    assert ShownAfter(3, rot, Bottom, 0, 2) == Yellow;
    assert ShownAfter(3, rot, Bottom, 1, 0) == Yellow;
    assert ShownAfter(3, rot, Bottom, 1, 1) == Yellow;
    assert ShownAfter(3, rot, Bottom, 1, 2) == Yellow;
    assert ShownAfter(3, rot, Bottom, 2, 0) == Yellow;
    assert ShownAfter(3, rot, Bottom, 2, 1) == Yellow;
    assert ShownAfter(3, rot, Bottom, 2, 2) == Yellow;
  }

  /** One turn of layer 0 of Bottom on a solved cube of size 3 leaves the faces
      (Top, Left, Front, Right, Back, Bottom; each row-major) as listed. */
  lemma BottomTurnArrangement()
    ensures FacesAfter(Rotation(Bottom, 0)) ==
      [
       [White, White, White, White, White, White, White, White, White],
       [Green, Green, Green, Green, Green, Green, Orange, Orange, Orange],
       [Red, Red, Red, Red, Red, Red, Green, Green, Green],
       [Blue, Blue, Blue, Blue, Blue, Blue, Red, Red, Red],
       [Orange, Orange, Orange, Orange, Orange, Orange, Blue, Blue, Blue],
       [Yellow, Yellow, Yellow, Yellow, Yellow, Yellow, Yellow, Yellow, Yellow]
      ]
  {
    BottomTurnShowsTop();
    BottomTurnShowsLeft();
    BottomTurnShowsFront();
    BottomTurnShowsRight();
    BottomTurnShowsBack();
    BottomTurnShowsBottom();
  }
}
