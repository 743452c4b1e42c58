/** The faces of the cube (Side.java), including the two sentinel values of the enum. */
module CubeSides {
  import opened Wrappers

  datatype Side = Top | Left | Front | Right | Back | Bottom | NoSide | Sides {

    /** The integer code carried by each enum constant. */
    function IntValue(): int {
      match this
      case Top => 0
      case Left => 1
      case Front => 2
      case Right => 3
      case Back => 4
      case Bottom => 5
      case NoSide => -1
      case Sides => 6
    }

    /** True for the six real faces, false for the sentinels. */
    predicate IsFace() {
      !NoSide? && !Sides?
    }

    /** The face across the cube; the sentinels have none. */
    function Opposite(): (r: Result<Side>)
      ensures r.Success? <==> IsFace()
      ensures r.Success? ==> r.value.IsFace() && r.value != this
      ensures r.Failure? ==> r.error == InvalidSide
    {
      match this
      case Top => Success(Bottom)
      case Left => Success(Right)
      case Front => Success(Back)
      case Right => Success(Left)
      case Back => Success(Front)
      case Bottom => Success(Top)
      case _ => Failure(InvalidSide)
    }
  }

  /** One of the six real faces. */
  type Face = s: Side | s.IsFace() witness Top

  /** The number of real faces (the code of the sentinel Sides). */
  const FaceCount := Sides.IntValue()

  /** The face across from a real face. */
  function Opp(f: Face): (r: Face)
    ensures Success(r) == f.Opposite()
  {
    f.Opposite().value
  }

  /** The array index of a real face: its code, 0..5. */
  function Index(f: Face): (i: nat)
    ensures i < FaceCount && i == f.IntValue()
  {
    f.IntValue()
  }

  /** Side.values(): the enum constants in declaration order. */
  const Values: seq<Side> := [Top, Left, Front, Right, Back, Bottom, NoSide, Sides]

  /** Side.fromInt indexes the values array by ordinal; outside it, the array access throws. */
  function FromInt(ordinal: int): (r: Result<Side>)
    ensures r.Success? <==> 0 <= ordinal < |Values|
    ensures 0 <= ordinal < FaceCount ==> r.Success? && r.value.IsFace() && r.value.IntValue() == ordinal
  {
    if 0 <= ordinal < |Values| then Success(Values[ordinal]) else Failure(IndexOutOfRange)
  }

  /** The real face with a given code. */
  function FaceOf(i: int): (f: Face)
    requires 0 <= i < FaceCount
    ensures Index(f) == i
  {
    FromInt(i).value
  }

  /** Opposite is an involution without fixed points, pairing Top/Bottom, Left/Right and Front/Back. */
  lemma OppositeInvolution(s: Side)
    requires s.IsFace()
    ensures s.Opposite().Success? && s.Opposite().value.Opposite() == Success(s)
    ensures s.Opposite().value != s
    ensures s == Top <==> s.Opposite() == Success(Bottom)
    ensures s == Left <==> s.Opposite() == Success(Right)
    ensures s == Front <==> s.Opposite() == Success(Back)
  {
  }

  /** The six faces carry the codes 0..5, and fromInt inverts intValue on them. */
  lemma FromIntIntValue(s: Side)
    requires s.IsFace()
    ensures 0 <= s.IntValue() < 6
    ensures FromInt(s.IntValue()) == Success(s)
  {
  }

  /** The sentinels do not round-trip: NoSide's code is not an ordinal, and Sides' code is NoSide's ordinal. */
  lemma FromIntSentinels()
    ensures FromInt(NoSide.IntValue()).Failure?
    ensures FromInt(Sides.IntValue()) == Success(NoSide)
  {
  }
}
