/** The three rotation axes (AxisGroup.java). */
module AxisGroups {
  import opened Wrappers
  import opened CubeSides

  datatype AxisGroup = TopBottom | LeftRight | FrontBack | NumAxes | NoAxis {
    function IntValue(): int {
      match this
      case TopBottom => 0
      case LeftRight => 1
      case FrontBack => 2
      case NumAxes => 3
      case NoAxis => -1
    }
  }

  /** AxisGroup.values(): the enum constants in declaration order. */
  const Values: seq<AxisGroup> := [TopBottom, LeftRight, FrontBack, NumAxes, NoAxis]

  function FromInt(ordinal: int): (r: Result<AxisGroup>)
    ensures r.Success? <==> 0 <= ordinal < |Values|
    ensures 0 <= ordinal < 4 ==> r.Success? && r.value.IntValue() == ordinal
  {
    if 0 <= ordinal < |Values| then Success(Values[ordinal]) else Failure(IndexOutOfRange)
  }

  /** 0 for the primary faces Top, Left and Front, 1 for every other value. */
  function Rank(s: Side): nat {
    if s == Top || s == Left || s == Front then 0 else 1
  }

  /** The axis of a face: the primary faces are named directly, any other value
      recurses on its opposite, which fails for the sentinels. */
  function FromSide(s: Side): (r: Result<AxisGroup>)
    ensures r.Success? <==> s.IsFace()
    ensures r.Success? ==> 0 <= r.value.IntValue() < NumAxes.IntValue()
    ensures r.Failure? ==> r.error == InvalidSide
    decreases Rank(s)
  {
    match s
    case Top => Success(TopBottom)
    case Left => Success(LeftRight)
    case Front => Success(FrontBack)
    case Right | Back | Bottom => FromSide(s.Opposite().value)
    case NoSide | Sides => Failure(s.Opposite().error)  // opposite() throws
  }

  /** The axis of a real face: the axis through it and its opposite face. */
  function AxisOf(f: Face): (a: AxisGroup)
    ensures Success(a) == FromSide(f)
    ensures a == match f
                 case Top | Bottom => TopBottom
                 case Left | Right => LeftRight
                 case Front | Back => FrontBack
  {
    FromSide(f).value
  }

  /** A face and its opposite share an axis, and the primary faces name their axes. */
  lemma FromSideOpposite(s: Side)
    requires s.IsFace()
    ensures FromSide(s) == FromSide(s.Opposite().value)
    ensures FromSide(Top) == Success(TopBottom)
    ensures FromSide(Left) == Success(LeftRight)
    ensures FromSide(Front) == Success(FrontBack)
  {
  }

  /** Two faces share an axis exactly when they are equal or opposite. */
  lemma SameAxisIff(f: Face, g: Face)
    ensures AxisOf(f) == AxisOf(g) <==> g == f || g == Opp(f)
  {
  }

  /** For the axis code a of a face, (a+1)%3 and (a+2)%3 are the codes of the other two
      axes: they are the axes of exactly the faces not equal or opposite to it. */
  lemma OtherAxes(f: Face, g: Face)
    ensures var a := AxisOf(f).IntValue();
            var b := AxisOf(g).IntValue();
            (b == (a + 1) % NumAxes.IntValue() || b == (a + 2) % NumAxes.IntValue()) <==> g != f && g != Opp(f)
  {
  }
}
