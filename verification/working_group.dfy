/** The working groups used by the tests (WorkingGroup.java): the axes plus the reader group. */
module WorkingGroups {
  import opened Wrappers
  import opened CubeSides
  import AxisGroups

  datatype WorkingGroup = TopBottom | LeftRight | FrontBack | NumAxes | Readers {
    function IntValue(): int {
      match this
      case TopBottom => 0
      case LeftRight => 1
      case FrontBack => 2
      case NumAxes => 3
      case Readers => -1
    }
  }

  /** Same shape as AxisGroup.fromSide: primary faces directly, the others through their opposite. */
  function FromSide(s: Side): (r: Result<WorkingGroup>)
    ensures r.Success? <==> s.IsFace()
    ensures r.Success? ==> 0 <= r.value.IntValue() < NumAxes.IntValue()
    decreases AxisGroups.Rank(s)
  {
    match s
    case Top => Success(TopBottom)
    case Left => Success(LeftRight)
    case Front => Success(FrontBack)
    case Right | Back | Bottom => FromSide(s.Opposite().value)
    case NoSide | Sides => Failure(s.Opposite().error)  // opposite() throws
  }

  /** A face and its opposite share a working group; the primary faces name theirs. */
  lemma FromSideOpposite(s: Side)
    requires s.IsFace()
    ensures FromSide(s) == FromSide(s.Opposite().value)
    ensures FromSide(Top) == Success(TopBottom)
    ensures FromSide(Left) == Success(LeftRight)
    ensures FromSide(Front) == Success(FrontBack)
  {
  }

  /** The working group of any side has the same code as its axis group, failures included,
      and both enums count three axes. */
  lemma AgreesWithAxisGroup(s: Side)
    ensures FromSide(s).Success? <==> AxisGroups.FromSide(s).Success?
    ensures FromSide(s).Success? ==> FromSide(s).value.IntValue() == AxisGroups.FromSide(s).value.IntValue()
    ensures NumAxes.IntValue() == AxisGroups.AxisGroup.NumAxes.IntValue() == 3
  {
  }
}
