/** The six colours of the cube (Color.java), including the sentinel that counts them. */
module CubeColors {
  import opened Wrappers

  datatype Color = White | Green | Red | Blue | Orange | Yellow | Colors {

    function IntValue(): int {
      match this
      case White => 0
      case Green => 1
      case Red => 2
      case Blue => 3
      case Orange => 4
      case Yellow => 5
      case Colors => 6
    }

    /** The character shown for a colour: the ASCII digit of its code. */
    function CharValue(): (ch: char)
      ensures ch as int == IntValue() + '0' as int
      ensures !Colors? ==> '0' <= ch <= '5'
    {
      (IntValue() + '0' as int) as char
    }
  }

  /** A colour that can be painted on a square (every constant but the sentinel). */
  type Paint = c: Color | !c.Colors? witness White

  /** The number of real colours (the code of the sentinel Colors). */
  const ColorCount := Colors.IntValue()

  /** Color.values(): the enum constants in declaration order. */
  const Values: seq<Color> := [White, Green, Red, Blue, Orange, Yellow, Colors]

  /** Color.fromInt indexes the values array by ordinal; outside it, the array access throws. */
  function FromInt(ordinal: int): (r: Result<Color>)
    ensures r.Success? <==> 0 <= ordinal <= ColorCount
    ensures r.Success? ==> r.value.IntValue() == ordinal
  {
    if 0 <= ordinal < |Values| then Success(Values[ordinal]) else Failure(IndexOutOfRange)
  }

  /** The real colour with code i. */
  function PaintOf(i: int): (c: Paint)
    requires 0 <= i < ColorCount
    ensures c.IntValue() == i
  {
    FromInt(i).value
  }

  /** The real colours carry distinct codes 0..5 and fromInt inverts intValue on them. */
  lemma CodesRoundTrip(c: Color, d: Color)
    requires !c.Colors? && !d.Colors?
    ensures 0 <= c.IntValue() < ColorCount == 6
    ensures c.IntValue() == d.IntValue() ==> c == d
    ensures FromInt(c.IntValue()) == Success(c)
  {
  }
}
