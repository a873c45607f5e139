/**
 * Shared vocabulary of the window manager: optional values (the source's
 * `null` slots), the `Side` enumeration with its numeric encoding, and the
 * two-component vectors used for positions, sizes and masks.
 */
module Geometry {

  datatype Option<+T> = None | Some(value: T)

  /** `WM.Side`: the declaration order fixes the numeric values 0..4. */
  datatype Side = Left | Right | Top | Bottom | NoSide

  function Ordinal(s: Side): (n: nat)
    ensures n < 5
  {
    match s
    case Left => 0
    case Right => 1
    case Top => 2
    case Bottom => 3
    case NoSide => 4
  }

  function SideOfOrdinal(n: nat): (s: Side)
    requires n < 5
    ensures Ordinal(s) == n
  {
    if n == 0 then Left
    else if n == 1 then Right
    else if n == 2 then Top
    else if n == 3 then Bottom
    else NoSide
  }

  /** Left or Right: the sides the horizontal solver reads. */
  predicate Horizontal(s: Side) {
    s == Left || s == Right
  }

  /**
   * `side ^ 1` on the numeric encoding of one of the four real sides:
   * the opposite side on the same axis.
   */
  function Flip(s: Side): (r: Side)
    requires s != NoSide
    ensures r != NoSide && r != s
    ensures Ordinal(r) / 2 == Ordinal(s) / 2
    ensures Horizontal(r) == Horizontal(s)
  {
    SideOfOrdinal(((Ordinal(s) as bv8) ^ 1) as nat)
  }

  /** Index of the reference-info record of control `i` on side `s`. */
  function RefInfoIndex(i: nat, s: Side): (k: nat)
    requires s != NoSide
    ensures k / 4 == i && k % 4 == Ordinal(s)
  {
    i * 4 + Ordinal(s)
  }

  /** `int2`: a pair of JavaScript numbers. */
  datatype Vec2 = Vec2(x: real, y: real)

  /** A control's position and size, as written back by the solver. */
  datatype Placement = Placement(position: Vec2, size: Vec2)
}
