/** Facings and single steps on the grid (`rotateCW` and `move1`). */
module Geometry {

  /** The four facings `n`, `e`, `s`, `w`. */
  datatype Face = North | East | South | West

  /** A quarter turn clockwise. */
  function RotateCW(f: Face): Face
  {
    match f
    case North => East
    case East => South
    case South => West
    case West => North
  }

  /** A quarter turn counter-clockwise, written as the engine writes it:
      three clockwise quarter turns. */
  function RotateCCW(f: Face): Face
  {
    RotateCW(RotateCW(RotateCW(f)))
  }

  /** One step in the given facing; north decreases `y`, east increases `x`. */
  function Move1(x: int, y: int, f: Face): (int, int)
  {
    match f
    case North => (x, y - 1)
    case East => (x + 1, y)
    case South => (x, y + 1)
    case West => (x - 1, y)
  }

  /** Four clockwise quarter turns are the identity, and fewer than four never are. */
  lemma RotateCWFourTimes(f: Face)
    ensures RotateCW(RotateCW(RotateCW(RotateCW(f)))) == f
    ensures RotateCW(f) != f && RotateCW(RotateCW(f)) != f && RotateCCW(f) != f
  {
  }

  /** A left turn undoes a right turn and the other way round. */
  lemma RotateCCWInvertsCW(f: Face)
    ensures RotateCCW(RotateCW(f)) == f
    ensures RotateCW(RotateCCW(f)) == f
  {
  }

  /** A step changes exactly one coordinate by exactly one, and a step in the
      opposite facing (two clockwise quarter turns) leads back. */
  lemma Move1UnitStep(x: int, y: int, f: Face)
    ensures var p := Move1(x, y, f);
      (p.0 == x && (p.1 == y - 1 || p.1 == y + 1)) || (p.1 == y && (p.0 == x - 1 || p.0 == x + 1))
    ensures var p := Move1(x, y, f); Move1(p.0, p.1, RotateCW(RotateCW(f))) == (x, y)
    ensures f == North <==> Move1(x, y, f) == (x, y - 1)
  {
  }
}
