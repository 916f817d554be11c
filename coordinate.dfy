/**
 * The board coordinate transform: square index (row-major from a1, stride 8)
 * to a board-centred position and back, and the bounds test applied to clicks.
 *
 * Positions are exact reals in pixel units; one cell is `GridScale` = 50 wide.
 */
module Coordinate {

  /** A board-local position (Bevy's `Vec2`), origin at the board centre. */
  datatype Pos = Pos(x: real, y: real)

  const GridScale: real := 50.0
  /** Half the width of eight cells: the clickable region is [-200, 200] on each axis. */
  const BoardHalfScale: real := GridScale * 8.0 / 2.0
  /** Offset added to a cell's scaled file/rank (both axes). */
  const BoardOffset: real := -BoardHalfScale
  /** Half a cell, added before dividing so that a click maps to the nearest cell. */
  const OriginOffset: real := GridScale / 2.0

  /** File (column, 0 = a) and rank (row, 0 = 1) of a square index. */
  function File(i: nat): nat { i % 8 }
  function Rank(i: nat): nat { i / 8 }

  /** Position of square `i`: file and rank scaled by a cell and shifted by the board offset. */
  function PosFromIndex(i: nat): (p: Pos)
    ensures p.x == File(i) as real * GridScale - BoardHalfScale
    ensures p.y == Rank(i) as real * GridScale - BoardHalfScale
  {
    var f := i % 8;
    Pos(f as real * GridScale + BoardOffset, ((i - f) / 8) as real * GridScale + BoardOffset)
  }

  /** `trunc().abs()`: truncation toward zero followed by absolute value is the floor of |x|. */
  function TruncAbs(x: real): (n: nat)
    ensures n as real <= (if x < 0.0 then -x else x) < n as real + 1.0
  {
    if x < 0.0 then (-x).Floor else x.Floor
  }

  /**
   * Cell coordinate along one axis, as computed by `index_from_vec2`. From the
   * left (bottom) edge of the first drawn cell on, the cell it names, centre
   * +/- half a cell, contains the coordinate.
   */
  function Cell(c: real): (n: nat)
    ensures c >= BoardOffset - OriginOffset ==>
      n as real * GridScale - BoardHalfScale - OriginOffset <= c < n as real * GridScale - BoardHalfScale + OriginOffset
  {
    TruncAbs((c - BoardOffset + OriginOffset) / GridScale)
  }

  /** Square index of a position: while the x cell is below 8 it is the file and the y cell the rank. */
  function IndexFromPos(p: Pos): (r: nat)
    ensures Cell(p.x) < 8 ==> File(r) == Cell(p.x) && Rank(r) == Cell(p.y)
  {
    Cell(p.x) + Cell(p.y) * 8
  }

  /**
   * True when either coordinate lies strictly beyond half the board width: the
   * test accepts exactly the rectangle from the centre of square 0 to one cell
   * beyond the centre of square 63.
   */
  predicate IsOutsideBoard(p: Pos): (outside: bool)
    ensures !outside <==>
      PosFromIndex(0).x <= p.x <= PosFromIndex(63).x + GridScale &&
      PosFromIndex(0).y <= p.y <= PosFromIndex(63).y + GridScale
  {
    p.x < -BoardHalfScale || p.x > BoardHalfScale || p.y < -BoardHalfScale || p.y > BoardHalfScale
  }

  /** Every square maps back to itself. */
  lemma RoundTrip(i: nat)
    requires i < 64
    ensures IndexFromPos(PosFromIndex(i)) == i
  {
    var p := PosFromIndex(i);
    CellOfCentre(File(i));
    CellOfCentre(Rank(i));
    assert Cell(p.x) == File(i) && Cell(p.y) == Rank(i);
    assert IndexFromPos(p) == Cell(p.x) + Cell(p.y) * 8;
    assert i == File(i) + Rank(i) * 8;
  }

  /** The cell coordinate of a cell centre is the cell's own file or rank. */
  lemma CellOfCentre(k: nat)
    ensures Cell(k as real * GridScale - BoardHalfScale) == k
  {
    var c := k as real * GridScale - BoardHalfScale;
    assert (c - BoardOffset + OriginOffset) / GridScale == k as real + 0.5;
  }

  /** Every square centre passes the bounds test. */
  lemma SquaresOnBoard(i: nat)
    requires i < 64
    ensures !IsOutsideBoard(PosFromIndex(i))
  {
  }

  /**
   * On the clickable range one axis yields a cell coordinate 0..8; 8 is reached
   * exactly on the strip [175, 200], which lies beyond the last drawn cell.
   */
  lemma CellOnBoard(c: real)
    requires -BoardHalfScale <= c <= BoardHalfScale
    ensures Cell(c) <= 8
    ensures Cell(c) == 8 <==> c >= BoardHalfScale - OriginOffset
  {
    var t := (c - BoardOffset + OriginOffset) / GridScale;
    assert t > 0.0;
  }

  /**
   * A click inside the first eight cells of both axes maps to the square whose
   * cell contains it.
   */
  lemma IndexOfClick(p: Pos)
    requires !IsOutsideBoard(p)
    requires p.x < BoardHalfScale - OriginOffset && p.y < BoardHalfScale - OriginOffset
    ensures IndexFromPos(p) < 64
    ensures PosFromIndex(IndexFromPos(p)).x - OriginOffset <= p.x < PosFromIndex(IndexFromPos(p)).x + OriginOffset
    ensures PosFromIndex(IndexFromPos(p)).y - OriginOffset <= p.y < PosFromIndex(IndexFromPos(p)).y + OriginOffset
  {
    CellOnBoard(p.x);
    CellOnBoard(p.y);
  }

  /**
   * Any accepted click maps to an index of at most 72; a click on the right-hand
   * strip x in [175, 200] maps to file 8, i.e. file 0 of the next rank.
   */
  lemma IndexOfAcceptedClick(p: Pos)
    requires !IsOutsideBoard(p)
    ensures IndexFromPos(p) <= 72
    ensures p.x >= BoardHalfScale - OriginOffset ==> IndexFromPos(p) == 8 * (Cell(p.y) + 1)
  {
    CellOnBoard(p.x);
    CellOnBoard(p.y);
  }

  /** The top-right corner of the clickable region maps past the last square. */
  lemma CornerPastLastSquare()
    ensures !IsOutsideBoard(Pos(200.0, 200.0))
    ensures IndexFromPos(Pos(200.0, 200.0)) == 72
  {
    assert Cell(200.0) == 8;
  }

  /**
   * Truncation toward zero plus absolute value mirrors coordinates left of the
   * board: x = -300 lands in the same column as x = -150 (column 1).
   */
  lemma TruncationMirrors()
    ensures Cell(-300.0) == Cell(-150.0) == 1
    ensures IndexFromPos(Pos(-300.0, -200.0)) == 1
  {
    assert (-300.0 - BoardOffset + OriginOffset) / GridScale == -1.5;
    assert (-150.0 - BoardOffset + OriginOffset) / GridScale == 1.5;
    assert Cell(-200.0) == 0;
  }
}
