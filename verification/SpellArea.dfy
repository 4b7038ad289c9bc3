/** Spell areas: a matrix of cells around a centre, turned and reflected for every direction. */
module SpellArea {
  import opened Wrappers

  datatype MatrixOperation =
    | MATRIXOPERATION_COPY
    | MATRIXOPERATION_MIRROR
    | MATRIXOPERATION_FLIP
    | MATRIXOPERATION_ROTATE90
    | MATRIXOPERATION_ROTATE180
    | MATRIXOPERATION_ROTATE270
  {
    predicate IsRotation() { MATRIXOPERATION_ROTATE90? || MATRIXOPERATION_ROTATE180? || MATRIXOPERATION_ROTATE270? }
  }


  /** Sine and cosine of the quarter turns. */
  function Sin(op: MatrixOperation): int {
    match op case MATRIXOPERATION_ROTATE90 => 1 case MATRIXOPERATION_ROTATE270 => -1 case _ => 0
  }

  function Cos(op: MatrixOperation): int {
    match op
    case MATRIXOPERATION_ROTATE180 => -1
    case MATRIXOPERATION_ROTATE90 => 0
    case MATRIXOPERATION_ROTATE270 => 0
    case _ => 1
  }

  class MatrixArea {
    var centerY: int
    var centerX: int
    const rows: nat
    const cols: nat
    const data: array2<bool>

    ghost predicate Valid() {
      data.Length0 == rows && data.Length1 == cols
    }

    predicate CenterInside()
      reads this
    {
      0 <= centerY < rows && 0 <= centerX < cols
    }

    predicate Inside(y: int, x: int) {
      0 <= y < rows && 0 <= x < cols
    }

    /** Whether the area covers the tile at this offset from its centre. */
    ghost predicate Covers(dy: int, dx: int)
      requires Valid()
      reads this, data
    {
      Inside(centerY + dy, centerX + dx) && data[centerY + dy, centerX + dx]
    }

    ghost predicate Empty()
      requires Valid()
      reads data
    {
      forall y, x :: Inside(y, x) ==> !data[y, x]
    }

    constructor (rows: nat, cols: nat)
      ensures Valid() && Empty() && fresh(data)
      ensures this.rows == rows && this.cols == cols && centerY == 0 && centerX == 0
    {
      this.rows, this.cols := rows, cols;
      centerY, centerX := 0, 0;
      data := new bool[rows, cols]((_, _) => false);
    }

    method SetCenter(y: int, x: int)
      modifies this`centerY, this`centerX
      ensures centerY == y && centerX == x
    {
      centerY, centerX := y, x;
    }
  }

  /** Cell by cell from the left end of each row to the right end. */
  method Mirror(input: MatrixArea, output: MatrixArea)
    requires input.Valid() && output.Valid() && output.Empty() && output.data != input.data && output != input
    requires input.rows <= output.rows && input.cols <= output.cols
    modifies output`centerY, output`centerX, output.data
    ensures forall dy, dx :: output.Covers(dy, dx) <==> input.Covers(dy, -dx + (input.cols - input.rows))
    ensures output.centerY == input.centerY && output.centerX == input.rows - 1 - input.centerX
  {
    for y := 0 to input.rows
      invariant forall i, j :: output.Inside(i, j) ==>
                  output.data[i, j] == (i < y && j < input.cols && input.data[i, input.cols - 1 - j])
    {
      var rx := 0;
      for x := input.cols downto 0
        invariant rx == input.cols - x
        invariant forall i, j :: output.Inside(i, j) ==>
                    output.data[i, j] == (((i < y && j < input.cols) || (i == y && j < rx))
                        && input.data[i, input.cols - 1 - j])
      {
        output.data[y, rx] := input.data[y, x];
        rx := rx + 1;
      }
    }
    output.SetCenter(input.centerY, input.rows - 1 - input.centerX);
  }

  /** Cell by cell from the top end of each column to the bottom end. */
  method Flip(input: MatrixArea, output: MatrixArea)
    requires input.Valid() && output.Valid() && output.Empty() && output.data != input.data && output != input
    requires input.rows <= output.rows && input.cols <= output.cols
    modifies output`centerY, output`centerX, output.data
    ensures forall dy, dx :: output.Covers(dy, dx) <==> input.Covers(-dy + (input.rows - input.cols), dx)
    ensures output.centerX == input.centerX && output.centerY == input.cols - 1 - input.centerY
  {
    for x := 0 to input.cols
      invariant forall i, j :: output.Inside(i, j) ==>
                  output.data[i, j] == (j < x && i < input.rows && input.data[input.rows - 1 - i, j])
    {
      var ry := 0;
      for y := input.rows downto 0
        invariant ry == input.rows - y
        invariant forall i, j :: output.Inside(i, j) ==>
                    output.data[i, j] == (((j < x && i < input.rows) || (j == x && i < ry))
                        && input.data[input.rows - 1 - i, j])
      {
        output.data[ry, x] := input.data[y, x];
        ry := ry + 1;
      }
    }
    output.SetCenter(input.cols - 1 - input.centerY, input.centerX);
  }

  /** Where a turn takes the offset (y, x). */
  function TurnY(op: MatrixOperation, y: int, x: int): int {
    match op
    case MATRIXOPERATION_ROTATE90 => x
    case MATRIXOPERATION_ROTATE180 => -y
    case MATRIXOPERATION_ROTATE270 => -x
    case _ => y
  }

  function TurnX(op: MatrixOperation, y: int, x: int): int {
    match op
    case MATRIXOPERATION_ROTATE90 => -y
    case MATRIXOPERATION_ROTATE180 => -x
    case MATRIXOPERATION_ROTATE270 => y
    case _ => x
  }

  /** The offset that the turn back takes (dy, dx) to. */
  function BackY(op: MatrixOperation, dy: int, dx: int): int {
    match op
    case MATRIXOPERATION_ROTATE90 => -dx
    case MATRIXOPERATION_ROTATE180 => -dy
    case MATRIXOPERATION_ROTATE270 => dx
    case _ => dy
  }

  function BackX(op: MatrixOperation, dy: int, dx: int): int {
    match op
    case MATRIXOPERATION_ROTATE90 => dy
    case MATRIXOPERATION_ROTATE180 => -dx
    case MATRIXOPERATION_ROTATE270 => -dy
    case _ => dx
  }

  /** The rotation matrix takes an offset where the turn does. */
  lemma MatrixTurns(op: MatrixOperation, y: int, x: int)
    ensures x * Cos(op) + y * -Sin(op) == TurnX(op, y, x)
    ensures x * Sin(op) + y * Cos(op) == TurnY(op, y, x)
  {
    match op
    case MATRIXOPERATION_ROTATE90 =>
    case MATRIXOPERATION_ROTATE180 =>
    case MATRIXOPERATION_ROTATE270 =>
    case _ =>
  }

  /** Turning back and turning undo each other, so no two cells are written to the same place. */
  lemma TurnedBack(op: MatrixOperation, y: int, x: int)
    ensures BackY(op, TurnY(op, y, x), TurnX(op, y, x)) == y && BackX(op, TurnY(op, y, x), TurnX(op, y, x)) == x
    ensures TurnY(op, BackY(op, y, x), BackX(op, y, x)) == y && TurnX(op, BackY(op, y, x), BackX(op, y, x)) == x
  {
  }

  lemma TurnBounds(op: MatrixOperation, y: int, x: int, m: int)
    requires -m < y < m && -m < x < m
    ensures -m < TurnY(op, y, x) < m && -m < TurnX(op, y, x) < m
  {
  }

  /** Turns an area about its centre. Every cell lands inside the output, on a place of its own. */
  method Rotate(input: MatrixArea, output: MatrixArea, op: MatrixOperation)
    requires input.Valid() && output.Valid() && output.Empty() && output.data != input.data && output != input
    requires op.IsRotation() && input.CenterInside()
    requires output.rows == output.cols == 2 * Max(input.rows, input.cols)
    modifies output`centerY, output`centerX, output.data
    ensures forall dy, dx :: output.Covers(dy, dx) <==> input.Covers(BackY(op, dy, dx), BackX(op, dy, dx))
    ensures output.CenterInside()
  {
    var rotateCenterX := output.cols / 2 - 1;
    var rotateCenterY := output.rows / 2 - 1;
    for x := 0 to input.cols
      invariant Turned(input, output, op, rotateCenterY, rotateCenterX, x, 0)
    {
      for y := 0 to input.rows
        invariant Turned(input, output, op, rotateCenterY, rotateCenterX, x, y)
      {
        RotateCell(input, output, op, rotateCenterY, rotateCenterX, x, y);
      }
    }
    output.SetCenter(rotateCenterY, rotateCenterX);
    AllTurned(input, output, op);
  }

  lemma AllTurned(input: MatrixArea, output: MatrixArea, op: MatrixOperation)
    requires input.Valid() && output.Valid() && input.CenterInside()
    requires output.rows == output.cols == 2 * Max(input.rows, input.cols)
    requires output.centerY == output.centerX == Max(input.rows, input.cols) - 1
    requires Turned(input, output, op, output.centerY, output.centerX, input.cols, 0)
    ensures forall dy, dx :: output.Covers(dy, dx) <==> input.Covers(BackY(op, dy, dx), BackX(op, dy, dx))
  {
    forall dy, dx
      ensures output.Covers(dy, dx) <==> input.Covers(BackY(op, dy, dx), BackX(op, dy, dx))
    {
      if output.Inside(output.centerY + dy, output.centerX + dx) {
        assert CellTurned(input, output, op, output.centerY, output.centerX, input.cols, 0, output.centerY + dy,
            output.centerX + dx);
      }
    }
  }

  /** The product with the rotation matrix. */
  method PerformRotation(op: MatrixOperation, newY: int, newX: int) returns (rotatedY: int, rotatedX: int)
    ensures rotatedY == TurnY(op, newY, newX) && rotatedX == TurnX(op, newY, newX)
  {
    var a, b, c, d := Cos(op), -Sin(op), Sin(op), Cos(op);
    rotatedX := newX * a + newY * b;
    rotatedY := newX * c + newY * d;
    MatrixTurns(op, newY, newX);
  }

  method RotateCell(input: MatrixArea, output: MatrixArea, op: MatrixOperation, rotateCenterY: int, rotateCenterX: int,
                    x: nat, y: nat)
    requires input.Valid() && output.Valid() && output.data != input.data && input.CenterInside()
    requires output.rows == output.cols == 2 * Max(input.rows, input.cols)
    requires rotateCenterY == rotateCenterX == Max(input.rows, input.cols) - 1
    requires y < input.rows && x < input.cols && Turned(input, output, op, rotateCenterY, rotateCenterX, x, y)
    modifies output.data
    ensures Turned(input, output, op, rotateCenterY, rotateCenterX, x, y + 1)
  {
    hide TurnY, TurnX, BackY, BackX;
    // the offset from the centre
    var newX := x - input.centerX;
    var newY := y - input.centerY;
    // turned
    var rotatedY, rotatedX := PerformRotation(op, newY, newX);
    TurnedBack(op, newY, newX);
    TurnBounds(op, newY, newX, Max(input.rows, input.cols));
    // and counted from the centre of the copy
    output.data[rotatedY + rotateCenterY, rotatedX + rotateCenterX] := input.data[y, x];
    forall i, j | output.Inside(i, j)
      ensures CellTurned(input, output, op, rotateCenterY, rotateCenterX, x, y + 1, i, j)
    {
      TurnedBack(op, i - rotateCenterY, j - rotateCenterX);
    }
  }

  /** The columns before x, and column x before row y, have been turned; nothing else has been written. */
  ghost predicate Turned(input: MatrixArea, output: MatrixArea, op: MatrixOperation, cy: int, cx: int, x: int, y: int)
    requires input.Valid() && output.Valid()
    reads input, input.data, output.data
  {
    forall i, j :: output.Inside(i, j) ==> CellTurned(input, output, op, cy, cx, x, y, i, j)
  }

  ghost predicate CellTurned(input: MatrixArea, output: MatrixArea, op: MatrixOperation, cy: int, cx: int, x: int,
                             y: int,
                             i: int, j: int)
    requires input.Valid() && output.Valid() && output.Inside(i, j)
    reads input, input.data, output.data
  {
    var sy, sx := input.centerY + BackY(op, i - cy, j - cx), input.centerX + BackX(op, i - cy, j - cx);
    output.data[i, j] == (input.Inside(sy, sx) && (sx < x || (sx == x && sy < y)) && input.data[sy, sx])
  }

  // ---------------------------------------------------------------------------------------
  // The areas of a spell

  /** The areas south, east and west of one that is given for the north: turned by 180, 90 and 270 degrees. */
  method SetupArea(area: MatrixArea) returns (south: MatrixArea, east: MatrixArea, west: MatrixArea)
    requires area.Valid() && area.CenterInside()
    ensures south.Valid() && east.Valid() && west.Valid()
    ensures forall dy, dx :: south.Covers(dy, dx) <==> area.Covers(-dy, -dx)
    ensures forall dy, dx :: east.Covers(dy, dx) <==> area.Covers(-dx, dy)
    ensures forall dy, dx :: west.Covers(dy, dx) <==> area.Covers(dx, -dy)
  {
    hide MatrixArea.Covers;
    var maxOutput := Max(area.cols, area.rows) * 2;
    south := new MatrixArea(maxOutput, maxOutput);
    Rotate(area, south, MATRIXOPERATION_ROTATE180);
    east := new MatrixArea(maxOutput, maxOutput);
    Rotate(area, east, MATRIXOPERATION_ROTATE90);
    west := new MatrixArea(maxOutput, maxOutput);
    Rotate(area, west, MATRIXOPERATION_ROTATE270);
  }

  /**
   The areas for the other diagonals of one that is given for the north-west. They are off by the
   difference of its sides, so they are its reflections exactly if it is square, or has no cell at all.
   */
  method SetupExtArea(area: MatrixArea) returns (ne: MatrixArea, sw: MatrixArea, se: MatrixArea)
    requires area.Valid()
    ensures ne.Valid() && sw.Valid() && se.Valid()
    ensures forall dy, dx :: ne.Covers(dy, dx) <==> area.Covers(dy, -dx + (area.cols - area.rows))
    ensures forall dy, dx :: sw.Covers(dy, dx) <==> area.Covers(-dy + (area.rows - area.cols), dx)
    ensures forall dy, dx :: se.Covers(dy, dx) <==> area.Covers(-dy + (area.rows - area.cols), -dx)
    ensures Reflected(area, ne, false, true, 0, 0) <==> area.rows == area.cols || area.Empty()
    ensures Reflected(area, sw, true, false, 0, 0) <==> area.rows == area.cols || area.Empty()
    ensures Reflected(area, se, true, true, 0, 0) <==> area.rows == area.cols || area.Empty()
  {
    hide MatrixArea.Covers, MatrixArea.Empty, Reflected;
    var maxOutput := Max(area.cols, area.rows) * 2;
    ne := new MatrixArea(maxOutput, maxOutput);
    Mirror(area, ne);
    sw := new MatrixArea(maxOutput, maxOutput);
    Flip(area, sw);
    se := new MatrixArea(maxOutput, maxOutput);
    Mirror(sw, se);
    CopiesAre(area, ne, sw, se);
    ReflectsIfSquare(area, ne, false, true, 0, area.cols - area.rows);
    ReflectsIfSquare(area, sw, true, false, area.rows - area.cols, 0);
    ReflectsIfSquare(area, se, true, true, area.rows - area.cols, 0);
  }

  lemma CopiesAre(area: MatrixArea, ne: MatrixArea, sw: MatrixArea, se: MatrixArea)
    requires area.Valid() && ne.Valid() && sw.Valid() && se.Valid()
    requires forall dy, dx :: ne.Covers(dy, dx) <==> area.Covers(dy, -dx + (area.cols - area.rows))
    requires forall dy, dx :: sw.Covers(dy, dx) <==> area.Covers(-dy + (area.rows - area.cols), dx)
    requires forall dy, dx :: se.Covers(dy, dx) <==> area.Covers(-dy + (area.rows - area.cols), -dx)
    ensures Reflected(area, ne, false, true, 0, area.cols - area.rows)
    ensures Reflected(area, sw, true, false, area.rows - area.cols, 0)
    ensures Reflected(area, se, true, true, area.rows - area.cols, 0)
  {
    hide MatrixArea.Covers;
  }

  function Turn(back: bool, d: int): int {
    if back then -d else d
  }

  /** The copy covers what the area covers, reflected vertically or horizontally or both, and shifted. */
  ghost predicate Reflected(area: MatrixArea, copy: MatrixArea, vertical: bool, horizontal: bool, k: int, l: int)
    requires area.Valid() && copy.Valid()
    reads area, area.data, copy, copy.data
  {
    forall dy, dx :: copy.Covers(dy, dx) <==> area.Covers(Turn(vertical, dy) + k, Turn(horizontal, dx) + l)
  }

  /** An area shifted by k rows and l columns covers this offset if the area itself does. */
  ghost predicate SameShifted(area: MatrixArea, k: int, l: int, dy: int, dx: int)
    requires area.Valid()
    reads area, area.data
  {
    area.Covers(dy + k, dx + l) <==> area.Covers(dy, dx)
  }

  /** A shift leads from cell to cell and at last out of the area, so it is no symmetry of an area with a cell. */
  lemma NoCell(area: MatrixArea, k: int, l: int, dy: int, dx: int)
    requires area.Valid() && (k != 0 || l != 0) && area.Covers(dy, dx)
    requires forall u, v :: SameShifted(area, k, l, u, v)
    ensures false
    decreases if k > 0 then area.rows - (area.centerY + dy) else if k < 0 then area.centerY + dy
              else if l > 0 then area.cols - (area.centerX + dx) else area.centerX + dx
  {
    assert SameShifted(area, k, l, dy, dx);
    NoCell(area, k, l, dy + k, dx + l);
  }

  /** A copy that is both a shifted and an unshifted reflection shows that the area is the same shifted. */
  lemma BothReflections(area: MatrixArea, copy: MatrixArea, vertical: bool, horizontal: bool, k: int, l: int,
                        dy: int, dx: int)
    requires area.Valid() && copy.Valid()
    requires Reflected(area, copy, vertical, horizontal, k, l) && Reflected(area, copy, vertical, horizontal, 0, 0)
    ensures SameShifted(area, k, l, dy, dx)
  {
    hide MatrixArea.Covers;
    var v, h := Turn(vertical, dy), Turn(horizontal, dx);
    assert Turn(vertical, v) == dy && Turn(horizontal, h) == dx;
    assert copy.Covers(v, h) <==> area.Covers(Turn(vertical, v) + k, Turn(horizontal, h) + l);
    assert copy.Covers(v, h) <==> area.Covers(Turn(vertical, v) + 0, Turn(horizontal, h) + 0);
  }

  lemma EmptyIfSame(area: MatrixArea, k: int, l: int)
    requires area.Valid() && (k != 0 || l != 0)
    requires forall dy, dx :: SameShifted(area, k, l, dy, dx)
    ensures area.Empty()
  {
    forall y, x | area.Inside(y, x) ensures !area.data[y, x] {
      if area.data[y, x] {
        assert area.Covers(y - area.centerY, x - area.centerX);
        NoCell(area, k, l, y - area.centerY, x - area.centerX);
      }
    }
  }

  /** Nothing covers nothing, shifted or not. */
  lemma EmptyCovers(area: MatrixArea, copy: MatrixArea, vertical: bool, horizontal: bool, k: int, l: int)
    requires area.Valid() && copy.Valid() && area.Empty()
    requires Reflected(area, copy, vertical, horizontal, k, l)
    ensures Reflected(area, copy, vertical, horizontal, 0, 0)
  {
    hide MatrixArea.Covers;
    forall dy, dx ensures !area.Covers(dy, dx) {
      NotCovered(area, dy, dx);
    }
  }

  lemma NotCovered(area: MatrixArea, dy: int, dx: int)
    requires area.Valid() && area.Empty()
    ensures !area.Covers(dy, dx)
  {
  }

  /** A copy that is reflected and shifted is a reflection exactly if the shift is none, or the area empty. */
  lemma ReflectsIfSquare(area: MatrixArea, copy: MatrixArea, vertical: bool, horizontal: bool, k: int, l: int)
    requires area.Valid() && copy.Valid() && Reflected(area, copy, vertical, horizontal, k, l)
    ensures Reflected(area, copy, vertical, horizontal, 0, 0) <==> (k == 0 && l == 0) || area.Empty()
  {
    hide MatrixArea.Covers, MatrixArea.Empty, Reflected, SameShifted;
    if area.Empty() {
      EmptyCovers(area, copy, vertical, horizontal, k, l);
    } else if Reflected(area, copy, vertical, horizontal, 0, 0) && (k != 0 || l != 0) {
      forall dy, dx ensures SameShifted(area, k, l, dy, dx) {
        BothReflections(area, copy, vertical, horizontal, k, l, dy, dx);
      }
      EmptyIfSame(area, k, l);
    }
  }
}
