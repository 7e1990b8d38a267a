/**
 * The 8x8 grid held in `Board.pieces` (env.py) and the three in-place cell
 * updates the board performs on it: a simple move, a capture hop and a
 * promotion.  The grid is a value here; the `Board` class reassigns it.
 */
module Cells {

  /** The colour string of a cell: 'white', 'black' or 'empty'. */
  datatype Color = White | Black | Empty

  /**
   * The value of a cell's `king` attribute.  Besides True and False the
   * program stores the string 'empty' into the cells a capture clears.
   */
  datatype KingFlag = KingTrue | KingFalse | KingEmpty

  datatype Cell = Cell(color: Color, king: KingFlag)

  /** `pieces[row][col]`, row-major, eight rows of eight cells. */
  type Grid = seq<seq<Cell>>

  const BoardSize: int := 8

  predicate InBoard(row: int, col: int)
  {
    0 <= row < BoardSize && 0 <= col < BoardSize
  }

  predicate IsGrid(g: Grid)
  {
    |g| == BoardSize && forall r :: 0 <= r < BoardSize ==> |g[r]| == BoardSize
  }

  /** The cell a simple move leaves behind at its origin. */
  const Vacated: Cell := Cell(Empty, KingFalse)

  /** The cell a capture hop leaves behind at its origin and its jumped square. */
  const Captured: Cell := Cell(Empty, KingEmpty)

  /**
   * A cell whose colour and king flag agree: an empty cell is never a king
   * and an occupied cell never carries the 'empty' sentinel.
   */
  predicate CellOk(x: Cell)
  {
    (x.color == Empty ==> x.king != KingTrue) && (x.color != Empty ==> x.king != KingEmpty)
  }

  ghost predicate Consistent(g: Grid)
    requires IsGrid(g)
  {
    forall r, c {:trigger g[r][c]} :: InBoard(r, c) ==> CellOk(g[r][c])
  }

  /** Overwrite one cell. */
  function Put(g: Grid, row: int, col: int, x: Cell): (h: Grid)
    requires IsGrid(g) && InBoard(row, col)
    ensures IsGrid(h)
  {
    g[row := g[row][col := x]]
  }

  /**
   * The grid after `_make_move`: the destination takes the origin's colour
   * and king flag, then the origin becomes empty with king False.
   */
  function AfterMove(g: Grid, oldRow: int, oldCol: int, newRow: int, newCol: int): (h: Grid)
    requires IsGrid(g) && InBoard(oldRow, oldCol) && InBoard(newRow, newCol)
    ensures IsGrid(h)
    ensures h[oldRow][oldCol] == Vacated
    ensures (newRow != oldRow || newCol != oldCol) ==> h[newRow][newCol] == g[oldRow][oldCol]
    ensures forall r, c {:trigger h[r][c]} :: InBoard(r, c) && (r != oldRow || c != oldCol) && (r != newRow || c != newCol)
              ==> h[r][c] == g[r][c]
    ensures Consistent(g) ==> Consistent(h)
  {
    var landed := Put(g, newRow, newCol, g[oldRow][oldCol]);
    Put(landed, oldRow, oldCol, Vacated)
  }

  /**
   * The grid after `_make_jump`: the destination takes the origin's colour
   * and king flag, then the origin and the jumped square are emptied with
   * the 'empty' sentinel as king flag.
   */
  function AfterJump(g: Grid, oldRow: int, oldCol: int, viaRow: int, viaCol: int, newRow: int, newCol: int): (h: Grid)
    requires IsGrid(g) && InBoard(oldRow, oldCol) && InBoard(viaRow, viaCol) && InBoard(newRow, newCol)
    ensures IsGrid(h)
    ensures h[oldRow][oldCol] == Captured && h[viaRow][viaCol] == Captured
    ensures (newRow != oldRow || newCol != oldCol) && (newRow != viaRow || newCol != viaCol) ==>
              h[newRow][newCol] == g[oldRow][oldCol]
    ensures forall r, c {:trigger h[r][c]} ::
              InBoard(r, c) && (r != oldRow || c != oldCol) && (r != viaRow || c != viaCol) && (r != newRow || c != newCol)
              ==> h[r][c] == g[r][c]
    ensures Consistent(g) ==> Consistent(h)
  {
    var landed := Put(g, newRow, newCol, g[oldRow][oldCol]);
    var lifted := Put(landed, oldRow, oldCol, Captured);
    Put(lifted, viaRow, viaCol, Captured)
  }

  /** A piece of this colour standing on this row is crowned by `_promote`. */
  predicate Crowns(color: Color, row: int)
  {
    (color == White && row == 0) || (color == Black && row == 7)
  }

  /**
   * The grid after `_promote(row, col)`: the cell becomes a king exactly when
   * it holds White on row 0 or Black on row 7; nothing else changes.
   */
  function AfterPromote(g: Grid, row: int, col: int): (h: Grid)
    requires IsGrid(g) && InBoard(row, col)
    ensures IsGrid(h)
    ensures h[row][col] == if Crowns(g[row][col].color, row) then Cell(g[row][col].color, KingTrue) else g[row][col]
    ensures forall r, c {:trigger h[r][c]} :: InBoard(r, c) && (r != row || c != col) ==> h[r][c] == g[r][c]
    ensures Consistent(g) ==> Consistent(h)
  {
    var whiteDone := if g[row][col].color == White && row == 0 then Put(g, row, col, Cell(White, KingTrue)) else g;
    if whiteDone[row][col].color == Black && row == 7 then Put(whiteDone, row, col, Cell(Black, KingTrue)) else whiteDone
  }

  /** The cell `_setup` leaves at (row, col). */
  function InitialCell(row: int, col: int): Cell
  {
    if (row + col) % 2 == 1 && 0 <= row < 3 then Cell(Black, KingFalse)
    else if (row + col) % 2 == 1 && 5 <= row < BoardSize then Cell(White, KingFalse)
    else Cell(Empty, KingFalse)
  }

  /** The grid `_setup` builds. */
  function InitialGrid(): (g: Grid)
    ensures IsGrid(g)
    ensures forall r, c {:trigger g[r][c]} :: InBoard(r, c) ==> g[r][c] == InitialCell(r, c)
  {
    seq(BoardSize, r => seq(BoardSize, c => InitialCell(r, c)))
  }

  /** Two grids that agree on every square are equal. */
  lemma GridExt(a: Grid, b: Grid)
    requires IsGrid(a) && IsGrid(b)
    requires forall r, c :: InBoard(r, c) ==> a[r][c] == b[r][c]
    ensures a == b
  {
    forall r | 0 <= r < BoardSize ensures a[r] == b[r] {
      assert forall c :: 0 <= c < BoardSize ==> a[r][c] == b[r][c];
    }
  }

  /** Number of cells of colour `color` in rows `row..7`. */
  function CountFrom(g: Grid, color: Color, row: nat): (n: nat)
    requires IsGrid(g) && row <= BoardSize
    decreases BoardSize - row
  {
    if row == BoardSize then 0 else CountRow(g[row], color, 0) + CountFrom(g, color, row + 1)
  }

  /** Number of cells of colour `color` in columns `col..` of one row. */
  function CountRow(cells: seq<Cell>, color: Color, col: nat): (n: nat)
    requires col <= |cells|
    decreases |cells| - col
  {
    if col == |cells| then 0 else (if cells[col].color == color then 1 else 0) + CountRow(cells, color, col + 1)
  }

  function CountColor(g: Grid, color: Color): nat
    requires IsGrid(g)
  {
    CountFrom(g, color, 0)
  }

  /** How overwriting cell `was` with `now` changes the number of cells of `color`. */
  function Delta(was: Cell, now: Cell, color: Color): int
  {
    (if now.color == color then 1 else 0) - (if was.color == color then 1 else 0)
  }

  lemma {:induction false} CountRowPut(cells: seq<Cell>, color: Color, col: nat, k: int, x: Cell)
    requires col <= |cells| && 0 <= k < |cells|
    ensures CountRow(cells[k := x], color, col) == CountRow(cells, color, col) + (if col <= k then Delta(cells[k], x, color) else 0)
    decreases |cells| - col
  {
    if col < |cells| {
      CountRowPut(cells, color, col + 1, k, x);
    }
  }

  lemma {:induction false} CountFromPut(g: Grid, color: Color, row: nat, r: int, c: int, x: Cell)
    requires IsGrid(g) && row <= BoardSize && InBoard(r, c)
    ensures CountFrom(Put(g, r, c, x), color, row) == CountFrom(g, color, row) + (if row <= r then Delta(g[r][c], x, color) else 0)
    decreases BoardSize - row
  {
    if row < BoardSize {
      CountFromPut(g, color, row + 1, r, c, x);
      if row == r {
        CountRowPut(g[r], color, 0, c, x);
      }
    }
  }

  /** Overwriting one cell changes a colour's count by the cell that left and the cell that arrived. */
  lemma CountPut(g: Grid, color: Color, r: int, c: int, x: Cell)
    requires IsGrid(g) && InBoard(r, c)
    ensures CountColor(Put(g, r, c, x), color) == CountColor(g, color) + Delta(g[r][c], x, color)
  {
    CountFromPut(g, color, 0, r, c, x);
  }

  /** A promotion changes no colour's count. */
  lemma PromoteCounts(g: Grid, row: int, col: int, color: Color)
    requires IsGrid(g) && InBoard(row, col)
    ensures CountColor(AfterPromote(g, row, col), color) == CountColor(g, color)
  {
    var x := g[row][col];
    if Crowns(x.color, row) {
      CountPut(g, color, row, col, Cell(x.color, KingTrue));
      GridExt(AfterPromote(g, row, col), Put(g, row, col, Cell(x.color, KingTrue)));
    } else {
      GridExt(AfterPromote(g, row, col), g);
    }
  }

  /** A simple move onto an empty square changes no piece count. */
  lemma MoveCounts(g: Grid, oldRow: int, oldCol: int, newRow: int, newCol: int, color: Color)
    requires IsGrid(g) && InBoard(oldRow, oldCol) && InBoard(newRow, newCol)
    requires (oldRow != newRow || oldCol != newCol) && g[newRow][newCol].color == Empty && color != Empty
    ensures CountColor(AfterMove(g, oldRow, oldCol, newRow, newCol), color) == CountColor(g, color)
  {
    var landed := Put(g, newRow, newCol, g[oldRow][oldCol]);
    CountPut(g, color, newRow, newCol, g[oldRow][oldCol]);
    CountPut(landed, color, oldRow, oldCol, Vacated);
  }

  /**
   * A hop over a piece onto an empty square, from a square holding anything
   * but that piece's colour, takes exactly one piece of the jumped colour
   * and changes no other piece count.
   */
  lemma JumpCounts(g: Grid, oldRow: int, oldCol: int, viaRow: int, viaCol: int, newRow: int, newCol: int, color: Color)
    requires IsGrid(g) && InBoard(oldRow, oldCol) && InBoard(viaRow, viaCol) && InBoard(newRow, newCol)
    requires (oldRow != newRow || oldCol != newCol) && (viaRow != newRow || viaCol != newCol) && (viaRow != oldRow || viaCol != oldCol)
    requires g[newRow][newCol].color == Empty && g[viaRow][viaCol].color != Empty
    requires g[oldRow][oldCol].color != g[viaRow][viaCol].color && color != Empty
    ensures CountColor(AfterJump(g, oldRow, oldCol, viaRow, viaCol, newRow, newCol), color) ==
              CountColor(g, color) - (if color == g[viaRow][viaCol].color then 1 else 0)
  {
    var landed := Put(g, newRow, newCol, g[oldRow][oldCol]);
    var lifted := Put(landed, oldRow, oldCol, Captured);
    assert landed[oldRow][oldCol] == g[oldRow][oldCol];
    assert lifted[viaRow][viaCol] == g[viaRow][viaCol];
    CountPut(g, color, newRow, newCol, g[oldRow][oldCol]);
    CountPut(landed, color, oldRow, oldCol, Captured);
    CountPut(lifted, color, viaRow, viaCol, Captured);
  }

  /** 1 when the cell holds `color`, else 0. */
  function Tally(x: Cell, color: Color): nat
  {
    if x.color == color then 1 else 0
  }

  /** The count of a row of eight cells, written out. */
  lemma RowUnfold(cells: seq<Cell>, color: Color)
    requires |cells| == BoardSize
    ensures CountRow(cells, color, 0) == Tally(cells[0], color) + Tally(cells[1], color) + Tally(cells[2], color) + Tally(cells[3], color) +
              Tally(cells[4], color) + Tally(cells[5], color) + Tally(cells[6], color) + Tally(cells[7], color)
  {
    assert CountRow(cells, color, 8) == 0;
    assert CountRow(cells, color, 7) == Tally(cells[7], color);
    assert CountRow(cells, color, 6) == Tally(cells[6], color) + Tally(cells[7], color);
    assert CountRow(cells, color, 5) == Tally(cells[5], color) + Tally(cells[6], color) + Tally(cells[7], color);
    assert CountRow(cells, color, 4) == Tally(cells[4], color) + Tally(cells[5], color) + Tally(cells[6], color) + Tally(cells[7], color);
    assert CountRow(cells, color, 3) == Tally(cells[3], color) + Tally(cells[4], color) + Tally(cells[5], color) + Tally(cells[6], color) + Tally(cells[7], color);
    assert CountRow(cells, color, 2) == Tally(cells[2], color) + Tally(cells[3], color) + Tally(cells[4], color) + Tally(cells[5], color) + Tally(cells[6], color) + Tally(cells[7], color);
    assert CountRow(cells, color, 1) == Tally(cells[1], color) + Tally(cells[2], color) + Tally(cells[3], color) + Tally(cells[4], color) + Tally(cells[5], color) + Tally(cells[6], color) + Tally(cells[7], color);
  }

  /** Each row of the set-up grid holds four men of the colour that starts there and none of the other. */
  lemma InitialRow(r: int, color: Color)
    requires 0 <= r < BoardSize && color != Empty
    ensures CountRow(InitialGrid()[r], color, 0) ==
              if (color == Black && r < 3) || (color == White && 5 <= r) then 4 else 0
  {
    var cells := InitialGrid()[r];
    RowUnfold(cells, color);
    assert cells[0] == InitialCell(r, 0) && cells[1] == InitialCell(r, 1) && cells[2] == InitialCell(r, 2) && cells[3] == InitialCell(r, 3);
    assert cells[4] == InitialCell(r, 4) && cells[5] == InitialCell(r, 5) && cells[6] == InitialCell(r, 6) && cells[7] == InitialCell(r, 7);
    if r % 2 == 0 {
      assert (r + 1) % 2 == 1 && (r + 3) % 2 == 1 && (r + 5) % 2 == 1 && (r + 7) % 2 == 1;
      assert (r + 0) % 2 == 0 && (r + 2) % 2 == 0 && (r + 4) % 2 == 0 && (r + 6) % 2 == 0;
    } else {
      assert (r + 1) % 2 == 0 && (r + 3) % 2 == 0 && (r + 5) % 2 == 0 && (r + 7) % 2 == 0;
      assert (r + 0) % 2 == 1 && (r + 2) % 2 == 1 && (r + 4) % 2 == 1 && (r + 6) % 2 == 1;
    }
  }

  /** The set-up grid holds twelve men of each colour, matching the counters `__init__` and `reset` set. */
  lemma InitialCounts()
    ensures CountColor(InitialGrid(), White) == 12 && CountColor(InitialGrid(), Black) == 12
  {
    var g := InitialGrid();
    forall r | 0 <= r < BoardSize ensures CountRow(g[r], White, 0) == (if 5 <= r then 4 else 0) && CountRow(g[r], Black, 0) == (if r < 3 then 4 else 0) {
      InitialRow(r, White);
      InitialRow(r, Black);
    }
    assert CountFrom(g, White, 8) == 0 && CountFrom(g, Black, 8) == 0;
  }
}
