/**
 * Move generation of `Board` (env.py): the two legality checks, the eight
 * per-piece finders and the row-major board scan of `_find_valid_moves`,
 * written as functions of the grid.  The jump list is threaded through the
 * king finders because their de-duplication guard reads it.
 */
module Moves {
  import opened Cells

  /** A simple move `(old_row, old_col, new_row, new_col)`. */
  datatype Move = Move(oldRow: int, oldCol: int, newRow: int, newCol: int)

  /**
   * A jump hop `(old_row, old_col, via_row, via_col, new_row, new_col, link)`;
   * `link` is True for a hop found by recursing from an earlier landing square.
   */
  datatype Jump = Jump(oldRow: int, oldCol: int, viaRow: int, viaCol: int, newRow: int, newCol: int, link: bool)

  /** The two lists `self.moves` and `self.jumps`. */
  datatype Actions = Actions(moves: seq<Move>, jumps: seq<Jump>)

  /** `_check_move`: the destination lies on the board and is empty. */
  function CheckMove(g: Grid, oldRow: int, oldCol: int, newRow: int, newCol: int): (ok: bool)
    requires IsGrid(g)
    ensures ok <==> InBoard(newRow, newCol) && g[newRow][newCol].color == Empty
  {
    if newRow > 7 || newRow < 0 then false
    else if newCol > 7 || newCol < 0 then false
    else if g[newRow][newCol].color != Empty then false
    else true
  }

  /**
   * `_check_jump`: the destination lies on the board and is empty, and the
   * jumped square holds a piece that is not of the mover's colour.  The
   * jumped square is only read once the destination is known to be on the
   * board, so the callers need it on the board only then.
   */
  function CheckJump(g: Grid, oldRow: int, oldCol: int, viaRow: int, viaCol: int, newRow: int, newCol: int, color: Color): (ok: bool)
    requires IsGrid(g)
    requires InBoard(newRow, newCol) ==> InBoard(viaRow, viaCol)
    ensures ok <==> InBoard(newRow, newCol) && g[viaRow][viaCol].color != Empty &&
                    g[viaRow][viaCol].color != color && g[newRow][newCol].color == Empty
  {
    if newRow > 7 || newRow < 0 then false
    else if newCol > 7 || newCol < 0 then false
    else if g[viaRow][viaCol].color == Empty then false
    else if g[viaRow][viaCol].color == color then false
    else if g[newRow][newCol].color != Empty then false
    else true
  }

  /** The side `_find_valid_moves` searches for: 'white', and 'black' for anything else. */
  function SideOf(turn: Color): Color
  {
    if turn == White then White else Black
  }

  /** The row step of a man: White men go up the board, Black men down. */
  function Forward(side: Color): int
  {
    if side == White then -1 else 1
  }

  /** The row on which a man's jump search stops: row 0 for White, row 7 for Black. */
  function PromotionRow(side: Color): int
  {
    if side == White then 0 else 7
  }

  /** Rows left before a man of this side reaches its promotion row. */
  function RowsToGo(side: Color, row: int): int
  {
    if side == White then row else 7 - row
  }

  /** One diagonal step, kept when `_check_move` accepts it. */
  function StepTo(g: Grid, row: int, col: int, dr: int, dc: int): (r: seq<Move>)
    requires IsGrid(g)
    ensures |r| <= 1
    ensures r != [] <==> CheckMove(g, row, col, row + dr, col + dc)
    ensures forall m :: m in r ==> m.oldRow == row && m.oldCol == col && m.newRow == row + dr && m.newCol == col + dc
  {
    if CheckMove(g, row, col, row + dr, col + dc) then [Move(row, col, row + dr, col + dc)] else []
  }

  /** `_find_white_man_moves` and `_find_black_man_moves`, in their order of directions. */
  function ManMoves(g: Grid, side: Color, row: int, col: int): (r: seq<Move>)
    requires IsGrid(g)
    ensures |r| <= 2
    ensures forall m :: m in r ==>
              m.oldRow == row && m.oldCol == col && m.newRow == row + Forward(side) &&
              (m.newCol == col - 1 || m.newCol == col + 1) && CheckMove(g, row, col, m.newRow, m.newCol)
  {
    if side == White then StepTo(g, row, col, -1, -1) + StepTo(g, row, col, -1, 1)
    else StepTo(g, row, col, 1, 1) + StepTo(g, row, col, 1, -1)
  }

  /** `_find_white_king_moves` and `_find_black_king_moves` (both use the same order). */
  function KingMoves(g: Grid, row: int, col: int): (r: seq<Move>)
    requires IsGrid(g)
    ensures |r| <= 4
    ensures forall m :: m in r ==>
              m.oldRow == row && m.oldCol == col && (m.newRow == row - 1 || m.newRow == row + 1) &&
              (m.newCol == col - 1 || m.newCol == col + 1) && CheckMove(g, row, col, m.newRow, m.newCol)
  {
    StepTo(g, row, col, -1, -1) + StepTo(g, row, col, -1, 1) + StepTo(g, row, col, 1, -1) + StepTo(g, row, col, 1, 1)
  }

  /**
   * The hops `_find_white_man_jumps` / `_find_black_man_jumps` append when
   * called at (row, col) with this `link`: per forward direction, the hop and
   * then, unless it landed on the promotion row, the hops found from its
   * landing square with `link` True.
   */
  function ManJumps(g: Grid, side: Color, row: int, col: int, link: bool): seq<Jump>
    requires IsGrid(g) && InBoard(row, col)
    decreases RowsToGo(side, row), 1
  {
    if side == White then ManHop(g, side, row, col, -1, link) + ManHop(g, side, row, col, 1, link)
    else ManHop(g, side, row, col, 1, link) + ManHop(g, side, row, col, -1, link)
  }

  function ManHop(g: Grid, side: Color, row: int, col: int, dc: int, link: bool): seq<Jump>
    requires IsGrid(g) && InBoard(row, col) && (dc == 1 || dc == -1)
    decreases RowsToGo(side, row), 0
  {
    var dr := Forward(side);
    if CheckJump(g, row, col, row + dr, col + dc, row + 2 * dr, col + 2 * dc, side) then
      [Jump(row, col, row + dr, col + dc, row + 2 * dr, col + 2 * dc, link)] +
      (if row + 2 * dr != PromotionRow(side) then ManJumps(g, side, row + 2 * dr, col + 2 * dc, true) else [])
    else []
  }

  /** Some hop already in `js` lands on (row, col): the king finders' guard. */
  predicate Reached(js: seq<Jump>, row: int, col: int)
  {
    exists k :: 0 <= k < |js| && js[k].newRow == row && js[k].newCol == col
  }

  /**
   * The jump list after `_find_white_king_jumps` / `_find_black_king_jumps`
   * is called at (row, col) with this `link` on the list `acc`: nothing when
   * a hop of `acc` already lands here, otherwise, per direction, the hop is
   * appended and the search recurses from its landing square.
   */
  function KingJumps(g: Grid, side: Color, row: int, col: int, link: bool, acc: seq<Jump>): seq<Jump>
    requires IsGrid(g) && InBoard(row, col)
    decreases if Reached(acc, row, col) then 0 else 1, 1
  {
    if Reached(acc, row, col) then acc
    else
      var a1 := KingHop(g, side, row, col, -1, -1, link, acc);
      var a2 := KingHop(g, side, row, col, -1, 1, link, a1);
      var a3 := KingHop(g, side, row, col, 1, -1, link, a2);
      KingHop(g, side, row, col, 1, 1, link, a3)
  }

  function KingHop(g: Grid, side: Color, row: int, col: int, dr: int, dc: int, link: bool, acc: seq<Jump>): seq<Jump>
    requires IsGrid(g) && InBoard(row, col) && (dr == 1 || dr == -1) && (dc == 1 || dc == -1)
    decreases 1, 0
  {
    if CheckJump(g, row, col, row + dr, col + dc, row + 2 * dr, col + 2 * dc, side) then
      var hop := Jump(row, col, row + dr, col + dc, row + 2 * dr, col + 2 * dc, link);
      var grown := acc + [hop];
      assert grown[|acc|] == hop;
      KingJumps(g, side, row + 2 * dr, col + 2 * dc, true, grown)
    else acc
  }

  /**
   * One square of the scan in `_find_valid_moves`: a piece of the side to
   * move whose king flag is False gets the man finders, any other piece of
   * that side the king finders.
   */
  function Visit(g: Grid, turn: Color, row: int, col: int, a: Actions): Actions
    requires IsGrid(g) && InBoard(row, col)
  {
    var side := SideOf(turn);
    var cell := g[row][col];
    if cell.color != side then a
    else if cell.king == KingFalse then
      Actions(a.moves + ManMoves(g, side, row, col), a.jumps + ManJumps(g, side, row, col, false))
    else
      Actions(a.moves + KingMoves(g, row, col), KingJumps(g, side, row, col, false, a.jumps))
  }

  /** The lists after the scan has visited the first `n` squares in row-major order. */
  function Scan(g: Grid, turn: Color, n: nat): Actions
    requires IsGrid(g) && n <= 64
  {
    if n == 0 then Actions([], []) else Visit(g, turn, (n - 1) / 8, (n - 1) % 8, Scan(g, turn, n - 1))
  }

  /** The lists `_find_valid_moves` computes for the side to move. */
  function ValidActions(g: Grid, turn: Color): Actions
    requires IsGrid(g)
  {
    Scan(g, turn, 64)
  }

  /** Neither list has an entry: the side to move is stuck. */
  predicate NoActions(a: Actions)
  {
    a.moves == [] && a.jumps == []
  }
}
