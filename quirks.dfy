/**
 * Consequences of how `step` and the chain loops of env.py use the
 * generated jump list, which holds continuation hops beside root hops and
 * can branch.
 */
module Quirks {
  import opened Cells
  import opened Moves
  import MoveFacts
  import opened Chains
  import opened Turns

  /**
   * White may select a continuation entry (`link` True) in `step`. Such an
   * entry starts on an empty square, so the half-move carries an empty cell
   * onto the target and removes the black piece it jumps, while no white
   * piece moves and none is lost.
   */
  lemma LinkedWhiteHop(g: Grid, k: nat)
    requires IsGrid(g) && k < |Offered(g, White).jumps| && Offered(g, White).jumps[k].link
    ensures var a := Offered(g, White);
            var h := a.jumps[k];
            var r := WhiteGrid(g, a.jumps, a.moves, JumpAt(k));
            g[h.oldRow][h.oldCol].color == Empty &&
            r[h.newRow][h.newCol].color == Empty && r[h.viaRow][h.viaCol].color == Empty &&
            CountColor(r, Black) == CountColor(g, Black) - 1 && CountColor(r, White) == CountColor(g, White)
  {
    var a := Offered(g, White);
    var h := a.jumps[k];
    MoveFacts.ValidActionsOk(g, White);
    assert h in a.jumps;
    WhiteGridCounts(g, JumpAt(k), Black);
    WhiteGridCounts(g, JumpAt(k), White);
  }

  /** A black man at (0, 3) facing white men at (1, 4), (3, 6) and (3, 4); every other square empty. */
  function BranchCell(r: int, c: int): Cell
  {
    if r == 0 && c == 3 then Cell(Black, KingFalse)
    else if (r == 1 && c == 4) || (r == 3 && c == 6) || (r == 3 && c == 4) then Cell(White, KingFalse)
    else Cell(Empty, KingFalse)
  }

  function BranchGrid(): (g: Grid)
    ensures IsGrid(g)
    ensures forall r, c {:trigger g[r][c]} :: InBoard(r, c) ==> g[r][c] == BranchCell(r, c)
  {
    seq(BoardSize, r => seq(BoardSize, c => BranchCell(r, c)))
  }

  /** The man search on `BranchGrid` from (0, 3) branches after its first hop. */
  lemma BranchSearch()
    ensures ManJumps(BranchGrid(), Black, 0, 3, false) ==
              [Jump(0, 3, 1, 4, 2, 5, false), Jump(2, 5, 3, 6, 4, 7, true), Jump(2, 5, 3, 4, 4, 3, true)]
  {
    var g := BranchGrid();
    var a := Jump(0, 3, 1, 4, 2, 5, false);
    var b1 := Jump(2, 5, 3, 6, 4, 7, true);
    var b2 := Jump(2, 5, 3, 4, 4, 3, true);
    assert ManJumps(g, Black, 4, 7, true) == [] by {
      assert ManHop(g, Black, 4, 7, 1, true) == [];
      assert ManHop(g, Black, 4, 7, -1, true) == [];
    }
    assert ManJumps(g, Black, 4, 3, true) == [] by {
      assert ManHop(g, Black, 4, 3, 1, true) == [];
      assert ManHop(g, Black, 4, 3, -1, true) == [];
    }
    assert ManJumps(g, Black, 2, 5, true) == [b1, b2] by {
      assert ManHop(g, Black, 2, 5, 1, true) == [b1];
      assert ManHop(g, Black, 2, 5, -1, true) == [b2];
    }
    assert ManHop(g, Black, 0, 3, 1, false) == [a, b1, b2];
    assert ManHop(g, Black, 0, 3, -1, false) == [];
  }

  /** Three hops played by `ApplyHops` are the three hops played one after another. */
  lemma ThreeHops(g: Grid, js: seq<Jump>)
    requires IsGrid(g) && HopsInBoard(js) && |js| == 3
    ensures ApplyHops(g, js, 0, 3) == PlayHop(PlayHop(PlayHop(g, js[0]), js[1]), js[2])
  {
    assert ApplyHops(g, js, 0, 1) == PlayHop(g, js[0]);
    assert ApplyHops(g, js, 0, 2) == PlayHop(PlayHop(g, js[0]), js[1]);
  }

  /**
   * Playing the three hops of the branching search on any grid: the piece
   * on (0, 3) ends on (4, 7), the cell the first branch left on (2, 5) is
   * carried to (4, 3), and all three jumped squares are cleared.
   */
  lemma BranchPlay(g: Grid)
    requires IsGrid(g)
    ensures var r := PlayHop(PlayHop(PlayHop(g, Jump(0, 3, 1, 4, 2, 5, false)), Jump(2, 5, 3, 6, 4, 7, true)), Jump(2, 5, 3, 4, 4, 3, true));
            r[4][7] == g[0][3] && r[4][3] == Captured && r[1][4] == Captured && r[3][6] == Captured && r[3][4] == Captured
  {
    var g1 := PlayHop(g, Jump(0, 3, 1, 4, 2, 5, false));
    var g2 := PlayHop(g1, Jump(2, 5, 3, 6, 4, 7, true));
    assert g1[2][5] == g[0][3] && g1[1][4] == Captured;
    assert g2[4][7] == g[0][3] && g2[2][5] == Captured && g2[1][4] == Captured && g2[3][6] == Captured;
  }

  /**
   * The chain loop plays all three entries of that search in a row.  The
   * second branch starts on the square the first one just emptied, so the
   * black man ends on (4, 7) while an empty cell is carried to (4, 3), where
   * the promotion is applied although the chain ran to the end of the list.
   * All three white men are captured.
   */
  lemma BranchingChain()
    ensures var g := BranchGrid();
            var js := ManJumps(g, Black, 0, 3, false);
            HopsInBoard(js) && |js| == 3 && ChainEnd(js, 0) == 3 && PromotionIndex(js, 0) == 2 && !Linear(js, 0, 3) &&
            ChainOutcome(g, js, 0)[4][7] == Cell(Black, KingFalse) &&
            ChainOutcome(g, js, 0)[4][3] == Captured &&
            ChainOutcome(g, js, 0)[1][4] == Captured && ChainOutcome(g, js, 0)[3][6] == Captured && ChainOutcome(g, js, 0)[3][4] == Captured
  {
    var g := BranchGrid();
    BranchSearch();
    BranchPlay(g);
    var js := ManJumps(g, Black, 0, 3, false);
    ThreeHops(g, js);
    assert ChainEnd(js, 1) == 3;
    assert js[2].oldRow != js[1].newRow;
  }

  /** Black man at (0, 3); white men at (1, 4), (3, 6), (5, 6), (3, 4), (5, 4) and (5, 2); every other square empty. */
  function EraseCell(r: int, c: int): Cell
  {
    if r == 0 && c == 3 then Cell(Black, KingFalse)
    else if (r == 1 && c == 4) || (r == 3 && c == 6) || (r == 5 && c == 6) ||
            (r == 3 && c == 4) || (r == 5 && c == 4) || (r == 5 && c == 2) then Cell(White, KingFalse)
    else Cell(Empty, KingFalse)
  }

  function EraseGrid(): (g: Grid)
    ensures IsGrid(g)
    ensures forall r, c {:trigger g[r][c]} :: InBoard(r, c) ==> g[r][c] == EraseCell(r, c)
  {
    seq(BoardSize, r => seq(BoardSize, c => EraseCell(r, c)))
  }

  /** The searches from row 6 find nothing: a black man there can only land on row 8. */
  lemma EraseLeaves()
    ensures ManJumps(EraseGrid(), Black, 6, 5, true) == [] && ManJumps(EraseGrid(), Black, 6, 1, true) == []
  {
    var g := EraseGrid();
    assert ManHop(g, Black, 6, 5, 1, true) == [] && ManHop(g, Black, 6, 5, -1, true) == [];
    assert ManHop(g, Black, 6, 1, 1, true) == [] && ManHop(g, Black, 6, 1, -1, true) == [];
  }

  /** From (4, 7) the search finds the one hop to (6, 5). */
  lemma EraseFrom47()
    ensures ManJumps(EraseGrid(), Black, 4, 7, true) == [Jump(4, 7, 5, 6, 6, 5, true)]
  {
    var g := EraseGrid();
    EraseLeaves();
    assert ManHop(g, Black, 4, 7, 1, true) == [];
    assert ManHop(g, Black, 4, 7, -1, true) == [Jump(4, 7, 5, 6, 6, 5, true)];
  }

  /** From (4, 3) the search finds the hops to (6, 5) and to (6, 1). */
  lemma EraseFrom43()
    ensures ManJumps(EraseGrid(), Black, 4, 3, true) == [Jump(4, 3, 5, 4, 6, 5, true), Jump(4, 3, 5, 2, 6, 1, true)]
  {
    var g := EraseGrid();
    EraseLeaves();
    assert ManHop(g, Black, 4, 3, 1, true) == [Jump(4, 3, 5, 4, 6, 5, true)];
    assert ManHop(g, Black, 4, 3, -1, true) == [Jump(4, 3, 5, 2, 6, 1, true)];
  }

  /** From (2, 5) the search branches: to (4, 7) and on, then to (4, 3) and on. */
  lemma EraseFrom25()
    ensures ManJumps(EraseGrid(), Black, 2, 5, true) ==
              [Jump(2, 5, 3, 6, 4, 7, true), Jump(4, 7, 5, 6, 6, 5, true),
               Jump(2, 5, 3, 4, 4, 3, true), Jump(4, 3, 5, 4, 6, 5, true), Jump(4, 3, 5, 2, 6, 1, true)]
  {
    var g := EraseGrid();
    EraseFrom47();
    EraseFrom43();
    assert ManHop(g, Black, 2, 5, 1, true) == [Jump(2, 5, 3, 6, 4, 7, true), Jump(4, 7, 5, 6, 6, 5, true)];
    assert ManHop(g, Black, 2, 5, -1, true) ==
      [Jump(2, 5, 3, 4, 4, 3, true), Jump(4, 3, 5, 4, 6, 5, true), Jump(4, 3, 5, 2, 6, 1, true)];
  }

  /** The hops the search on `EraseGrid` lists, in its order. */
  function EraseHops(): seq<Jump>
  {
    [Jump(0, 3, 1, 4, 2, 5, false), Jump(2, 5, 3, 6, 4, 7, true), Jump(4, 7, 5, 6, 6, 5, true),
     Jump(2, 5, 3, 4, 4, 3, true), Jump(4, 3, 5, 4, 6, 5, true), Jump(4, 3, 5, 2, 6, 1, true)]
  }

  /**
   * The man search on `EraseGrid` from (0, 3): the hop to (2, 5), then both
   * branches from there, each of which leads on to (6, 5).
   */
  lemma EraseSearch()
    ensures ManJumps(EraseGrid(), Black, 0, 3, false) == EraseHops()
  {
    var g := EraseGrid();
    EraseFrom25();
    assert ManHop(g, Black, 0, 3, 1, false) == [Jump(0, 3, 1, 4, 2, 5, false)] + ManJumps(g, Black, 2, 5, true);
    assert ManHop(g, Black, 0, 3, -1, false) == [];
  }

  /** No square other than (row, col) holds a black piece. */
  ghost predicate BlackOnlyOn(g: Grid, row: int, col: int)
    requires IsGrid(g)
  {
    forall r, c {:trigger g[r][c]} :: InBoard(r, c) && (r != row || c != col) ==> g[r][c].color != Black
  }

  /** No square holds a black piece. */
  ghost predicate NoBlack(g: Grid)
    requires IsGrid(g)
  {
    forall r, c {:trigger g[r][c]} :: InBoard(r, c) ==> g[r][c].color != Black
  }

  /**
   * Where black can stand after one `_make_jump`: a hop from the only black
   * square carries it to the landing square; any other hop carries a
   * non-black cell, which erases the black piece when it lands on it.
   */
  lemma HopMovesBlack(g: Grid, h: Jump, row: int, col: int)
    requires IsGrid(g) && HopInBoard(h) && h.newRow != h.oldRow && h.newRow != h.viaRow
    requires BlackOnlyOn(g, row, col)
    ensures h.oldRow == row && h.oldCol == col ==> BlackOnlyOn(PlayHop(g, h), h.newRow, h.newCol)
    ensures (h.oldRow != row || h.oldCol != col) ==> BlackOnlyOn(PlayHop(g, h), row, col)
    ensures (h.oldRow != row || h.oldCol != col) && h.newRow == row && h.newCol == col ==> NoBlack(PlayHop(g, h))
  {
  }

  /**
   * Six on-board hops, each moving two rows, that go (0, 3) to (2, 5) to
   * (4, 7) to (6, 5), then (2, 5) to (4, 3), (4, 3) to (6, 5) and (4, 3) to
   * (6, 1), the last five of them continuations.
   */
  predicate EraseShaped(js: seq<Jump>)
  {
    |js| == 6 && HopsInBoard(js) &&
    (forall i :: 0 <= i < 6 ==> js[i].newRow != js[i].oldRow && js[i].newRow != js[i].viaRow) &&
    (forall i :: 1 <= i < 6 ==> js[i].link) &&
    js[0].oldRow == 0 && js[0].oldCol == 3 && js[0].newRow == 2 && js[0].newCol == 5 &&
    js[1].oldRow == 2 && js[1].oldCol == 5 && js[1].newRow == 4 && js[1].newCol == 7 &&
    js[2].oldRow == 4 && js[2].oldCol == 7 && js[2].newRow == 6 && js[2].newCol == 5 &&
    js[3].oldRow == 2 && js[3].oldCol == 5 && js[3].newRow == 4 && js[3].newCol == 3 &&
    js[4].oldRow == 4 && js[4].oldCol == 3 && js[4].newRow == 6 && js[4].newCol == 5 &&
    js[5].oldRow == 4 && js[5].oldCol == 3 && js[5].newRow == 6 && js[5].newCol == 1
  }

  lemma EraseHopsShaped()
    ensures EraseShaped(EraseHops())
  {
  }

  /** The search on `EraseGrid` has that shape. */
  lemma EraseShape()
    ensures EraseShaped(ManJumps(EraseGrid(), Black, 0, 3, false))
  {
    EraseSearch();
    EraseHopsShaped();
  }

  /**
   * Six hops shaped like the search on `EraseGrid`, played in order on a
   * grid whose only black piece stands on (0, 3), leave no black piece on
   * the board: the fifth hop carries the empty cell left on (4, 3) onto
   * (6, 5), where the third hop put the black piece.
   */
  lemma ErasePlay(g: Grid, js: seq<Jump>)
    requires IsGrid(g) && EraseShaped(js) && BlackOnlyOn(g, 0, 3)
    ensures NoBlack(ApplyHops(g, js, 0, 6))
  {
    HopMovesBlack(g, js[0], 0, 3);
    HopMovesBlack(ApplyHops(g, js, 0, 1), js[1], 2, 5);
    HopMovesBlack(ApplyHops(g, js, 0, 2), js[2], 4, 7);
    HopMovesBlack(ApplyHops(g, js, 0, 3), js[3], 6, 5);
    HopMovesBlack(ApplyHops(g, js, 0, 4), js[4], 6, 5);
    var g5 := ApplyHops(g, js, 0, 5);
    assert BlackOnlyOn(g5, 6, 1);
    HopMovesBlack(g5, js[5], 6, 1);
  }

  /**
   * On `EraseGrid` the chain loop from the first hop plays all six entries.
   * Afterwards no square holds a black piece, though the black man started
   * on (0, 3) and only white pieces were jumped.
   */
  lemma ErasingChain()
    ensures var g := EraseGrid();
            var js := ManJumps(g, Black, 0, 3, false);
            g[0][3] == Cell(Black, KingFalse) && BlackOnlyOn(g, 0, 3) &&
            HopsInBoard(js) && |js| == 6 && ChainEnd(js, 0) == 6 && NoBlack(ChainOutcome(g, js, 0))
  {
    var g := EraseGrid();
    EraseShape();
    var js := ManJumps(g, Black, 0, 3, false);
    ErasePlay(g, js);
    SixLinked(js);
  }

  /** A six-entry list whose last five entries are continuations is one chain from its first entry. */
  lemma SixLinked(js: seq<Jump>)
    requires |js| == 6 && js[1].link && js[2].link && js[3].link && js[4].link && js[5].link
    ensures ChainEnd(js, 0) == 6
  {
    assert ChainEnd(js, 5) == 6 && ChainEnd(js, 4) == 6 && ChainEnd(js, 3) == 6;
    assert ChainEnd(js, 2) == 6 && ChainEnd(js, 1) == 6;
  }
}
