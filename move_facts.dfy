/**
 * What the move generator of env.py guarantees about the lists it builds:
 * every entry passed its check, men go forward and kings in all four
 * directions, recursive hops start where an earlier hop landed, man
 * searches stop at the promotion row, and king searches never chain.
 */
module MoveFacts {
  import opened Cells
  import opened Moves

  /** The square holds a piece the finders treat as a king (its flag is not False). */
  predicate KingAt(g: Grid, row: int, col: int)
    requires IsGrid(g)
  {
    InBoard(row, col) && g[row][col].color != Empty && g[row][col].king != KingFalse
  }

  /** A move entry of `side`: from one of its pieces, accepted by `_check_move`, one diagonal step, forward for a man. */
  predicate MoveOk(g: Grid, side: Color, m: Move)
    requires IsGrid(g)
  {
    InBoard(m.oldRow, m.oldCol) && InBoard(m.newRow, m.newCol) &&
    CheckMove(g, m.oldRow, m.oldCol, m.newRow, m.newCol) &&
    g[m.oldRow][m.oldCol].color == side &&
    (m.newCol == m.oldCol - 1 || m.newCol == m.oldCol + 1) &&
    (if g[m.oldRow][m.oldCol].king == KingFalse then m.newRow == m.oldRow + Forward(side)
     else m.newRow == m.oldRow - 1 || m.newRow == m.oldRow + 1)
  }

  /**
   * A jump entry of `side`: all three squares on the board, the jumped square
   * the midpoint of a two-square diagonal, accepted by `_check_jump`, forward
   * unless it starts on a king, starting on a piece of `side` when it is a
   * root and, when it is a continuation, on an empty square that is not the
   * promotion row.
   */
  predicate HopOk(g: Grid, side: Color, h: Jump)
    requires IsGrid(g)
  {
    InBoard(h.oldRow, h.oldCol) && InBoard(h.viaRow, h.viaCol) && InBoard(h.newRow, h.newCol) &&
    (h.viaRow == h.oldRow - 1 || h.viaRow == h.oldRow + 1) &&
    (h.viaCol == h.oldCol - 1 || h.viaCol == h.oldCol + 1) &&
    h.newRow == 2 * h.viaRow - h.oldRow && h.newCol == 2 * h.viaCol - h.oldCol &&
    CheckJump(g, h.oldRow, h.oldCol, h.viaRow, h.viaCol, h.newRow, h.newCol, side) &&
    (!KingAt(g, h.oldRow, h.oldCol) ==> h.viaRow == h.oldRow + Forward(side)) &&
    (!h.link ==> g[h.oldRow][h.oldCol].color == side) &&
    (h.link ==> g[h.oldRow][h.oldCol].color == Empty && h.oldRow != PromotionRow(side))
  }

  /** Every continuation hop starts where an earlier hop of the list landed. */
  ghost predicate ChainLinked(js: seq<Jump>)
  {
    forall i :: 0 <= i < |js| && js[i].link ==>
      exists j :: 0 <= j < i && js[j].newRow == js[i].oldRow && js[j].newCol == js[i].oldCol
  }

  /**
   * Every hop either starts at (row, col) with this `link`, or is a
   * continuation starting where an earlier hop landed.
   */
  ghost predicate RootedAt(js: seq<Jump>, row: int, col: int, link: bool)
  {
    forall i :: 0 <= i < |js| ==>
      (js[i].oldRow == row && js[i].oldCol == col && js[i].link == link) ||
      (js[i].link && exists j :: 0 <= j < i && js[j].newRow == js[i].oldRow && js[j].newCol == js[i].oldCol)
  }

  /** No continuation hop directly follows a hop that starts on a king. */
  ghost predicate NoKingChain(g: Grid, js: seq<Jump>)
    requires IsGrid(g)
  {
    forall i :: 0 < i < |js| && js[i].link ==> !KingAt(g, js[i - 1].oldRow, js[i - 1].oldCol)
  }

  lemma RootedCons(h: Jump, rest: seq<Jump>, row: int, col: int, link: bool)
    requires h.oldRow == row && h.oldCol == col && h.link == link
    requires RootedAt(rest, h.newRow, h.newCol, true)
    ensures RootedAt([h] + rest, row, col, link)
  {
    var js := [h] + rest;
    forall i | 0 <= i < |js|
      ensures (js[i].oldRow == row && js[i].oldCol == col && js[i].link == link) ||
              (js[i].link && exists j :: 0 <= j < i && js[j].newRow == js[i].oldRow && js[j].newCol == js[i].oldCol)
    {
      if i == 0 {
        assert js[0] == h;
      } else {
        var x := rest[i - 1];
        assert js[i] == x;
        if x.oldRow == h.newRow && x.oldCol == h.newCol && x.link {
          assert js[0] == h && js[0].newRow == js[i].oldRow && js[0].newCol == js[i].oldCol;
        } else {
          var j :| 0 <= j < i - 1 && rest[j].newRow == x.oldRow && rest[j].newCol == x.oldCol;
          assert js[j + 1] == rest[j];
        }
      }
    }
  }

  lemma RootedConcat(a: seq<Jump>, b: seq<Jump>, row: int, col: int, link: bool)
    requires RootedAt(a, row, col, link) && RootedAt(b, row, col, link)
    ensures RootedAt(a + b, row, col, link)
  {
    var js := a + b;
    forall i | |a| <= i < |js| && !(js[i].oldRow == row && js[i].oldCol == col && js[i].link == link)
      ensures js[i].link && exists j :: 0 <= j < i && js[j].newRow == js[i].oldRow && js[j].newCol == js[i].oldCol
    {
      assert js[i] == b[i - |a|];
      var j :| 0 <= j < i - |a| && b[j].newRow == b[i - |a|].oldRow && b[j].newCol == b[i - |a|].oldCol;
      assert js[j + |a|] == b[j];
    }
    forall i | 0 <= i < |a| ensures js[i] == a[i] { }
  }

  lemma LinkedConcat(a: seq<Jump>, b: seq<Jump>)
    requires ChainLinked(a) && ChainLinked(b)
    ensures ChainLinked(a + b)
  {
    var js := a + b;
    forall i | |a| <= i < |js| && js[i].link
      ensures exists j :: 0 <= j < i && js[j].newRow == js[i].oldRow && js[j].newCol == js[i].oldCol
    {
      assert js[i] == b[i - |a|];
      var j :| 0 <= j < i - |a| && b[j].newRow == b[i - |a|].oldRow && b[j].newCol == b[i - |a|].oldCol;
      assert js[j + |a|] == b[j];
    }
    forall i | 0 <= i < |a| ensures js[i] == a[i] { }
  }

  /**
   * The man search from (row, col): every hop is a well-formed forward hop,
   * none starts on a king, and the list is rooted at (row, col).  The
   * recursion ends because each hop moves two rows toward the promotion row.
   */
  lemma {:induction false} ManJumpsOk(g: Grid, side: Color, row: int, col: int, link: bool)
    requires IsGrid(g) && InBoard(row, col) && !KingAt(g, row, col)
    requires link ==> g[row][col].color == Empty && row != PromotionRow(side)
    requires !link ==> g[row][col].color == side
    ensures forall h :: h in ManJumps(g, side, row, col, link) ==> HopOk(g, side, h)
    ensures forall h :: h in ManJumps(g, side, row, col, link) ==> !KingAt(g, h.oldRow, h.oldCol)
    ensures RootedAt(ManJumps(g, side, row, col, link), row, col, link)
    decreases RowsToGo(side, row), 1
  {
    var first := if side == White then -1 else 1;
    ManHopOk(g, side, row, col, first, link);
    ManHopOk(g, side, row, col, -first, link);
    RootedConcat(ManHop(g, side, row, col, first, link), ManHop(g, side, row, col, -first, link), row, col, link);
  }

  lemma {:induction false} ManHopOk(g: Grid, side: Color, row: int, col: int, dc: int, link: bool)
    requires IsGrid(g) && InBoard(row, col) && !KingAt(g, row, col) && (dc == 1 || dc == -1)
    requires link ==> g[row][col].color == Empty && row != PromotionRow(side)
    requires !link ==> g[row][col].color == side
    ensures forall h :: h in ManHop(g, side, row, col, dc, link) ==> HopOk(g, side, h)
    ensures forall h :: h in ManHop(g, side, row, col, dc, link) ==> !KingAt(g, h.oldRow, h.oldCol)
    ensures RootedAt(ManHop(g, side, row, col, dc, link), row, col, link)
    decreases RowsToGo(side, row), 0
  {
    var dr := Forward(side);
    if CheckJump(g, row, col, row + dr, col + dc, row + 2 * dr, col + 2 * dc, side) {
      var hop := Jump(row, col, row + dr, col + dc, row + 2 * dr, col + 2 * dc, link);
      ManHopHead(g, side, row, col, dc, link);
      if row + 2 * dr != PromotionRow(side) {
        var rest := ManJumps(g, side, row + 2 * dr, col + 2 * dc, true);
        ManJumpsOk(g, side, row + 2 * dr, col + 2 * dc, true);
        RootedCons(hop, rest, row, col, link);
        assert ManHop(g, side, row, col, dc, link) == [hop] + rest;
        forall h | h in [hop] + rest ensures HopOk(g, side, h) && !KingAt(g, h.oldRow, h.oldCol) {
          if h != hop {
            assert h in rest;
          }
        }
      } else {
        assert ManHop(g, side, row, col, dc, link) == [hop];
      }
    }
  }

  /** The first hop of a man's search in direction `dc`, when `_check_jump` accepts it, is well formed. */
  lemma ManHopHead(g: Grid, side: Color, row: int, col: int, dc: int, link: bool)
    requires IsGrid(g) && InBoard(row, col) && !KingAt(g, row, col) && (dc == 1 || dc == -1)
    requires link ==> g[row][col].color == Empty && row != PromotionRow(side)
    requires !link ==> g[row][col].color == side
    requires CheckJump(g, row, col, row + Forward(side), col + dc, row + 2 * Forward(side), col + 2 * dc, side)
    ensures HopOk(g, side, Jump(row, col, row + Forward(side), col + dc, row + 2 * Forward(side), col + 2 * dc, link))
  {
  }

  /** The hops a king at (row, col) has, in the finders' order of directions, all with this `link`. */
  function KingRoots(g: Grid, side: Color, row: int, col: int, link: bool): seq<Jump>
    requires IsGrid(g) && InBoard(row, col)
  {
    KingRoot(g, side, row, col, -1, -1, link) + KingRoot(g, side, row, col, -1, 1, link) +
    KingRoot(g, side, row, col, 1, -1, link) + KingRoot(g, side, row, col, 1, 1, link)
  }

  function KingRoot(g: Grid, side: Color, row: int, col: int, dr: int, dc: int, link: bool): seq<Jump>
    requires IsGrid(g) && InBoard(row, col) && (dr == 1 || dr == -1) && (dc == 1 || dc == -1)
  {
    if CheckJump(g, row, col, row + dr, col + dc, row + 2 * dr, col + 2 * dc, side)
    then [Jump(row, col, row + dr, col + dc, row + 2 * dr, col + 2 * dc, link)]
    else []
  }

  /** A king hop's recursive call returns at once: its square was just recorded as a destination. */
  lemma KingHopFlat(g: Grid, side: Color, row: int, col: int, dr: int, dc: int, link: bool, acc: seq<Jump>)
    requires IsGrid(g) && InBoard(row, col) && (dr == 1 || dr == -1) && (dc == 1 || dc == -1)
    ensures KingHop(g, side, row, col, dr, dc, link, acc) == acc + KingRoot(g, side, row, col, dr, dc, link)
  {
    if CheckJump(g, row, col, row + dr, col + dc, row + 2 * dr, col + 2 * dc, side) {
      var hop := Jump(row, col, row + dr, col + dc, row + 2 * dr, col + 2 * dc, link);
      var grown := acc + [hop];
      assert grown[|acc|] == hop;
      assert Reached(grown, row + 2 * dr, col + 2 * dc);
    }
  }

  /**
   * King chains never form: the king search appends only hops that start at
   * the king's own square and carry the caller's `link`, and appends nothing
   * when the square is already a recorded destination.
   */
  lemma KingJumpsFlat(g: Grid, side: Color, row: int, col: int, link: bool, acc: seq<Jump>)
    requires IsGrid(g) && InBoard(row, col)
    ensures KingJumps(g, side, row, col, link, acc) ==
              if Reached(acc, row, col) then acc else acc + KingRoots(g, side, row, col, link)
  {
    if !Reached(acc, row, col) {
      var a1 := KingHop(g, side, row, col, -1, -1, link, acc);
      var a2 := KingHop(g, side, row, col, -1, 1, link, a1);
      var a3 := KingHop(g, side, row, col, 1, -1, link, a2);
      KingHopFlat(g, side, row, col, -1, -1, link, acc);
      KingHopFlat(g, side, row, col, -1, 1, link, a1);
      KingHopFlat(g, side, row, col, 1, -1, link, a2);
      KingHopFlat(g, side, row, col, 1, 1, link, a3);
      var r1 := KingRoot(g, side, row, col, -1, -1, link);
      var r2 := KingRoot(g, side, row, col, -1, 1, link);
      var r3 := KingRoot(g, side, row, col, 1, -1, link);
      var r4 := KingRoot(g, side, row, col, 1, 1, link);
      Append4(acc, r1, r2, r3, r4);
    }
  }

  /** Regrouping the four direction blocks, stated apart so `KingJumpsFlat` need not prove it in its own context. */
  lemma Append4(a: seq<Jump>, b: seq<Jump>, c: seq<Jump>, d: seq<Jump>, e: seq<Jump>)
    ensures a + b + c + d + e == a + (b + c + d + e)
  {
    calc {
      a + b + c + d + e;
      (a + b) + (c + d + e);
      a + (b + (c + d + e));
      a + (b + c + d + e);
    }
  }

  /** The hops of a king of `side` standing at (row, col) are well formed roots. */
  lemma KingRootsOk(g: Grid, side: Color, row: int, col: int)
    requires IsGrid(g) && InBoard(row, col) && KingAt(g, row, col) && g[row][col].color == side
    ensures forall h :: h in KingRoots(g, side, row, col, false) ==>
              HopOk(g, side, h) && h.oldRow == row && h.oldCol == col && !h.link
  {
    var r1 := KingRoot(g, side, row, col, -1, -1, false);
    var r2 := KingRoot(g, side, row, col, -1, 1, false);
    var r3 := KingRoot(g, side, row, col, 1, -1, false);
    var r4 := KingRoot(g, side, row, col, 1, 1, false);
    KingRootOk(g, side, row, col, -1, -1);
    KingRootOk(g, side, row, col, -1, 1);
    KingRootOk(g, side, row, col, 1, -1);
    KingRootOk(g, side, row, col, 1, 1);
    forall h | h in KingRoots(g, side, row, col, false)
      ensures h in r1 || h in r2 || h in r3 || h in r4
    {
      assert KingRoots(g, side, row, col, false) == r1 + r2 + r3 + r4;
    }
  }

  lemma KingRootOk(g: Grid, side: Color, row: int, col: int, dr: int, dc: int)
    requires IsGrid(g) && InBoard(row, col) && KingAt(g, row, col) && g[row][col].color == side
    requires (dr == 1 || dr == -1) && (dc == 1 || dc == -1)
    ensures forall h :: h in KingRoot(g, side, row, col, dr, dc, false) ==>
              HopOk(g, side, h) && h.oldRow == row && h.oldCol == col && !h.link
  {
  }

  /** The facts that hold of the lists after any prefix of the scan. */
  ghost predicate ScanFacts(g: Grid, side: Color, a: Actions)
    requires IsGrid(g)
  {
    (forall m :: m in a.moves ==> MoveOk(g, side, m)) &&
    (forall h :: h in a.jumps ==> HopOk(g, side, h)) &&
    ChainLinked(a.jumps) && NoKingChain(g, a.jumps)
  }

  lemma VisitFacts(g: Grid, turn: Color, row: int, col: int, a: Actions)
    requires IsGrid(g) && InBoard(row, col) && ScanFacts(g, SideOf(turn), a)
    ensures ScanFacts(g, SideOf(turn), Visit(g, turn, row, col, a))
  {
    var side := SideOf(turn);
    if g[row][col].color == side {
      if g[row][col].king == KingFalse {
        ManVisitFacts(g, side, row, col, a);
      } else {
        KingVisitFacts(g, side, row, col, a);
      }
    }
  }

  /** A man's moves step one square forward. */
  lemma ManMovesOk(g: Grid, side: Color, row: int, col: int)
    requires IsGrid(g) && InBoard(row, col) && g[row][col].color == side && g[row][col].king == KingFalse
    ensures forall m :: m in ManMoves(g, side, row, col) ==> MoveOk(g, side, m) && m.oldRow == row && m.oldCol == col
  {
    if side == White {
      StepToOk(g, side, row, col, -1, -1);
      StepToOk(g, side, row, col, -1, 1);
    } else {
      StepToOk(g, side, row, col, 1, 1);
      StepToOk(g, side, row, col, 1, -1);
    }
  }

  /** A king's moves step one square in any diagonal direction. */
  lemma KingMovesOk(g: Grid, side: Color, row: int, col: int)
    requires IsGrid(g) && InBoard(row, col) && g[row][col].color == side && g[row][col].king != KingFalse
    ensures forall m :: m in KingMoves(g, row, col) ==> MoveOk(g, side, m) && m.oldRow == row && m.oldCol == col
  {
    StepToOk(g, side, row, col, -1, -1);
    StepToOk(g, side, row, col, -1, 1);
    StepToOk(g, side, row, col, 1, -1);
    StepToOk(g, side, row, col, 1, 1);
    assert KingMoves(g, row, col) ==
      StepTo(g, row, col, -1, -1) + StepTo(g, row, col, -1, 1) + StepTo(g, row, col, 1, -1) + StepTo(g, row, col, 1, 1);
  }

  lemma StepToOk(g: Grid, side: Color, row: int, col: int, dr: int, dc: int)
    requires IsGrid(g) && InBoard(row, col) && g[row][col].color == side && (dr == 1 || dr == -1) && (dc == 1 || dc == -1)
    requires g[row][col].king == KingFalse ==> dr == Forward(side)
    ensures forall m :: m in StepTo(g, row, col, dr, dc) ==> MoveOk(g, side, m) && m.oldRow == row && m.oldCol == col
  {
  }

  /** Appending entries that pass the checks keeps the move facts. */
  lemma MovesGrow(g: Grid, side: Color, a: seq<Move>, b: seq<Move>)
    requires IsGrid(g)
    requires forall m :: m in a ==> MoveOk(g, side, m)
    requires forall m :: m in b ==> MoveOk(g, side, m)
    ensures forall m :: m in a + b ==> MoveOk(g, side, m)
  {
  }

  lemma ManVisitFacts(g: Grid, side: Color, row: int, col: int, a: Actions)
    requires IsGrid(g) && InBoard(row, col) && ScanFacts(g, side, a)
    requires g[row][col].color == side && g[row][col].king == KingFalse
    ensures ScanFacts(g, side, Actions(a.moves + ManMoves(g, side, row, col), a.jumps + ManJumps(g, side, row, col, false)))
  {
    ManMovesOk(g, side, row, col);
    MovesGrow(g, side, a.moves, ManMoves(g, side, row, col));
    var seg := ManJumps(g, side, row, col, false);
    ManJumpsOk(g, side, row, col, false);
    LinkedConcat(a.jumps, seg);
    var js := a.jumps + seg;
    forall i | 0 < i < |js| && js[i].link ensures !KingAt(g, js[i - 1].oldRow, js[i - 1].oldCol) {
      if i < |a.jumps| {
        assert js[i] == a.jumps[i] && js[i - 1] == a.jumps[i - 1];
      } else if i > |a.jumps| {
        assert js[i - 1] == seg[i - 1 - |a.jumps|];
      }
    }
  }

  lemma KingVisitFacts(g: Grid, side: Color, row: int, col: int, a: Actions)
    requires IsGrid(g) && InBoard(row, col) && ScanFacts(g, side, a)
    requires side != Empty && g[row][col].color == side && g[row][col].king != KingFalse
    ensures ScanFacts(g, side, Actions(a.moves + KingMoves(g, row, col), KingJumps(g, side, row, col, false, a.jumps)))
  {
    KingMovesOk(g, side, row, col);
    MovesGrow(g, side, a.moves, KingMoves(g, row, col));
    var seg := KingRoots(g, side, row, col, false);
    KingRootsOk(g, side, row, col);
    KingJumpsFlat(g, side, row, col, false, a.jumps);
    var js := KingJumps(g, side, row, col, false, a.jumps);
    if !Reached(a.jumps, row, col) {
      assert js == a.jumps + seg;
      forall i | 0 <= i < |js| && js[i].link
        ensures i < |a.jumps| && js[i] == a.jumps[i]
      {
      }
      forall i | 0 < i < |js| && js[i].link ensures js[i - 1] == a.jumps[i - 1] { }
    }
  }

  /** Step `row * 8 + col` of the scan visits square (row, col). */
  lemma ScanStep(g: Grid, turn: Color, row: int, col: int)
    requires IsGrid(g) && InBoard(row, col)
    ensures Scan(g, turn, row * 8 + col + 1) == Visit(g, turn, row, col, Scan(g, turn, row * 8 + col))
  {
    assert (row * 8 + col) / 8 == row && (row * 8 + col) % 8 == col;
  }

  lemma {:induction false} ScanOk(g: Grid, turn: Color, n: nat)
    requires IsGrid(g) && n <= 64
    ensures ScanFacts(g, SideOf(turn), Scan(g, turn, n))
  {
    if n > 0 {
      ScanOk(g, turn, n - 1);
      VisitFacts(g, turn, (n - 1) / 8, (n - 1) % 8, Scan(g, turn, n - 1));
    }
  }

  /**
   * The lists `_find_valid_moves` builds: every move passed `_check_move`,
   * starts on a piece of the side to move and steps one diagonal (forward
   * for a man); every hop passed `_check_jump` with its jumped square the
   * on-board midpoint, goes forward unless it starts on a king; a root hop
   * starts on a piece of the side to move, and a continuation hop starts on
   * an empty non-promotion-row square where an earlier hop landed, never
   * directly after a king's hop.
   */
  lemma ValidActionsOk(g: Grid, turn: Color)
    requires IsGrid(g)
    ensures forall m :: m in ValidActions(g, turn).moves ==> MoveOk(g, SideOf(turn), m)
    ensures forall h :: h in ValidActions(g, turn).jumps ==> HopOk(g, SideOf(turn), h)
    ensures ChainLinked(ValidActions(g, turn).jumps)
    ensures NoKingChain(g, ValidActions(g, turn).jumps)
  {
    ScanOk(g, turn, 64);
  }

  /** Every hop starting on a king is a root hop: kings never continue a chain. */
  lemma KingHopsAreRoots(g: Grid, turn: Color)
    requires IsGrid(g)
    ensures forall h :: h in ValidActions(g, turn).jumps && KingAt(g, h.oldRow, h.oldCol) ==> !h.link
  {
    ValidActionsOk(g, turn);
  }
}
