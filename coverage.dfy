/**
 * The converse of `MoveFacts.ValidActionsOk`: `_find_valid_moves` (env.py)
 * lists every move and every root hop the rules give the side to move, and
 * every continuation from the landing square of a man's hop.  With
 * `ValidActionsOk` this pins both lists down as sets.
 */
module Coverage {
  import opened Cells
  import opened Moves
  import opened MoveFacts

  /** Visiting a square only appends to the lists. */
  lemma VisitKeeps(g: Grid, turn: Color, row: int, col: int, a: Actions)
    requires IsGrid(g) && InBoard(row, col)
    ensures forall m :: m in a.moves ==> m in Visit(g, turn, row, col, a).moves
    ensures forall h :: h in a.jumps ==> h in Visit(g, turn, row, col, a).jumps
  {
    var side := SideOf(turn);
    if g[row][col].color == side && g[row][col].king != KingFalse {
      KingJumpsFlat(g, side, row, col, false, a.jumps);
    }
  }

  /** A later prefix of the scan still holds every entry of an earlier one. */
  lemma {:induction false} ScanKeeps(g: Grid, turn: Color, n: nat, m: nat)
    requires IsGrid(g) && n <= m <= 64
    ensures forall x :: x in Scan(g, turn, n).moves ==> x in Scan(g, turn, m).moves
    ensures forall h :: h in Scan(g, turn, n).jumps ==> h in Scan(g, turn, m).jumps
    decreases m
  {
    if n < m {
      ScanKeeps(g, turn, n, m - 1);
      VisitKeeps(g, turn, (m - 1) / 8, (m - 1) % 8, Scan(g, turn, m - 1));
    }
  }

  /** A man's finders append each accepted forward step and each accepted forward hop, with the caller's `link`. */
  lemma ManAdds(g: Grid, side: Color, row: int, col: int, dc: int, link: bool)
    requires IsGrid(g) && InBoard(row, col) && (dc == 1 || dc == -1)
    ensures var dr := Forward(side);
            CheckMove(g, row, col, row + dr, col + dc) ==> Move(row, col, row + dr, col + dc) in ManMoves(g, side, row, col)
    ensures var dr := Forward(side);
            CheckJump(g, row, col, row + dr, col + dc, row + 2 * dr, col + 2 * dc, side) ==>
              Jump(row, col, row + dr, col + dc, row + 2 * dr, col + 2 * dc, link) in ManJumps(g, side, row, col, link)
  {
    var dr := Forward(side);
    var hop := Jump(row, col, row + dr, col + dc, row + 2 * dr, col + 2 * dc, link);
    if CheckJump(g, row, col, row + dr, col + dc, row + 2 * dr, col + 2 * dc, side) {
      assert ManHop(g, side, row, col, dc, link)[0] == hop;
    }
    if CheckMove(g, row, col, row + dr, col + dc) {
      assert StepTo(g, row, col, dr, dc) == [Move(row, col, row + dr, col + dc)];
    }
  }

  /** A king's finders append each accepted step and each accepted root hop, in all four directions. */
  lemma KingAdds(g: Grid, side: Color, row: int, col: int, dr: int, dc: int, acc: seq<Jump>)
    requires IsGrid(g) && InBoard(row, col) && (dr == 1 || dr == -1) && (dc == 1 || dc == -1)
    requires !Reached(acc, row, col)
    ensures CheckMove(g, row, col, row + dr, col + dc) ==> Move(row, col, row + dr, col + dc) in KingMoves(g, row, col)
    ensures CheckJump(g, row, col, row + dr, col + dc, row + 2 * dr, col + 2 * dc, side) ==>
              Jump(row, col, row + dr, col + dc, row + 2 * dr, col + 2 * dc, false) in KingJumps(g, side, row, col, false, acc)
  {
    KingJumpsFlat(g, side, row, col, false, acc);
    if CheckJump(g, row, col, row + dr, col + dc, row + 2 * dr, col + 2 * dc, side) {
      var hop := Jump(row, col, row + dr, col + dc, row + 2 * dr, col + 2 * dc, false);
      assert hop in KingRoot(g, side, row, col, dr, dc, false);
      assert KingRoots(g, side, row, col, false) ==
        KingRoot(g, side, row, col, -1, -1, false) + KingRoot(g, side, row, col, -1, 1, false) +
        KingRoot(g, side, row, col, 1, -1, false) + KingRoot(g, side, row, col, 1, 1, false);
    }
    if CheckMove(g, row, col, row + dr, col + dc) {
      assert Move(row, col, row + dr, col + dc) in StepTo(g, row, col, dr, dc);
    }
  }

  /**
   * No hop recorded so far lands on a square holding a piece: the king
   * finders' guard never fires at the square of a king being visited.
   */
  lemma NotReached(g: Grid, side: Color, row: int, col: int, a: Actions)
    requires IsGrid(g) && InBoard(row, col) && ScanFacts(g, side, a) && g[row][col].color != Empty
    ensures !Reached(a.jumps, row, col)
  {
    forall k | 0 <= k < |a.jumps| ensures a.jumps[k].newRow != row || a.jumps[k].newCol != col {
      assert a.jumps[k] in a.jumps;
    }
  }

  /** Visiting a piece of the side to move appends each of its accepted steps and root hops. */
  lemma VisitAdds(g: Grid, turn: Color, row: int, col: int, dr: int, dc: int, a: Actions)
    requires IsGrid(g) && InBoard(row, col) && ScanFacts(g, SideOf(turn), a)
    requires g[row][col].color == SideOf(turn) && (dr == 1 || dr == -1) && (dc == 1 || dc == -1)
    requires g[row][col].king == KingFalse ==> dr == Forward(SideOf(turn))
    ensures CheckMove(g, row, col, row + dr, col + dc) ==> Move(row, col, row + dr, col + dc) in Visit(g, turn, row, col, a).moves
    ensures CheckJump(g, row, col, row + dr, col + dc, row + 2 * dr, col + 2 * dc, SideOf(turn)) ==>
              Jump(row, col, row + dr, col + dc, row + 2 * dr, col + 2 * dc, false) in Visit(g, turn, row, col, a).jumps
  {
    var side := SideOf(turn);
    if g[row][col].king == KingFalse {
      ManAdds(g, side, row, col, dc, false);
    } else {
      NotReached(g, side, row, col, a);
      KingAdds(g, side, row, col, dr, dc, a.jumps);
    }
  }

  /** The scan reaches square (row, col) at step `row * 8 + col + 1`, with the list facts holding before it. */
  lemma ScanAt(g: Grid, turn: Color, row: int, col: int) returns (n: nat)
    requires IsGrid(g) && InBoard(row, col)
    ensures 0 < n <= 64 && (n - 1) / 8 == row && (n - 1) % 8 == col
    ensures ScanFacts(g, SideOf(turn), Scan(g, turn, n - 1))
  {
    n := row * 8 + col + 1;
    ScanOk(g, turn, n - 1);
  }

  /** Every move the rules allow the side to move is in the move list. */
  lemma MoveListed(g: Grid, turn: Color, m: Move)
    requires IsGrid(g) && MoveOk(g, SideOf(turn), m)
    ensures m in ValidActions(g, turn).moves
  {
    var dr, dc := m.newRow - m.oldRow, m.newCol - m.oldCol;
    assert m == Move(m.oldRow, m.oldCol, m.oldRow + dr, m.oldCol + dc);
    StepListed(g, turn, m.oldRow, m.oldCol, dr, dc);
  }

  /** An accepted step from a piece of the side to move, forward unless it is a king, is in the move list. */
  lemma StepListed(g: Grid, turn: Color, row: int, col: int, dr: int, dc: int)
    requires IsGrid(g) && InBoard(row, col) && g[row][col].color == SideOf(turn)
    requires (dr == 1 || dr == -1) && (dc == 1 || dc == -1)
    requires g[row][col].king == KingFalse ==> dr == Forward(SideOf(turn))
    requires CheckMove(g, row, col, row + dr, col + dc)
    ensures Move(row, col, row + dr, col + dc) in ValidActions(g, turn).moves
  {
    var n := ScanAt(g, turn, row, col);
    VisitAdds(g, turn, row, col, dr, dc, Scan(g, turn, n - 1));
    ScanKeeps(g, turn, n, 64);
  }

  /** A root hop is one diagonal direction from a piece of `side`, forward unless the piece is a king. */
  lemma RootHopShape(g: Grid, side: Color, h: Jump) returns (dr: int, dc: int)
    requires IsGrid(g) && HopOk(g, side, h) && !h.link
    ensures (dr == 1 || dr == -1) && (dc == 1 || dc == -1)
    ensures InBoard(h.oldRow, h.oldCol) && g[h.oldRow][h.oldCol].color == side
    ensures g[h.oldRow][h.oldCol].king == KingFalse ==> dr == Forward(side)
    ensures h == Jump(h.oldRow, h.oldCol, h.oldRow + dr, h.oldCol + dc, h.oldRow + 2 * dr, h.oldCol + 2 * dc, false)
    ensures CheckJump(g, h.oldRow, h.oldCol, h.oldRow + dr, h.oldCol + dc, h.oldRow + 2 * dr, h.oldCol + 2 * dc, side)
  {
    dr, dc := h.viaRow - h.oldRow, h.viaCol - h.oldCol;
    assert g[h.oldRow][h.oldCol].king == KingFalse ==> !KingAt(g, h.oldRow, h.oldCol);
  }

  /** Every root hop the rules allow the side to move is in the jump list. */
  lemma HopListed(g: Grid, turn: Color, h: Jump)
    requires IsGrid(g) && HopOk(g, SideOf(turn), h) && !h.link
    ensures h in ValidActions(g, turn).jumps
  {
    var dr, dc := RootHopShape(g, SideOf(turn), h);
    RootListed(g, turn, h.oldRow, h.oldCol, dr, dc);
  }

  /** An accepted hop from a piece of the side to move, forward unless it is a king, is in the jump list. */
  lemma RootListed(g: Grid, turn: Color, row: int, col: int, dr: int, dc: int)
    requires IsGrid(g) && InBoard(row, col) && g[row][col].color == SideOf(turn)
    requires (dr == 1 || dr == -1) && (dc == 1 || dc == -1)
    requires g[row][col].king == KingFalse ==> dr == Forward(SideOf(turn))
    requires CheckJump(g, row, col, row + dr, col + dc, row + 2 * dr, col + 2 * dc, SideOf(turn))
    ensures Jump(row, col, row + dr, col + dc, row + 2 * dr, col + 2 * dc, false) in ValidActions(g, turn).jumps
  {
    var n := ScanAt(g, turn, row, col);
    var before := Scan(g, turn, n - 1);
    VisitAdds(g, turn, row, col, dr, dc, before);
    ScanKeeps(g, turn, n, 64);
  }

  /**
   * The move list holds exactly the moves of the side to move: a one-square
   * diagonal step onto an empty on-board square, forward for a man.
   */
  lemma MovesExact(g: Grid, turn: Color)
    requires IsGrid(g)
    ensures forall m :: m in ValidActions(g, turn).moves <==> MoveOk(g, SideOf(turn), m)
  {
    ValidActionsOk(g, turn);
    forall m | MoveOk(g, SideOf(turn), m) ensures m in ValidActions(g, turn).moves {
      MoveListed(g, turn, m);
    }
  }

  /**
   * The root hops of the jump list are exactly the captures the side to move
   * can start: every piece's accepted forward hops and every king's accepted
   * hops in all four directions.
   */
  lemma RootHopsExact(g: Grid, turn: Color)
    requires IsGrid(g)
    ensures forall h: Jump :: !h.link ==> (h in ValidActions(g, turn).jumps <==> HopOk(g, SideOf(turn), h))
  {
    ValidActionsOk(g, turn);
    forall h: Jump | !h.link && HopOk(g, SideOf(turn), h) ensures h in ValidActions(g, turn).jumps {
      HopListed(g, turn, h);
    }
  }

  /**
   * The hop `_check_jump` accepts from (row, col) one row forward in column
   * direction `dc`, as the man search records it from a landing square, is
   * in `js`.
   */
  predicate ContinuationIn(g: Grid, side: Color, js: seq<Jump>, row: int, col: int, dc: int)
    requires IsGrid(g)
  {
    var dr := Forward(side);
    InBoard(row, col) && CheckJump(g, row, col, row + dr, col + dc, row + 2 * dr, col + 2 * dc, side) ==>
      Jump(row, col, row + dr, col + dc, row + 2 * dr, col + 2 * dc, true) in js
  }

  /**
   * Every hop of `js` that does not start on a king and lands off the
   * promotion row has both of its accepted continuations in `js`.
   */
  ghost predicate Continued(g: Grid, side: Color, js: seq<Jump>)
    requires IsGrid(g)
  {
    forall h :: h in js && !KingAt(g, h.oldRow, h.oldCol) && h.newRow != PromotionRow(side) ==>
      ContinuationIn(g, side, js, h.newRow, h.newCol, 1) && ContinuationIn(g, side, js, h.newRow, h.newCol, -1)
  }

  lemma ContinuedConcat(g: Grid, side: Color, a: seq<Jump>, b: seq<Jump>)
    requires IsGrid(g) && Continued(g, side, a) && Continued(g, side, b)
    ensures Continued(g, side, a + b)
  {
    forall h | h in a + b && !KingAt(g, h.oldRow, h.oldCol) && h.newRow != PromotionRow(side)
      ensures ContinuationIn(g, side, a + b, h.newRow, h.newCol, 1) && ContinuationIn(g, side, a + b, h.newRow, h.newCol, -1)
    {
      if h in a {
        assert ContinuationIn(g, side, a, h.newRow, h.newCol, 1) && ContinuationIn(g, side, a, h.newRow, h.newCol, -1);
      } else {
        assert ContinuationIn(g, side, b, h.newRow, h.newCol, 1) && ContinuationIn(g, side, b, h.newRow, h.newCol, -1);
      }
    }
  }

  lemma ContinuedCons(g: Grid, side: Color, hop: Jump, rest: seq<Jump>)
    requires IsGrid(g) && Continued(g, side, rest)
    requires ContinuationIn(g, side, rest, hop.newRow, hop.newCol, 1) && ContinuationIn(g, side, rest, hop.newRow, hop.newCol, -1)
    ensures Continued(g, side, [hop] + rest)
  {
    var js := [hop] + rest;
    forall h | h in js && !KingAt(g, h.oldRow, h.oldCol) && h.newRow != PromotionRow(side)
      ensures ContinuationIn(g, side, js, h.newRow, h.newCol, 1) && ContinuationIn(g, side, js, h.newRow, h.newCol, -1)
    {
      if h != hop {
        assert h in rest;
        assert ContinuationIn(g, side, rest, h.newRow, h.newCol, 1) && ContinuationIn(g, side, rest, h.newRow, h.newCol, -1);
      }
    }
  }

  /**
   * The man search is closed under continuation: after every hop it records
   * off the promotion row, it records each hop `_check_jump` accepts from
   * that hop's landing square.
   */
  lemma {:induction false} ManJumpsClosed(g: Grid, side: Color, row: int, col: int, link: bool)
    requires IsGrid(g) && InBoard(row, col)
    ensures Continued(g, side, ManJumps(g, side, row, col, link))
    decreases RowsToGo(side, row), 1
  {
    var first := if side == White then -1 else 1;
    ManHopClosed(g, side, row, col, first, link);
    ManHopClosed(g, side, row, col, -first, link);
    ContinuedConcat(g, side, ManHop(g, side, row, col, first, link), ManHop(g, side, row, col, -first, link));
  }

  lemma {:induction false} ManHopClosed(g: Grid, side: Color, row: int, col: int, dc: int, link: bool)
    requires IsGrid(g) && InBoard(row, col) && (dc == 1 || dc == -1)
    ensures Continued(g, side, ManHop(g, side, row, col, dc, link))
    decreases RowsToGo(side, row), 0
  {
    var dr := Forward(side);
    if CheckJump(g, row, col, row + dr, col + dc, row + 2 * dr, col + 2 * dc, side) {
      var hop := Jump(row, col, row + dr, col + dc, row + 2 * dr, col + 2 * dc, link);
      if row + 2 * dr != PromotionRow(side) {
        var rest := ManJumps(g, side, row + 2 * dr, col + 2 * dc, true);
        ManJumpsClosed(g, side, row + 2 * dr, col + 2 * dc, true);
        SearchStartsContinued(g, side, row + 2 * dr, col + 2 * dc);
        ContinuedCons(g, side, hop, rest);
        assert ManHop(g, side, row, col, dc, link) == [hop] + rest;
      } else {
        assert ManHop(g, side, row, col, dc, link) == [hop];
      }
    }
  }

  /** The search from a landing square records both accepted continuations from it. */
  lemma SearchStartsContinued(g: Grid, side: Color, row: int, col: int)
    requires IsGrid(g) && InBoard(row, col)
    ensures ContinuationIn(g, side, ManJumps(g, side, row, col, true), row, col, 1)
    ensures ContinuationIn(g, side, ManJumps(g, side, row, col, true), row, col, -1)
  {
    ManAdds(g, side, row, col, 1, true);
    ManAdds(g, side, row, col, -1, true);
  }

  /** The hops of a king only start on the king, so they owe no continuations. */
  lemma KingRootsContinued(g: Grid, side: Color, row: int, col: int)
    requires IsGrid(g) && InBoard(row, col) && side != Empty && g[row][col].color == side && g[row][col].king != KingFalse
    ensures Continued(g, side, KingRoots(g, side, row, col, false))
    ensures forall h :: h in KingRoots(g, side, row, col, false) ==> !h.link
  {
    KingRootsOk(g, side, row, col);
  }

  /** Visiting a square keeps the jump list closed under continuation. */
  lemma VisitContinued(g: Grid, turn: Color, row: int, col: int, a: Actions)
    requires IsGrid(g) && InBoard(row, col) && Continued(g, SideOf(turn), a.jumps)
    ensures Continued(g, SideOf(turn), Visit(g, turn, row, col, a).jumps)
  {
    var side := SideOf(turn);
    if g[row][col].color == side {
      if g[row][col].king == KingFalse {
        ManJumpsClosed(g, side, row, col, false);
        ContinuedConcat(g, side, a.jumps, ManJumps(g, side, row, col, false));
      } else {
        KingJumpsFlat(g, side, row, col, false, a.jumps);
        KingRootsContinued(g, side, row, col);
        ContinuedConcat(g, side, a.jumps, KingRoots(g, side, row, col, false));
      }
    }
  }

  lemma {:induction false} ScanContinued(g: Grid, turn: Color, n: nat)
    requires IsGrid(g) && n <= 64
    ensures Continued(g, SideOf(turn), Scan(g, turn, n).jumps)
  {
    if n > 0 {
      ScanContinued(g, turn, n - 1);
      VisitContinued(g, turn, (n - 1) / 8, (n - 1) % 8, Scan(g, turn, n - 1));
    }
  }

  /** Every continuation of `js` starts where a hop of `js` that does not start on a king lands. */
  ghost predicate Parented(g: Grid, js: seq<Jump>)
    requires IsGrid(g)
  {
    forall h :: h in js && h.link ==>
      exists p :: p in js && !KingAt(g, p.oldRow, p.oldCol) && p.newRow == h.oldRow && p.newCol == h.oldCol
  }

  lemma ParentedConcat(g: Grid, a: seq<Jump>, b: seq<Jump>)
    requires IsGrid(g) && Parented(g, a) && Parented(g, b)
    ensures Parented(g, a + b)
  {
    forall h | h in a + b && h.link
      ensures exists p :: p in a + b && !KingAt(g, p.oldRow, p.oldCol) && p.newRow == h.oldRow && p.newCol == h.oldCol
    {
      var p :| p in (if h in a then a else b) && !KingAt(g, p.oldRow, p.oldCol) && p.newRow == h.oldRow && p.newCol == h.oldCol;
      assert p in a + b;
    }
  }

  /** The continuations of a man's search start where an earlier hop of that search lands. */
  lemma ManParented(g: Grid, side: Color, row: int, col: int)
    requires IsGrid(g) && InBoard(row, col) && g[row][col].color == side && g[row][col].king == KingFalse
    ensures Parented(g, ManJumps(g, side, row, col, false))
  {
    var seg := ManJumps(g, side, row, col, false);
    ManJumpsOk(g, side, row, col, false);
    forall h | h in seg && h.link
      ensures exists p :: p in seg && !KingAt(g, p.oldRow, p.oldCol) && p.newRow == h.oldRow && p.newCol == h.oldCol
    {
      var i :| 0 <= i < |seg| && seg[i] == h;
      var j :| 0 <= j < i && seg[j].newRow == h.oldRow && seg[j].newCol == h.oldCol;
      assert seg[j] in seg;
    }
  }

  /** Visiting a square keeps every continuation of the jump list parented. */
  lemma VisitParented(g: Grid, turn: Color, row: int, col: int, a: Actions)
    requires IsGrid(g) && InBoard(row, col) && Parented(g, a.jumps)
    ensures Parented(g, Visit(g, turn, row, col, a).jumps)
  {
    var side := SideOf(turn);
    if g[row][col].color == side {
      if g[row][col].king == KingFalse {
        ManParented(g, side, row, col);
        ParentedConcat(g, a.jumps, ManJumps(g, side, row, col, false));
      } else {
        KingJumpsFlat(g, side, row, col, false, a.jumps);
        KingRootsContinued(g, side, row, col);
        ParentedConcat(g, a.jumps, KingRoots(g, side, row, col, false));
      }
    }
  }

  lemma {:induction false} ScanParented(g: Grid, turn: Color, n: nat)
    requires IsGrid(g) && n <= 64
    ensures Parented(g, Scan(g, turn, n).jumps)
  {
    if n > 0 {
      ScanParented(g, turn, n - 1);
      VisitParented(g, turn, (n - 1) / 8, (n - 1) % 8, Scan(g, turn, n - 1));
    }
  }

  /** An accepted continuation from the landing square of a listed hop that does not start on a king is listed. */
  lemma ContinuationListed(g: Grid, side: Color, js: seq<Jump>, h: Jump, p: Jump)
    requires IsGrid(g) && Continued(g, side, js) && h.link && HopOk(g, side, h)
    requires p in js && !KingAt(g, p.oldRow, p.oldCol) && p.newRow == h.oldRow && p.newCol == h.oldCol
    ensures h in js
  {
    var dr, dc := Forward(side), h.viaCol - h.oldCol;
    assert !KingAt(g, h.oldRow, h.oldCol);
    assert ContinuationIn(g, side, js, h.oldRow, h.oldCol, dc);
    assert h == Jump(h.oldRow, h.oldCol, h.oldRow + dr, h.oldCol + dc, h.oldRow + 2 * dr, h.oldCol + 2 * dc, true);
  }

  /**
   * The continuation hops of the jump list are exactly the accepted forward
   * hops from an empty square off the promotion row on which a listed hop
   * that does not start on a king lands.
   */
  lemma ContinuationsExact(g: Grid, turn: Color)
    requires IsGrid(g)
    ensures forall h: Jump :: h.link ==>
              (h in ValidActions(g, turn).jumps <==>
                 HopOk(g, SideOf(turn), h) &&
                 exists p :: p in ValidActions(g, turn).jumps && !KingAt(g, p.oldRow, p.oldCol) &&
                             p.newRow == h.oldRow && p.newCol == h.oldCol)
  {
    var side := SideOf(turn);
    var js := ValidActions(g, turn).jumps;
    ValidActionsOk(g, turn);
    ScanContinued(g, turn, 64);
    ScanParented(g, turn, 64);
    forall h: Jump | h.link && HopOk(g, side, h) &&
                     exists p :: p in js && !KingAt(g, p.oldRow, p.oldCol) && p.newRow == h.oldRow && p.newCol == h.oldCol
      ensures h in js
    {
      var p :| p in js && !KingAt(g, p.oldRow, p.oldCol) && p.newRow == h.oldRow && p.newCol == h.oldCol;
      ContinuationListed(g, side, js, h, p);
    }
  }
}
