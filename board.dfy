/**
 * The `Board` class of env.py: the grid, the piece counters, the side to
 * move, the two lists the finders fill, and the turn controllers `step`,
 * `update` and `reset`.  The random choices of `random.randint(0, n - 1)`
 * are the parameter `pick` with `pick(n) < n`; rewards are in tenths.
 */
module Env {
  import opened Cells
  import opened Moves
  import opened Chains
  import opened Turns
  import MoveFacts

  /** The observation board `step` fills, one destination at a time. */
  method MarkSquares(dests: seq<(int, int)>) returns (board: seq<int>)
    requires forall i :: 0 <= i < |dests| ==> InBoard(dests[i].0, dests[i].1)
    ensures board == Marks(dests)
  {
    board := seq(64, _ => 0);
    for i := 0 to |dests|
      invariant |board| == 64
      invariant forall q :: 0 <= q < 64 ==>
                  board[q] == if exists j :: 0 <= j < i && SquareIndex(dests[j].0, dests[j].1) == q then 1 else 0
    {
      board := board[SquareIndex(dests[i].0, dests[i].1) := 1];
    }
  }

  /** Regrouping an append, stated once so the finder methods need not prove it in their own context. */
  lemma AppendAssoc<T>(a: seq<T>, b: seq<T>, c: seq<T>)
    ensures (a + b) + c == a + (b + c)
  {
  }

  class Board {
    var turn: Color
    var whitePieces: int
    var blackPieces: int
    var pieces: Grid
    var moves: seq<Move>
    var stepMove: bool
    var jumps: seq<Jump>
    var stepJump: bool
    var invalidMoves: int
    var endGame: bool
    var winner: Option<Color>

    /** The grid is 8x8 with consistent cells, every listed entry names on-board squares, and a side is to move. */
    ghost predicate Valid()
      reads this
    {
      IsGrid(pieces) && Consistent(pieces) && HopsInBoard(jumps) && MovesInBoard(moves) && turn != Empty
    }

    /** `Board.__init__`: Black to move, twelve pieces each, the standard setup, empty lists. */
    constructor ()
      ensures Valid()
      ensures turn == Black && whitePieces == 12 && blackPieces == 12
      ensures pieces == InitialGrid()
      ensures moves == [] && jumps == [] && !stepMove && !stepJump && invalidMoves == 0
    {
      turn := Black;
      whitePieces := 12;
      blackPieces := 12;
      pieces := [[], [], [], [], [], [], [], []];
      moves := [];
      stepMove := false;
      jumps := [];
      stepJump := false;
      invalidMoves := 0;
      endGame := false;
      winner := None;
      new;
      Setup();
    }

    /** `_setup`: fill the eight empty rows, then colour the dark squares of rows 0-2 black and of rows 5-7 white. */
    method Setup()
      requires pieces == [[], [], [], [], [], [], [], []]
      modifies this`pieces
      ensures pieces == InitialGrid()
    {
      for row := 0 to BoardSize
        invariant |pieces| == BoardSize
        invariant forall r :: 0 <= r < row ==> pieces[r] == seq(BoardSize, _ => Vacated)
        invariant forall r :: row <= r < BoardSize ==> pieces[r] == []
      {
        for col := 0 to BoardSize
          invariant |pieces| == BoardSize
          invariant pieces[row] == seq(col, _ => Vacated)
          invariant forall r :: 0 <= r < BoardSize && r != row ==> pieces[r] == old(pieces[r]) || r < row
          invariant forall r :: 0 <= r < row ==> pieces[r] == seq(BoardSize, _ => Vacated)
          invariant forall r :: row < r < BoardSize ==> pieces[r] == []
        {
          pieces := pieces[row := pieces[row] + [Vacated]];
        }
      }
      assert IsGrid(pieces);
      for row := 0 to 3
        invariant IsGrid(pieces)
        invariant forall r, c {:trigger pieces[r][c]} :: InBoard(r, c) ==>
                    pieces[r][c] == if r < row then InitialCell(r, c) else Vacated
      {
        for col := 0 to BoardSize
          invariant IsGrid(pieces)
          invariant forall r, c {:trigger pieces[r][c]} :: InBoard(r, c) ==>
                      pieces[r][c] == if r < row || (r == row && c < col) then InitialCell(r, c) else Vacated
        {
          if (row + col) % 2 == 1 {
            pieces := Put(pieces, row, col, pieces[row][col].(color := Black));
          }
        }
      }
      for row := 5 to BoardSize
        invariant IsGrid(pieces)
        invariant forall r, c {:trigger pieces[r][c]} :: InBoard(r, c) ==>
                    pieces[r][c] == if r < 3 || 5 <= r < row then InitialCell(r, c) else Vacated
      {
        for col := 0 to BoardSize
          invariant IsGrid(pieces)
          invariant forall r, c {:trigger pieces[r][c]} :: InBoard(r, c) ==>
                      pieces[r][c] == if r < 3 || 5 <= r < row || (r == row && c < col) then InitialCell(r, c) else Vacated
        {
          if (row + col) % 2 == 1 {
            pieces := Put(pieces, row, col, pieces[row][col].(color := White));
          }
        }
      }
      GridExt(pieces, InitialGrid());
    }

    /** `_make_move`: four attribute writes, colour and king of the destination, then of the origin. */
    method MakeMove(oldRow: int, oldCol: int, newRow: int, newCol: int)
      requires IsGrid(pieces) && InBoard(oldRow, oldCol) && InBoard(newRow, newCol)
      modifies this`pieces
      ensures pieces == AfterMove(old(pieces), oldRow, oldCol, newRow, newCol)
    {
      pieces := Put(pieces, newRow, newCol, pieces[newRow][newCol].(color := pieces[oldRow][oldCol].color));
      pieces := Put(pieces, newRow, newCol, pieces[newRow][newCol].(king := pieces[oldRow][oldCol].king));
      pieces := Put(pieces, oldRow, oldCol, pieces[oldRow][oldCol].(color := Empty));
      pieces := Put(pieces, oldRow, oldCol, pieces[oldRow][oldCol].(king := KingFalse));
      GridExt(pieces, AfterMove(old(pieces), oldRow, oldCol, newRow, newCol));
    }

    /** `_make_jump`: the move writes, then origin and jumped square get colour and king 'empty'. */
    method MakeJump(oldRow: int, oldCol: int, viaRow: int, viaCol: int, newRow: int, newCol: int)
      requires IsGrid(pieces) && InBoard(oldRow, oldCol) && InBoard(viaRow, viaCol) && InBoard(newRow, newCol)
      modifies this`pieces
      ensures pieces == AfterJump(old(pieces), oldRow, oldCol, viaRow, viaCol, newRow, newCol)
    {
      pieces := Put(pieces, newRow, newCol, pieces[newRow][newCol].(color := pieces[oldRow][oldCol].color));
      pieces := Put(pieces, newRow, newCol, pieces[newRow][newCol].(king := pieces[oldRow][oldCol].king));
      pieces := Put(pieces, oldRow, oldCol, pieces[oldRow][oldCol].(color := Empty));
      pieces := Put(pieces, oldRow, oldCol, pieces[oldRow][oldCol].(king := KingEmpty));
      pieces := Put(pieces, viaRow, viaCol, pieces[viaRow][viaCol].(color := Empty));
      pieces := Put(pieces, viaRow, viaCol, pieces[viaRow][viaCol].(king := KingEmpty));
      GridExt(pieces, AfterJump(old(pieces), oldRow, oldCol, viaRow, viaCol, newRow, newCol));
    }

    /** `_promote`: crown a white piece on row 0 or a black piece on row 7. */
    method Promote(row: int, col: int)
      requires IsGrid(pieces) && InBoard(row, col)
      modifies this`pieces
      ensures pieces == AfterPromote(old(pieces), row, col)
    {
      if pieces[row][col].color == White && row == 0 {
        pieces := Put(pieces, row, col, pieces[row][col].(king := KingTrue));
      }
      if pieces[row][col].color == Black && row == 7 {
        pieces := Put(pieces, row, col, pieces[row][col].(king := KingTrue));
      }
      GridExt(pieces, AfterPromote(old(pieces), row, col));
    }

    /** One direction block of the move finders: the step is appended when `_check_move` accepts it. */
    method FindStep(row: int, col: int, dr: int, dc: int)
      requires IsGrid(pieces)
      modifies this`moves
      ensures moves == old(moves) + StepTo(pieces, row, col, dr, dc)
    {
      if CheckMove(pieces, row, col, row + dr, col + dc) {
        moves := moves + [Move(row, col, row + dr, col + dc)];
      }
    }

    method FindWhiteManMoves(row: int, col: int)
      requires IsGrid(pieces)
      modifies this`moves
      ensures moves == old(moves) + ManMoves(pieces, White, row, col)
    {
      FindStep(row, col, -1, -1);
      FindStep(row, col, -1, 1);
    }

    method FindBlackManMoves(row: int, col: int)
      requires IsGrid(pieces)
      modifies this`moves
      ensures moves == old(moves) + ManMoves(pieces, Black, row, col)
    {
      FindStep(row, col, 1, 1);
      FindStep(row, col, 1, -1);
    }

    /** `_find_white_king_moves` and `_find_black_king_moves` are the same code; both call this. */
    method FindKingMoves(row: int, col: int)
      requires IsGrid(pieces)
      modifies this`moves
      ensures moves == old(moves) + KingMoves(pieces, row, col)
    {
      ghost var s1, s2 := StepTo(pieces, row, col, -1, -1), StepTo(pieces, row, col, -1, 1);
      ghost var s3, s4 := StepTo(pieces, row, col, 1, -1), StepTo(pieces, row, col, 1, 1);
      FindStep(row, col, -1, -1);
      FindStep(row, col, -1, 1);
      FindStep(row, col, 1, -1);
      FindStep(row, col, 1, 1);
      assert moves == old(moves) + s1 + s2 + s3 + s4;
    }

    /** `_find_white_man_jumps`: the up-left hop and its continuation, then the up-right one. */
    method FindWhiteManJumps(row: int, col: int, link: bool)
      requires IsGrid(pieces) && InBoard(row, col)
      modifies this`jumps
      ensures jumps == old(jumps) + ManJumps(pieces, White, row, col, link)
      decreases row, 1
    {
      FindManHop(White, row, col, -1, link);
      FindManHop(White, row, col, 1, link);
      AppendAssoc(old(jumps), ManHop(pieces, White, row, col, -1, link), ManHop(pieces, White, row, col, 1, link));
    }

    /** `_find_black_man_jumps`: the down-right hop and its continuation, then the down-left one. */
    method FindBlackManJumps(row: int, col: int, link: bool)
      requires IsGrid(pieces) && InBoard(row, col)
      modifies this`jumps
      ensures jumps == old(jumps) + ManJumps(pieces, Black, row, col, link)
      decreases 7 - row, 1
    {
      FindManHop(Black, row, col, 1, link);
      FindManHop(Black, row, col, -1, link);
      AppendAssoc(old(jumps), ManHop(pieces, Black, row, col, 1, link), ManHop(pieces, Black, row, col, -1, link));
    }

    /**
     * One direction block of the man jump finders: append the hop when
     * `_check_jump` accepts it and, unless it lands on the promotion row,
     * search on from its landing square with `link` True.
     */
    method FindManHop(side: Color, row: int, col: int, dc: int, link: bool)
      requires IsGrid(pieces) && InBoard(row, col) && (side == White || side == Black) && (dc == 1 || dc == -1)
      modifies this`jumps
      ensures jumps == old(jumps) + ManHop(pieces, side, row, col, dc, link)
      decreases RowsToGo(side, row), 0
    {
      var dr := if side == White then -1 else 1;
      if CheckJump(pieces, row, col, row + dr, col + dc, row + 2 * dr, col + 2 * dc, side) {
        var hop := Jump(row, col, row + dr, col + dc, row + 2 * dr, col + 2 * dc, link);
        jumps := jumps + [hop];
        var lastRow := if side == White then 0 else 7;
        if row + 2 * dr != lastRow {
          if side == White {
            FindWhiteManJumps(row + 2 * dr, col + 2 * dc, true);
          } else {
            FindBlackManJumps(row + 2 * dr, col + 2 * dc, true);
          }
          AppendAssoc(old(jumps), [hop], ManJumps(pieces, side, row + 2 * dr, col + 2 * dc, true));
        }
      }
    }

    /**
     * `_find_white_king_jumps` and `_find_black_king_jumps` (the same code for
     * the colour `side`): return at once when a recorded hop already lands on
     * (row, col); otherwise append each hop and recurse from its landing square.
     */
    method FindKingJumps(side: Color, row: int, col: int, link: bool)
      requires IsGrid(pieces) && InBoard(row, col)
      modifies this`jumps
      ensures jumps == KingJumps(pieces, side, row, col, link, old(jumps))
      decreases if Reached(jumps, row, col) then 0 else 1, 1
    {
      var i := 0;
      while i < |jumps|
        invariant 0 <= i <= |jumps|
        invariant forall k :: 0 <= k < i ==> jumps[k].newRow != row || jumps[k].newCol != col
      {
        if row == jumps[i].newRow && col == jumps[i].newCol {
          return;
        }
        i := i + 1;
      }
      FindKingHop(side, row, col, -1, -1, link);
      FindKingHop(side, row, col, -1, 1, link);
      FindKingHop(side, row, col, 1, -1, link);
      FindKingHop(side, row, col, 1, 1, link);
    }

    /** One direction block of the king jump finders: append the hop `_check_jump` accepts and search on from its landing square. */
    method FindKingHop(side: Color, row: int, col: int, dr: int, dc: int, link: bool)
      requires IsGrid(pieces) && InBoard(row, col) && (dr == 1 || dr == -1) && (dc == 1 || dc == -1)
      modifies this`jumps
      ensures jumps == KingHop(pieces, side, row, col, dr, dc, link, old(jumps))
      decreases 1, 0
    {
      if CheckJump(pieces, row, col, row + dr, col + dc, row + 2 * dr, col + 2 * dc, side) {
        jumps := jumps + [Jump(row, col, row + dr, col + dc, row + 2 * dr, col + 2 * dc, link)];
        assert jumps[|jumps| - 1].newRow == row + 2 * dr && jumps[|jumps| - 1].newCol == col + 2 * dc;
        FindKingJumps(side, row + 2 * dr, col + 2 * dc, true);
      }
    }

    /**
     * `_find_valid_moves`: empty both lists, then visit every square in
     * row-major order and run the finders of the side to move on its pieces.
     */
    method FindValidMoves()
      requires IsGrid(pieces)
      modifies this`moves, this`jumps
      ensures Actions(moves, jumps) == ValidActions(pieces, turn)
      ensures HopsInBoard(jumps) && MovesInBoard(moves)
    {
      moves := [];
      jumps := [];
      for row := 0 to BoardSize
        invariant Actions(moves, jumps) == Scan(pieces, turn, row * 8)
      {
        ScanRow(row);
      }
      ListsInBoard(pieces, turn);
    }

    /** The inner loop of `_find_valid_moves`: the eight squares of one row, left to right. */
    method ScanRow(row: int)
      requires IsGrid(pieces) && 0 <= row < BoardSize && Actions(moves, jumps) == Scan(pieces, turn, row * 8)
      modifies this`moves, this`jumps
      ensures Actions(moves, jumps) == Scan(pieces, turn, row * 8 + 8)
    {
      for col := 0 to BoardSize
        invariant Actions(moves, jumps) == Scan(pieces, turn, row * 8 + col)
      {
        MoveFacts.ScanStep(pieces, turn, row, col);
        VisitSquare(row, col);
      }
    }

    /** One square of the scan: the finders of the side to move run on its pieces, men and kings apart. */
    method VisitSquare(row: int, col: int)
      requires IsGrid(pieces) && InBoard(row, col)
      modifies this`moves, this`jumps
      ensures Actions(moves, jumps) == Visit(pieces, turn, row, col, Actions(old(moves), old(jumps)))
    {
      var side := if turn == White then White else Black;
      if pieces[row][col].color == side {
        if pieces[row][col].king == KingFalse {
          if side == White {
            FindWhiteManMoves(row, col);
            FindWhiteManJumps(row, col, false);
          } else {
            FindBlackManMoves(row, col);
            FindBlackManJumps(row, col, false);
          }
        } else {
          FindKingMoves(row, col);
          FindKingJumps(side, row, col, false);
        }
      }
    }

    /**
     * The chain loop of `step`, `reset` and `update`: play entry `first`, then
     * each following entry while it is a continuation (`link` True).  In
     * `step` and `reset` every executed hop takes one white piece
     * (`perHop`); `update` counts separately.  Returns the index the loop
     * stopped at, whose destination the caller promotes.
     */
    method PlayChain(first: nat, perHop: bool) returns (sel: nat)
      requires IsGrid(pieces) && HopsInBoard(jumps) && first < |jumps|
      modifies this`pieces, this`whitePieces
      ensures sel == PromotionIndex(jumps, first)
      ensures pieces == ApplyHops(old(pieces), jumps, first, ChainEnd(jumps, first))
      ensures whitePieces == old(whitePieces) - (if perHop then ChainEnd(jumps, first) - first else 0)
    {
      ghost var e := ChainEnd(jumps, first);
      sel := first;
      var h := jumps[sel];
      MakeJump(h.oldRow, h.oldCol, h.viaRow, h.viaCol, h.newRow, h.newCol);
      if perHop {
        whitePieces := whitePieces - 1;
      }
      ghost var done := sel + 1;
      while true
        invariant first <= sel < e && done == sel + 1
        invariant IsGrid(pieces) && pieces == ApplyHops(old(pieces), jumps, first, done)
        invariant whitePieces == old(whitePieces) - (if perHop then done - first else 0)
        decreases |jumps| - sel
      {
        if sel < |jumps| - 1 {
          sel := sel + 1;
          if jumps[sel].link {
            h := jumps[sel];
            MakeJump(h.oldRow, h.oldCol, h.viaRow, h.viaCol, h.newRow, h.newCol);
            if perHop {
              whitePieces := whitePieces - 1;
            }
            done := done + 1;
          } else {
            assert sel == e;
            break;
          }
        } else {
          assert done == e;
          break;
        }
      }
      assert done == e;
    }

    /**
     * The random half-move of the three controllers: when there are jumps,
     * the chain from entry `pick(|jumps|)` and the promotion where its loop
     * stopped; otherwise, when there are moves, move `pick(|moves|)` and its
     * promotion.
     */
    method PlayReply(pick: nat -> nat, perHop: bool)
      requires Valid() && IsPicker(pick)
      modifies this`pieces, this`whitePieces
      ensures Valid()
      ensures pieces == ReplyGrid(old(pieces), Actions(moves, jumps), pick)
      ensures whitePieces == old(whitePieces) - (if perHop then ReplyHops(Actions(moves, jumps), pick) else 0)
    {
      if jumps != [] {
        var sel := PlayChain(pick(|jumps|), perHop);
        Promote(jumps[sel].newRow, jumps[sel].newCol);
      } else if moves != [] {
        var m := moves[pick(|moves|)];
        MakeMove(m.oldRow, m.oldCol, m.newRow, m.newCol);
        Promote(m.newRow, m.newCol);
      }
    }

    /**
     * The search of White's half-move in `step` (env.py:66-82): with jumps on
     * offer the first jump landing on (row, col), otherwise with moves on
     * offer the first such move, and nothing when no entry lands there.
     */
    method FindSelection(row: int, col: int) returns (ch: Choice)
      ensures ch == WhiteChoice(stepJump, stepMove, jumps, moves, row, col)
    {
      ch := NoChoice;
      if stepJump {
        var i := 0;
        while i < |jumps|
          invariant 0 <= i <= |jumps|
          invariant forall k :: 0 <= k < i ==> jumps[k].newRow != row || jumps[k].newCol != col
        {
          if row == jumps[i].newRow && col == jumps[i].newCol {
            return JumpAt(i);
          }
          i := i + 1;
        }
      } else if stepMove {
        var i := 0;
        while i < |moves|
          invariant 0 <= i <= |moves|
          invariant forall k :: 0 <= k < i ==> moves[k].newRow != row || moves[k].newCol != col
        {
          if row == moves[i].newRow && col == moves[i].newCol {
            return MoveAt(i);
          }
          i := i + 1;
        }
      }
    }

    /**
     * The selected entry played (env.py:70-81): a jump as a single hop that
     * takes one black piece, or a move; either way the landing square is
     * promoted.
     */
    method PlayWhite(ch: Choice)
      requires Valid() && (ch.JumpAt? ==> ch.k < |jumps|) && (ch.MoveAt? ==> ch.k < |moves|)
      modifies this`pieces, this`blackPieces
      ensures Valid()
      ensures pieces == WhiteGrid(old(pieces), jumps, moves, ch)
      ensures blackPieces == old(blackPieces) - (if ch.JumpAt? then 1 else 0)
    {
      match ch {
        case JumpAt(k) =>
          var h := jumps[k];
          MakeJump(h.oldRow, h.oldCol, h.viaRow, h.viaCol, h.newRow, h.newCol);
          blackPieces := blackPieces - 1;
          Promote(h.newRow, h.newCol);
        case MoveAt(k) =>
          var m := moves[k];
          MakeMove(m.oldRow, m.oldCol, m.newRow, m.newCol);
          Promote(m.newRow, m.newCol);
        case NoChoice =>
      }
    }

    /**
     * White's half-move of `step` (env.py:63-99): the selection is played,
     * both flags are cleared and the end-game checks run.
     */
    method WhiteHalfMove(row: int, col: int) returns (valid: bool, v: Verdict)
      requires Valid()
      modifies this`pieces, this`blackPieces, this`stepJump, this`stepMove
      ensures Valid()
      ensures var ch := WhiteChoice(old(stepJump), old(stepMove), jumps, moves, row, col);
              pieces == WhiteGrid(old(pieces), jumps, moves, ch) &&
              blackPieces == old(blackPieces) - (if ch.JumpAt? then 1 else 0) &&
              !stepJump && !stepMove &&
              valid == (ch != NoChoice) && v == WhiteVerdict(ch, invalidMoves, blackPieces)
    {
      var ch := FindSelection(row, col);
      PlayWhite(ch);
      stepJump := false;
      stepMove := false;
      valid := ch != NoChoice;
      v := WhiteCheck(ch);
    }

    /** The end-game checks after White's half-move (env.py:88-99), with the reward of the selection. */
    method WhiteCheck(ch: Choice) returns (v: Verdict)
      ensures v == WhiteVerdict(ch, invalidMoves, blackPieces)
    {
      var reward := 0;
      var over := false;
      var who := None;
      if ch == NoChoice {
        reward := RejectReward;
      } else {
        reward := if ch.JumpAt? then JumpReward else MoveReward;
        if blackPieces == 0 {
          over := true;
          who := Some(White);
          reward := WinReward;
        }
        if invalidMoves == 2 {
          over := true;
          who := Some(Black);
          reward := LossReward;
        }
      }
      v := Verdict(over, who, reward);
    }

    /**
     * Black's reply in `step` (env.py:101-134): Black's lists, the random
     * half-move with one white piece per executed hop, and the end-game
     * checks on White's count and on Black having had nothing to play.
     */
    method BlackReply(pick: nat -> nat, v0: Verdict) returns (v: Verdict)
      requires Valid() && IsPicker(pick)
      modifies this`turn, this`moves, this`jumps, this`pieces, this`whitePieces
      ensures Valid()
      ensures turn == Black && Actions(moves, jumps) == Offered(old(pieces), Black)
      ensures pieces == ReplyGrid(old(pieces), Offered(old(pieces), Black), pick)
      ensures whitePieces == old(whitePieces) - ReplyHops(Offered(old(pieces), Black), pick)
      ensures v == BlackVerdict(Offered(old(pieces), Black), whitePieces, v0)
    {
      BlackTurn(pick);
      v := v0;
      if whitePieces == 0 {
        v := Verdict(true, Some(Black), LossReward);
      }
      if moves == [] && jumps == [] {
        v := Verdict(true, Some(White), WinReward);
      }
    }

    /**
     * The end of `step` (env.py:136-156): unless the game is over, White's
     * lists, the flag of the kind on offer, the observation board of jump
     * destinations (or else move destinations), and the loss when White has
     * nothing to play.
     */
    method WhiteRecompute(v0: Verdict) returns (board: seq<int>, v: Verdict)
      requires Valid() && !stepJump && !stepMove
      modifies this`turn, this`moves, this`jumps, this`stepJump, this`stepMove
      ensures Valid()
      ensures v0.over ==> turn == old(turn) && moves == old(moves) && jumps == old(jumps) &&
                          !stepJump && !stepMove && board == Marks([]) && v == v0
      ensures !v0.over ==> turn == White && Actions(moves, jumps) == Offered(pieces, White) &&
                           stepJump == (jumps != []) && stepMove == (jumps == [] && moves != []) &&
                           board == DestBoard(Actions(moves, jumps)) && v == FinalVerdict(Actions(moves, jumps), v0)
    {
      board := seq(64, _ => 0);
      assert board == Marks([]);
      v := v0;
      if !v.over {
        turn := White;
        FindValidMoves();
        if jumps != [] {
          stepJump := true;
          board := MarkSquares(JumpDests(jumps));
        } else if moves != [] {
          stepMove := true;
          board := MarkSquares(MoveDests(moves));
        } else {
          assert board == Marks(MoveDests(moves));
        }
        if moves == [] && jumps == [] {
          v := Verdict(true, Some(Black), LossReward);
        }
      }
    }

    /**
     * `step(row, col)`: White's half-move, then `Answer`.  Returns the
     * observation board and the verdict (`end_game`, `winner`, `reward`).
     */
    method Step(row: int, col: int, pick: nat -> nat) returns (board: seq<int>, v: Verdict)
      requires Valid() && IsPicker(pick)
      modifies this`turn, this`moves, this`jumps, this`pieces, this`whitePieces, this`blackPieces, this`stepJump, this`stepMove
      ensures Valid()
      ensures var ch := WhiteChoice(old(stepJump), old(stepMove), old(jumps), old(moves), row, col);
              var g1 := WhiteGrid(old(pieces), old(jumps), old(moves), ch);
              var b1 := old(blackPieces) - (if ch.JumpAt? then 1 else 0);
              var v1 := WhiteVerdict(ch, old(invalidMoves), b1);
              var replied := ch != NoChoice && !v1.over;
              var a := Offered(g1, Black);
              var w2 := if replied then old(whitePieces) - ReplyHops(a, pick) else old(whitePieces);
              var v2 := if replied then BlackVerdict(a, w2, v1) else v1;
              pieces == (if replied then ReplyGrid(g1, a, pick) else g1) &&
              whitePieces == w2 && blackPieces == b1 &&
              (v2.over ==> turn == (if replied then Black else old(turn)) &&
                           moves == (if replied then a.moves else old(moves)) &&
                           jumps == (if replied then a.jumps else old(jumps)) &&
                           !stepJump && !stepMove && board == Marks([]) && v == v2) &&
              (!v2.over ==> turn == White && Actions(moves, jumps) == Offered(pieces, White) &&
                            stepJump == (jumps != []) && stepMove == (jumps == [] && moves != []) &&
                            board == DestBoard(Actions(moves, jumps)) && v == FinalVerdict(Actions(moves, jumps), v2))
    {
      ghost var ch := WhiteChoice(stepJump, stepMove, jumps, moves, row, col);
      var valid, v1 := WhiteHalfMove(row, col);
      ghost var g1 := pieces;
      assert g1 == WhiteGrid(old(pieces), old(jumps), old(moves), ch);
      board, v := Answer(pick, valid, v1);
    }

    /**
     * The rest of `step` after White's half-move: Black's reply when White's
     * was valid and did not end the game, then White's recompute.
     */
    method Answer(pick: nat -> nat, valid: bool, v1: Verdict) returns (board: seq<int>, v: Verdict)
      requires Valid() && IsPicker(pick) && !stepJump && !stepMove
      modifies this`turn, this`moves, this`jumps, this`pieces, this`whitePieces, this`stepJump, this`stepMove
      ensures Valid()
      ensures var replied := valid && !v1.over;
              var a := Offered(old(pieces), Black);
              var w2 := if replied then old(whitePieces) - ReplyHops(a, pick) else old(whitePieces);
              var v2 := if replied then BlackVerdict(a, w2, v1) else v1;
              pieces == (if replied then ReplyGrid(old(pieces), a, pick) else old(pieces)) &&
              whitePieces == w2 &&
              (v2.over ==> turn == (if replied then Black else old(turn)) &&
                           moves == (if replied then a.moves else old(moves)) &&
                           jumps == (if replied then a.jumps else old(jumps)) &&
                           !stepJump && !stepMove && board == Marks([]) && v == v2) &&
              (!v2.over ==> turn == White && Actions(moves, jumps) == Offered(pieces, White) &&
                            stepJump == (jumps != []) && stepMove == (jumps == [] && moves != []) &&
                            board == DestBoard(Actions(moves, jumps)) && v == FinalVerdict(Actions(moves, jumps), v2))
    {
      v := v1;
      if valid && !v.over {
        v := BlackReply(pick, v);
      }
      board, v := WhiteRecompute(v);
    }

    /**
     * `reset`: the board rebuilt, Black's random first half-move with one
     * white piece per executed hop, then the move handed to White with both
     * lists emptied.  The step flags and `winner` are left as they were.
     */
    method Reset(pick: nat -> nat)
      requires IsPicker(pick)
      modifies this`turn, this`moves, this`jumps, this`pieces, this`whitePieces, this`blackPieces, this`invalidMoves, this`endGame
      ensures Valid()
      ensures pieces == ReplyGrid(InitialGrid(), Offered(InitialGrid(), Black), pick)
      ensures whitePieces == 12 - ReplyHops(Offered(InitialGrid(), Black), pick) && blackPieces == 12
      ensures turn == White && moves == [] && jumps == [] && invalidMoves == 0 && !endGame
    {
      Rebuild();
      BlackTurn(pick);
      HandOver();
    }

    /**
     * Black to move, Black's lists, and the random half-move with one white
     * piece taken per executed hop (env.py:101-112 and env.py:167-185).
     */
    method BlackTurn(pick: nat -> nat)
      requires IsGrid(pieces) && Consistent(pieces) && IsPicker(pick)
      modifies this`turn, this`moves, this`jumps, this`pieces, this`whitePieces
      ensures Valid()
      ensures turn == Black && Actions(moves, jumps) == Offered(old(pieces), Black)
      ensures pieces == ReplyGrid(old(pieces), Offered(old(pieces), Black), pick)
      ensures whitePieces == old(whitePieces) - ReplyHops(Offered(old(pieces), Black), pick)
    {
      turn := Black;
      FindValidMoves();
      PlayReply(pick, true);
    }

    /** The first part of `reset`: `end_game` cleared, twelve pieces each, the grid rebuilt by `_setup`, `invalid_moves` cleared. */
    method Rebuild()
      modifies this`pieces, this`whitePieces, this`blackPieces, this`invalidMoves, this`endGame
      ensures pieces == InitialGrid() && Consistent(pieces)
      ensures whitePieces == 12 && blackPieces == 12 && invalidMoves == 0 && !endGame
    {
      endGame := false;
      whitePieces := 12;
      blackPieces := 12;
      pieces := [[], [], [], [], [], [], [], []];
      Setup();
      invalidMoves := 0;
    }

    /** The last part of `reset`: White to move, both lists emptied. */
    method HandOver()
      requires IsGrid(pieces) && Consistent(pieces)
      modifies this`turn, this`moves, this`jumps
      ensures Valid() && turn == White && moves == [] && jumps == []
    {
      turn := White;
      moves := [];
      jumps := [];
    }

    /**
     * `update`: the side to move plays the random half-move on its fresh
     * lists, then the bookkeeping of `Conclude` runs.  Returns `end_game`
     * and `winner`.
     */
    method Update(pick: nat -> nat) returns (over: bool, who: Option<Color>)
      requires Valid() && IsPicker(pick)
      modifies this`turn, this`moves, this`jumps, this`pieces, this`whitePieces, this`blackPieces, this`endGame, this`winner
      ensures Valid()
      ensures Actions(moves, jumps) == Offered(old(pieces), old(turn))
      ensures pieces == ReplyGrid(old(pieces), Offered(old(pieces), old(turn)), pick)
      ensures whitePieces == old(whitePieces) - (if jumps != [] && old(turn) != White then 1 else 0)
      ensures blackPieces == old(blackPieces) - (if jumps != [] && old(turn) == White then 1 else 0)
      ensures winner == UpdateWinner(old(turn), Actions(moves, jumps), whitePieces, blackPieces)
      ensures endGame == (winner != None) && over == endGame && who == winner
      ensures turn == (if endGame then old(turn) else if old(turn) == White then Black else White)
    {
      FindValidMoves();
      PlayReply(pick, false);
      over, who := Conclude();
    }

    /**
     * The bookkeeping of `update` after the half-move: a chain takes one
     * opponent piece however many hops it had, the side to move loses when
     * it had nothing to play and otherwise wins when the opponent has no
     * pieces left, and the turn passes unless the game is over.
     */
    method Conclude() returns (over: bool, who: Option<Color>)
      requires Valid()
      modifies this`whitePieces, this`blackPieces, this`endGame, this`winner, this`turn
      ensures Valid()
      ensures whitePieces == old(whitePieces) - (if jumps != [] && old(turn) != White then 1 else 0)
      ensures blackPieces == old(blackPieces) - (if jumps != [] && old(turn) == White then 1 else 0)
      ensures winner == UpdateWinner(old(turn), Actions(moves, jumps), whitePieces, blackPieces)
      ensures endGame == (winner != None) && over == endGame && who == winner
      ensures turn == (if endGame then old(turn) else if old(turn) == White then Black else White)
    {
      if jumps != [] {
        if turn == White {
          blackPieces := blackPieces - 1;
        } else {
          whitePieces := whitePieces - 1;
        }
      }
      endGame := false;
      winner := None;
      if turn == White {
        if blackPieces == 0 {
          endGame := true;
          winner := Some(White);
        }
        if moves == [] && jumps == [] {
          endGame := true;
          winner := Some(Black);
        }
      } else {
        if whitePieces == 0 {
          endGame := true;
          winner := Some(Black);
        }
        if moves == [] && jumps == [] {
          endGame := true;
          winner := Some(White);
        }
      }
      if !endGame {
        turn := if turn == White then Black else White;
      }
      over := endGame;
      who := winner;
    }
  }
}
