/**
 * The pure parts of the turn controllers `step`, `update` and `reset` of
 * `Board` (env.py): the grid after a random half-move, the counts it takes,
 * the end-game verdicts and the observation board.
 * The call `random.randint(0, n - 1)` is the parameter `pick`, applied to the
 * length of the list it chooses from.
 */
module Turns {
  import opened Cells
  import opened Moves
  import opened Chains
  import MoveFacts

  datatype Option<T> = None | Some(value: T)

  /** Rewards of `step`, in tenths: -0.1, 1.0, 2.0, +100 and -100. */
  const RejectReward: int := -1
  const MoveReward: int := 10
  const JumpReward: int := 20
  const WinReward: int := 1000
  const LossReward: int := -1000

  /** `random.randint(0, n - 1)`: for every non-empty range, an index inside it. */
  ghost predicate IsPicker(pick: nat -> nat)
  {
    forall n: nat :: 0 < n ==> pick(n) < n
  }

  /** The lists `_find_valid_moves` builds name on-board squares only. */
  lemma ListsInBoard(g: Grid, turn: Color)
    requires IsGrid(g)
    ensures HopsInBoard(ValidActions(g, turn).jumps) && MovesInBoard(ValidActions(g, turn).moves)
  {
    MoveFacts.ValidActionsOk(g, turn);
    var a := ValidActions(g, turn);
    forall i | 0 <= i < |a.jumps| ensures HopInBoard(a.jumps[i]) {
      assert a.jumps[i] in a.jumps;
    }
    forall i | 0 <= i < |a.moves| ensures InBoard(a.moves[i].oldRow, a.moves[i].oldCol) && InBoard(a.moves[i].newRow, a.moves[i].newCol) {
      assert a.moves[i] in a.moves;
    }
  }

  /** The lists `_find_valid_moves` builds for `side` on `g`. */
  function Offered(g: Grid, side: Color): (a: Actions)
    requires IsGrid(g)
    ensures HopsInBoard(a.jumps) && MovesInBoard(a.moves)
  {
    ListsInBoard(g, side);
    ValidActions(g, side)
  }

  /** The observation index of a square. */
  function SquareIndex(row: int, col: int): int
  {
    row * BoardSize + col
  }

  /** The 64-entry observation board with 1 exactly on the squares some destination names. */
  function Marks(dests: seq<(int, int)>): (board: seq<int>)
    ensures |board| == 64
    ensures forall q :: 0 <= q < 64 ==>
              (board[q] == 1 <==> exists i :: 0 <= i < |dests| && SquareIndex(dests[i].0, dests[i].1) == q)
    ensures forall q :: 0 <= q < 64 ==> board[q] == 0 || board[q] == 1
  {
    seq(64, q => if exists i :: 0 <= i < |dests| && SquareIndex(dests[i].0, dests[i].1) == q then 1 else 0)
  }

  /**
   * The grid after the random half-move shared by the three controllers: the
   * chain from entry `pick(|jumps|)` with its promotion when there are jumps,
   * else move `pick(|moves|)` with its promotion, else nothing.
   */
  function ReplyGrid(g: Grid, a: Actions, pick: nat -> nat): (r: Grid)
    requires IsGrid(g) && HopsInBoard(a.jumps) && MovesInBoard(a.moves) && IsPicker(pick)
    ensures IsGrid(r)
    ensures Consistent(g) ==> Consistent(r)
  {
    if a.jumps != [] then ChainOutcome(g, a.jumps, pick(|a.jumps|))
    else if a.moves != [] then MoveOutcome(g, a.moves[pick(|a.moves|)])
    else g
  }

  /** The number of hops that half-move executes: the chain's length, or 0. */
  function ReplyHops(a: Actions, pick: nat -> nat): (n: nat)
    requires IsPicker(pick)
    ensures a.jumps != [] ==> 1 <= n <= |a.jumps|
    ensures a.jumps == [] ==> n == 0
  {
    if a.jumps != [] then ChainEnd(a.jumps, pick(|a.jumps|)) - pick(|a.jumps|) else 0
  }

  /** The grid after White's half-move in `step`: one hop and its promotion, a move and its promotion, or nothing. */
  function WhiteGrid(g: Grid, js: seq<Jump>, ms: seq<Move>, ch: Choice): (r: Grid)
    requires IsGrid(g) && HopsInBoard(js) && MovesInBoard(ms)
    requires ch.JumpAt? ==> ch.k < |js|
    requires ch.MoveAt? ==> ch.k < |ms|
    ensures IsGrid(r)
    ensures Consistent(g) ==> Consistent(r)
  {
    match ch
    case JumpAt(k) => AfterPromote(PlayHop(g, js[k]), js[k].newRow, js[k].newCol)
    case MoveAt(k) => MoveOutcome(g, ms[k])
    case NoChoice => g
  }

  /** The locals `end_game`, `winner` and `reward` of `step`. */
  datatype Verdict = Verdict(over: bool, winner: Option<Color>, reward: int)

  /**
   * The verdict after White's half-move: -0.1 when nothing was played;
   * otherwise 2.0 for a hop or 1.0 for a move, overridden by a White win when
   * Black has no pieces left, and that in turn by a Black win when
   * `invalid_moves == 2`.
   */
  function WhiteVerdict(ch: Choice, invalidMoves: int, blackLeft: int): (v: Verdict)
    ensures v.over <==> ch != NoChoice && (invalidMoves == 2 || blackLeft == 0)
    ensures ch == NoChoice ==> v == Verdict(false, None, RejectReward)
    ensures ch != NoChoice && invalidMoves == 2 ==> v == Verdict(true, Some(Black), LossReward)
    ensures ch != NoChoice && invalidMoves != 2 && blackLeft == 0 ==> v == Verdict(true, Some(White), WinReward)
    ensures !v.over ==> v.winner == None
  {
    if ch == NoChoice then Verdict(false, None, RejectReward)
    else if invalidMoves == 2 then Verdict(true, Some(Black), LossReward)
    else if blackLeft == 0 then Verdict(true, Some(White), WinReward)
    else Verdict(false, None, if ch.JumpAt? then JumpReward else MoveReward)
  }

  /**
   * The verdict after Black's reply: a Black win when White has no pieces
   * left, overridden by a White win when Black had nothing to play;
   * otherwise the verdict stands.
   */
  function BlackVerdict(a: Actions, whiteLeft: int, v: Verdict): (r: Verdict)
    ensures r.over <==> NoActions(a) || whiteLeft == 0 || v.over
    ensures NoActions(a) ==> r == Verdict(true, Some(White), WinReward)
    ensures !NoActions(a) && whiteLeft == 0 ==> r == Verdict(true, Some(Black), LossReward)
    ensures !NoActions(a) && whiteLeft != 0 ==> r == v
  {
    if NoActions(a) then Verdict(true, Some(White), WinReward)
    else if whiteLeft == 0 then Verdict(true, Some(Black), LossReward)
    else v
  }

  /** The verdict after White's recompute: White having nothing to play ends a running game for Black. */
  function FinalVerdict(a: Actions, v: Verdict): (r: Verdict)
    ensures r.over <==> v.over || NoActions(a)
    ensures !v.over && NoActions(a) ==> r == Verdict(true, Some(Black), LossReward)
    ensures !(!v.over && NoActions(a)) ==> r == v
  {
    if !v.over && NoActions(a) then Verdict(true, Some(Black), LossReward) else v
  }

  /**
   * The observation board `step` returns after computing White's lists: the
   * jump destinations when there are jumps, otherwise the move destinations.
   */
  function DestBoard(a: Actions): (board: seq<int>)
    ensures |board| == 64
    ensures a.jumps != [] ==> forall q :: 0 <= q < 64 ==>
              (board[q] == 1 <==> exists i :: 0 <= i < |a.jumps| && SquareIndex(a.jumps[i].newRow, a.jumps[i].newCol) == q)
    ensures a.jumps == [] ==> forall q :: 0 <= q < 64 ==>
              (board[q] == 1 <==> exists i :: 0 <= i < |a.moves| && SquareIndex(a.moves[i].newRow, a.moves[i].newCol) == q)
    ensures forall q :: 0 <= q < 64 ==> board[q] == 0 || board[q] == 1
  {
    if a.jumps != [] then Marks(JumpDests(a.jumps)) else Marks(MoveDests(a.moves))
  }

  /**
   * The winner `update` records for the side `turn` that has just played
   * from the lists `a`: its opponent when it had nothing to play, else
   * itself when the opponent has no pieces left, else nobody.
   */
  function UpdateWinner(turn: Color, a: Actions, whiteLeft: int, blackLeft: int): (w: Option<Color>)
    ensures NoActions(a) ==> w == Some(if turn == White then Black else White)
    ensures !NoActions(a) ==> (w == None <==> (if turn == White then blackLeft != 0 else whiteLeft != 0))
    ensures w != None ==> w == Some(if NoActions(a) then (if turn == White then Black else White) else (if turn == White then White else Black))
  {
    if turn == White then
      (if NoActions(a) then Some(Black) else if blackLeft == 0 then Some(White) else None)
    else
      (if NoActions(a) then Some(White) else if whiteLeft == 0 then Some(Black) else None)
  }

  /**
   * White's half-move of `step` keeps the board's piece counts in line with
   * its counter: a hop from White's lists removes exactly one black piece, a
   * move none, and no white piece is ever lost.
   */
  lemma WhiteGridCounts(g: Grid, ch: Choice, color: Color)
    requires IsGrid(g) && color != Empty
    requires ch.JumpAt? ==> ch.k < |Offered(g, White).jumps|
    requires ch.MoveAt? ==> ch.k < |Offered(g, White).moves|
    ensures CountColor(WhiteGrid(g, Offered(g, White).jumps, Offered(g, White).moves, ch), color) ==
              CountColor(g, color) - (if ch.JumpAt? && color == Black then 1 else 0)
  {
    var a := Offered(g, White);
    MoveFacts.ValidActionsOk(g, White);
    match ch
    case JumpAt(k) =>
      var h := a.jumps[k];
      assert h in a.jumps;
      JumpCounts(g, h.oldRow, h.oldCol, h.viaRow, h.viaCol, h.newRow, h.newCol, color);
      PromoteCounts(PlayHop(g, h), h.newRow, h.newCol, color);
    case MoveAt(k) =>
      var m := a.moves[k];
      assert m in a.moves;
      MoveCounts(g, m.oldRow, m.oldCol, m.newRow, m.newCol, color);
      PromoteCounts(AfterMove(g, m.oldRow, m.oldCol, m.newRow, m.newCol), m.newRow, m.newCol, color);
    case NoChoice =>
  }

  /** Without jumps on offer, the random half-move changes no piece count. */
  lemma ReplyMoveCounts(g: Grid, side: Color, pick: nat -> nat, color: Color)
    requires IsGrid(g) && IsPicker(pick) && color != Empty && Offered(g, side).jumps == []
    ensures CountColor(ReplyGrid(g, Offered(g, side), pick), color) == CountColor(g, color)
  {
    var a := Offered(g, side);
    if a.moves != [] {
      MoveFacts.ValidActionsOk(g, side);
      var m := a.moves[pick(|a.moves|)];
      assert m in a.moves;
      MoveCounts(g, m.oldRow, m.oldCol, m.newRow, m.newCol, color);
      PromoteCounts(AfterMove(g, m.oldRow, m.oldCol, m.newRow, m.newCol), m.newRow, m.newCol, color);
    }
  }

  /** Every square the random chain jumps ends empty: each captured piece is off the board. */
  lemma ReplyCaptures(g: Grid, side: Color, pick: nat -> nat)
    requires IsGrid(g) && IsPicker(pick) && Offered(g, side).jumps != []
    ensures var js := Offered(g, side).jumps;
            var sel := pick(|js|);
            forall i :: sel <= i < ChainEnd(js, sel) ==>
              ReplyGrid(g, Offered(g, side), pick)[js[i].viaRow][js[i].viaCol].color == Empty
  {
    var js := Offered(g, side).jumps;
    var sel := pick(|js|);
    var e := ChainEnd(js, sel);
    MoveFacts.ValidActionsOk(g, side);
    forall i | sel <= i < e
      ensures g[js[i].viaRow][js[i].viaCol].color != Empty && g[js[i].newRow][js[i].newCol].color == Empty
    {
      assert js[i] in js;
    }
    CapturedSquaresEmpty(g, js, sel, e);
  }

  /**
   * The random chain changes no square its executed hops do not name, except
   * that the promotion may crown the square it is applied to, and no square
   * changes colour through the promotion.
   */
  lemma ReplyFrame(g: Grid, a: Actions, pick: nat -> nat, r: int, c: int)
    requires IsGrid(g) && HopsInBoard(a.jumps) && MovesInBoard(a.moves) && IsPicker(pick) && InBoard(r, c)
    requires a.jumps != [] && !Touched(a.jumps, pick(|a.jumps|), ChainEnd(a.jumps, pick(|a.jumps|)), r, c)
    ensures ReplyGrid(g, a, pick)[r][c].color == g[r][c].color
    ensures var p := PromotionIndex(a.jumps, pick(|a.jumps|));
            r != a.jumps[p].newRow || c != a.jumps[p].newCol ==> ReplyGrid(g, a, pick)[r][c] == g[r][c]
  {
    var sel := pick(|a.jumps|);
    ApplyHopsFrame(g, a.jumps, sel, ChainEnd(a.jumps, sel), r, c);
  }

  /**
   * When the chosen chain stops before the end of the list, the promotion is
   * applied to the landing square of the next, unplayed entry; if no executed
   * hop named that square it is still empty, so nothing is crowned, even when
   * the chain itself ended on the far row.
   */
  lemma StrayPromotion(g: Grid, side: Color, pick: nat -> nat)
    requires IsGrid(g) && IsPicker(pick) && Offered(g, side).jumps != []
    requires var js := Offered(g, side).jumps;
             var e := ChainEnd(js, pick(|js|));
             e < |js| && !Touched(js, pick(|js|), e, js[e].newRow, js[e].newCol)
    ensures var js := Offered(g, side).jumps;
            ReplyGrid(g, Offered(g, side), pick) == ApplyHops(g, js, pick(|js|), ChainEnd(js, pick(|js|)))
  {
    var js := Offered(g, side).jumps;
    var sel := pick(|js|);
    var e := ChainEnd(js, sel);
    MoveFacts.ValidActionsOk(g, side);
    assert js[e] in js;
    var played := ApplyHops(g, js, sel, e);
    ApplyHopsFrame(g, js, sel, e, js[e].newRow, js[e].newCol);
    GridExt(AfterPromote(played, js[e].newRow, js[e].newCol), played);
  }
}
