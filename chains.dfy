/**
 * How `Board.step`, `Board.update` and `Board.reset` (env.py) pick and play
 * an entry of the generated lists: White's first entry landing on the
 * selected square, and the chain the `while True` loops walk from a chosen
 * jump through the following `link` entries.
 */
module Chains {
  import opened Cells
  import opened Moves

  /** Position of the first occurrence of `x` in `s`, or `|s|` when there is none. */
  function IndexOf<T(==)>(s: seq<T>, x: T): (k: nat)
    ensures k <= |s|
    ensures k < |s| ==> s[k] == x
    ensures forall i :: 0 <= i < k ==> s[i] != x
  {
    if s == [] then 0 else if s[0] == x then 0 else 1 + IndexOf(s[1..], x)
  }

  function JumpDests(js: seq<Jump>): (d: seq<(int, int)>)
    ensures |d| == |js| && forall i :: 0 <= i < |js| ==> d[i] == (js[i].newRow, js[i].newCol)
  {
    seq(|js|, i requires 0 <= i < |js| => (js[i].newRow, js[i].newCol))
  }

  function MoveDests(ms: seq<Move>): (d: seq<(int, int)>)
    ensures |d| == |ms| && forall i :: 0 <= i < |ms| ==> d[i] == (ms[i].newRow, ms[i].newCol)
  {
    seq(|ms|, i requires 0 <= i < |ms| => (ms[i].newRow, ms[i].newCol))
  }

  /** What White's half-move in `step` plays: a jump entry, a move entry, or nothing. */
  datatype Choice = JumpAt(k: nat) | MoveAt(k: nat) | NoChoice

  /**
   * White's selection in `step`: when the last recompute offered jumps, the
   * first jump landing on (row, col); otherwise, when it offered moves, the
   * first such move; an unmatched square selects nothing.
   */
  function WhiteChoice(stepJump: bool, stepMove: bool, js: seq<Jump>, ms: seq<Move>, row: int, col: int): (ch: Choice)
    ensures ch.JumpAt? <==> stepJump && exists i :: 0 <= i < |js| && js[i].newRow == row && js[i].newCol == col
    ensures ch.MoveAt? <==> !stepJump && stepMove && exists i :: 0 <= i < |ms| && ms[i].newRow == row && ms[i].newCol == col
    ensures ch.JumpAt? ==> ch.k < |js| && js[ch.k].newRow == row && js[ch.k].newCol == col &&
                           forall i :: 0 <= i < ch.k ==> js[i].newRow != row || js[i].newCol != col
    ensures ch.MoveAt? ==> ch.k < |ms| && ms[ch.k].newRow == row && ms[ch.k].newCol == col &&
                           forall i :: 0 <= i < ch.k ==> ms[i].newRow != row || ms[i].newCol != col
  {
    if stepJump then
      var k := IndexOf(JumpDests(js), (row, col));
      if k < |js| then JumpAt(k) else NoChoice
    else if stepMove then
      var k := IndexOf(MoveDests(ms), (row, col));
      if k < |ms| then MoveAt(k) else NoChoice
    else NoChoice
  }

  /** Every list of the session is empty right after `reset`, so nothing White selects is played. */
  lemma {:induction false} NothingAfterReset(stepJump: bool, stepMove: bool, row: int, col: int)
    ensures WhiteChoice(stepJump, stepMove, [], [], row, col) == NoChoice
  {
  }

  /**
   * One past the last hop the chain loop executes from `sel`: the first
   * later entry whose `link` is False, or the end of the list.
   */
  function ChainEnd(js: seq<Jump>, sel: nat): (e: nat)
    requires sel < |js|
    ensures sel < e <= |js|
    ensures forall i :: sel < i < e ==> js[i].link
    ensures e < |js| ==> !js[e].link
    decreases |js| - sel
  {
    if sel + 1 < |js| && js[sel + 1].link then ChainEnd(js, sel + 1) else sel + 1
  }

  /**
   * The entry whose destination the loop promotes: where `sel` stopped, which
   * is the next root entry (a hop that was not played) unless the chain ran
   * to the end of the list.
   */
  function PromotionIndex(js: seq<Jump>, sel: nat): (p: nat)
    requires sel < |js|
    ensures sel <= p < |js|
    ensures p == ChainEnd(js, sel) - 1 <==> ChainEnd(js, sel) == |js|
    ensures ChainEnd(js, sel) < |js| ==> p == ChainEnd(js, sel)
  {
    var e := ChainEnd(js, sel);
    if e < |js| then e else |js| - 1
  }

  predicate HopInBoard(h: Jump)
  {
    InBoard(h.oldRow, h.oldCol) && InBoard(h.viaRow, h.viaCol) && InBoard(h.newRow, h.newCol)
  }

  predicate HopsInBoard(hs: seq<Jump>)
  {
    forall i :: 0 <= i < |hs| ==> HopInBoard(hs[i])
  }

  predicate MovesInBoard(ms: seq<Move>)
  {
    forall i :: 0 <= i < |ms| ==> InBoard(ms[i].oldRow, ms[i].oldCol) && InBoard(ms[i].newRow, ms[i].newCol)
  }

  /** One pass of the chain loop: `_make_jump` on the hop's three squares. */
  function PlayHop(g: Grid, h: Jump): (r: Grid)
    requires IsGrid(g) && HopInBoard(h)
    ensures IsGrid(r)
    ensures r[h.oldRow][h.oldCol] == Captured && r[h.viaRow][h.viaCol] == Captured
    ensures Consistent(g) ==> Consistent(r)
  {
    AfterJump(g, h.oldRow, h.oldCol, h.viaRow, h.viaCol, h.newRow, h.newCol)
  }

  /** The grid after `_make_jump` on the hops `lo..hi-1` of `js`, in order. */
  function ApplyHops(g: Grid, js: seq<Jump>, lo: nat, hi: nat): (r: Grid)
    requires IsGrid(g) && HopsInBoard(js) && lo <= hi <= |js|
    ensures IsGrid(r)
    ensures Consistent(g) ==> Consistent(r)
    decreases hi
  {
    if hi == lo then g else PlayHop(ApplyHops(g, js, lo, hi - 1), js[hi - 1])
  }

  /** The grid after the chain loop from `sel` and the promotion that follows it. */
  function ChainOutcome(g: Grid, js: seq<Jump>, sel: nat): (r: Grid)
    requires IsGrid(g) && HopsInBoard(js) && sel < |js|
    ensures IsGrid(r)
    ensures Consistent(g) ==> Consistent(r)
  {
    var played := ApplyHops(g, js, sel, ChainEnd(js, sel));
    var p := PromotionIndex(js, sel);
    AfterPromote(played, js[p].newRow, js[p].newCol)
  }

  /** The grid after a simple move and its promotion. */
  function MoveOutcome(g: Grid, m: Move): (r: Grid)
    requires IsGrid(g) && InBoard(m.oldRow, m.oldCol) && InBoard(m.newRow, m.newCol)
    ensures IsGrid(r)
    ensures Consistent(g) ==> Consistent(r)
  {
    AfterPromote(AfterMove(g, m.oldRow, m.oldCol, m.newRow, m.newCol), m.newRow, m.newCol)
  }

  /** The square is one of the three squares of some hop `lo..hi-1` of `js`. */
  ghost predicate Touched(js: seq<Jump>, lo: nat, hi: nat, r: int, c: int)
  {
    exists i :: lo <= i < hi && i < |js| &&
      ((js[i].oldRow == r && js[i].oldCol == c) || (js[i].viaRow == r && js[i].viaCol == c) ||
       (js[i].newRow == r && js[i].newCol == c))
  }

  /** Playing hops changes no square that none of them names. */
  lemma {:induction false} ApplyHopsFrame(g: Grid, js: seq<Jump>, lo: nat, hi: nat, r: int, c: int)
    requires IsGrid(g) && HopsInBoard(js) && lo <= hi <= |js| && InBoard(r, c) && !Touched(js, lo, hi, r, c)
    ensures ApplyHops(g, js, lo, hi)[r][c] == g[r][c]
    decreases hi
  {
    if hi > lo {
      ApplyHopsFrame(g, js, lo, hi - 1, r, c);
    }
  }

  /**
   * When every hop jumps a square that was occupied and lands on a square
   * that was empty before any of them was played, every jumped square ends
   * empty: a later hop can clear it again but never land on it.
   */
  lemma {:induction false} CapturedSquaresEmpty(g: Grid, js: seq<Jump>, lo: nat, hi: nat)
    requires IsGrid(g) && HopsInBoard(js) && lo <= hi <= |js|
    requires forall i :: lo <= i < hi ==> g[js[i].viaRow][js[i].viaCol].color != Empty
    requires forall i :: lo <= i < hi ==> g[js[i].newRow][js[i].newCol].color == Empty
    ensures forall i :: lo <= i < hi ==> ApplyHops(g, js, lo, hi)[js[i].viaRow][js[i].viaCol].color == Empty
    decreases hi
  {
    if hi > lo {
      CapturedSquaresEmpty(g, js, lo, hi - 1);
      var last := js[hi - 1];
      forall i | lo <= i < hi
        ensures PlayHop(ApplyHops(g, js, lo, hi - 1), last)[js[i].viaRow][js[i].viaCol].color == Empty
      {
        if i < hi - 1 {
          assert js[i].viaRow != last.newRow || js[i].viaCol != last.newCol;
        }
      }
    }
  }

  /** Each hop `lo+1..hi-1` starts where the previous one landed. */
  predicate Linear(js: seq<Jump>, lo: nat, hi: nat)
    requires hi <= |js|
  {
    forall i :: lo < i < hi ==> js[i].oldRow == js[i - 1].newRow && js[i].oldCol == js[i - 1].newCol
  }

  /** Each hop's landing square differs from its origin and its jumped square. */
  predicate Lands(js: seq<Jump>, lo: nat, hi: nat)
    requires hi <= |js|
  {
    forall i :: lo <= i < hi ==>
      (js[i].newRow != js[i].oldRow || js[i].newCol != js[i].oldCol) &&
      (js[i].newRow != js[i].viaRow || js[i].newCol != js[i].viaCol)
  }

  /** Playing a linear chain carries the piece on the first origin to the last landing square. */
  lemma {:induction false} ChainCarriesPiece(g: Grid, js: seq<Jump>, lo: nat, hi: nat)
    requires IsGrid(g) && HopsInBoard(js) && lo < hi <= |js| && Linear(js, lo, hi) && Lands(js, lo, hi)
    ensures ApplyHops(g, js, lo, hi)[js[hi - 1].newRow][js[hi - 1].newCol] == g[js[lo].oldRow][js[lo].oldCol]
    decreases hi
  {
    var prev := ApplyHops(g, js, lo, hi - 1);
    var h := js[hi - 1];
    if hi - 1 > lo {
      ChainCarriesPiece(g, js, lo, hi - 1);
      assert prev[h.oldRow][h.oldCol] == g[js[lo].oldRow][js[lo].oldCol];
    }
    assert PlayHop(prev, h)[h.newRow][h.newCol] == prev[h.oldRow][h.oldCol];
  }
}
