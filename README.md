# Checkers board engine in Dafny

A model of the `Board` class of `env.py`, the English-draughts engine behind a
reinforcement-learning environment. The board is an 8x8 grid of cells. Each
cell has a colour (`white`, `black` or `empty`) and a king flag (`True`,
`False`, or the string `'empty'` that a capture leaves behind). White is the
agent: `step(row, col)` plays the entry of White's lists whose destination is
(row, col), then Black answers with a random move. `update` plays one random
half-move for the side to move. `reset` sets the board up again and lets Black
open at random.

The modules follow the structure of the program:

- `Cells` holds the grid and the three in-place cell updates `_make_move`,
  `_make_jump` and `_promote`, as functions on grid values. It also holds the
  set-up grid and piece counting.
- `Moves` holds `_check_move`, `_check_jump`, the eight finders and the
  row-major scan of `_find_valid_moves`, as functions of the grid.
  `MoveFacts` proves what the generated lists contain.
- `Chains` covers how the controllers pick and play entries: White's
  selection, the `while True` chain loop and where its promotion lands.
- `Turns` holds the pure outcome of the controllers: grids, counts, verdicts
  and the observation board. It also proves the lemmas about them.
- `Env` holds the class `Board`. Its fields are the Python attributes and its
  methods update them in place. Each method is proved against the functions
  above.

The random choice `random.randint(0, n - 1)` is the parameter `pick`, with
`pick(n) < n` for every `n > 0` (`IsPicker`). Rewards are whole tenths:
-0.1, 1.0, 2.0, +100 and -100 are -1, 10, 20, 1000 and -1000.

## Model

| member | source | states |
|---|---|---|
| Cells.AfterMove | env.py:274-278 | The destination takes the origin's colour and king flag. The origin becomes empty with king False. Every other square is unchanged, and consistent cells stay consistent. |
| Cells.AfterJump | env.py:280-286 | The destination takes the origin's cell. The origin and the jumped square become empty with the 'empty' king flag. Every other square is unchanged, and consistency is kept. |
| Cells.AfterPromote | env.py:288-292 | The square is crowned exactly when it holds White on row 0 or Black on row 7. Nothing else changes. |
| Cells.InitialGrid | env.py:261-272 | Every square holds the set-up cell: black men on the dark squares of rows 0-2, white men on rows 5-7, empty squares with king False elsewhere. |
| Cells.InitialRow | env.py:261-272 | Each row of the set-up grid holds four men of the colour that starts there (Black on rows 0-2, White on rows 5-7) and none of the other colour. |
| Cells.InitialCounts | env.py:261-272 | The set-up grid holds twelve white and twelve black men. These are the counters that `__init__` (env.py:41-56) and `reset` set beside it. |
| Cells.PromoteCounts | env.py:288-292 | A promotion changes no colour's piece count. |
| Cells.MoveCounts | env.py:274-278 | A move onto an empty square changes no piece count. |
| Cells.JumpCounts | env.py:280-286 | Jumping a piece onto an empty square removes exactly one piece of the jumped colour. It changes no other piece count. |
| Moves.CheckMove | env.py:404-411 | Accepts exactly when the destination is on the board and empty. |
| Moves.CheckJump | env.py:413-424 | Accepts exactly when the destination is on the board and empty, and the jumped square holds a piece of another colour. |
| Moves.StepTo | env.py:318-322 | One direction block of the move finders. It holds at most one move, and holds one exactly when `_check_move` accepts the step. That move goes from (row, col) one step in the given direction. |
| Moves.ManMoves | env.py:318-322 | A man has at most two moves. Each goes from (row, col) one row forward and one column sideways, and `_check_move` accepted it. `_find_black_man_moves` (env.py:361-365) is the same with rows reversed. |
| Moves.KingMoves | env.py:334-342 | A king has at most four moves. Each goes from (row, col) one diagonal step in any direction, and `_check_move` accepted it. |
| Moves.ManJumps | env.py:324-332 | The hops a man's search appends: per forward direction, the hop `_check_jump` accepts, then the search from its landing square with `link` True unless that is the promotion row. `MoveFacts.ManJumpsOk`, `Coverage.ManAdds`, `Coverage.ManJumpsClosed`, `Quirks.BranchSearch` and `Quirks.EraseSearch` state what it contains. |
| Moves.ManHop | env.py:325-328 | One direction block of the man search. `MoveFacts.ManHopOk` states its contents. |
| Moves.KingJumps | env.py:344-359 | The king search, threaded through the jump list because its guard reads that list. `MoveFacts.KingJumpsFlat` gives its closed form. |
| Moves.KingHop | env.py:348-350 | One direction block of the king search: the hop `_check_jump` accepts is appended, and the search recurses from its landing square. |
| Moves.Visit | env.py:298-306 | One square of the scan: the man finders for a piece of the side to move whose king flag is False, the king finders for any other piece of that side. `MoveFacts.VisitFacts`, `Coverage.VisitKeeps` and `Coverage.VisitAdds` state what it appends. |
| Moves.Scan | env.py:296-306 | The lists after the row-major scan has visited its first `n` squares. `MoveFacts.ScanOk` and `Coverage.ScanKeeps` state its properties. |
| Moves.ValidActions | env.py:294-316 | The lists `_find_valid_moves` computes. `Coverage.MovesExact`, `Coverage.RootHopsExact` and `Coverage.ContinuationsExact` state, in both directions, which moves, root hops and continuations they contain. `MoveFacts.ValidActionsOk` adds the order facts that every continuation follows a hop landing on its origin and never directly follows a king's hop. |
| MoveFacts.ManMovesOk | env.py:318-322 | Every move of a man starts on its square, passed `_check_move`, and goes one step diagonally forward. The black finder at env.py:361-365 mirrors it. |
| MoveFacts.KingMovesOk | env.py:334-342 | Every move of a king starts on its square, passed `_check_move`, and goes one diagonal step in any direction. |
| MoveFacts.ManJumpsOk | env.py:324-332 | Every hop of a man's search (and of the black mirror at env.py:367-375) is a well-formed forward hop that passed `_check_jump`, and none starts on a king. Every hop starts at the searched square with the caller's `link`, or is a continuation from where an earlier hop landed. |
| MoveFacts.ManHopOk | env.py:325-328 | The same facts for one direction block: the hop, then the search from its landing square unless that is the promotion row. |
| MoveFacts.KingJumpsFlat | env.py:344-359 | The king search appends nothing when a recorded hop already lands on the square. Otherwise it appends exactly the king's hops in the four directions, because each recursive call returns at once. |
| MoveFacts.KingRootsOk | env.py:348-359 | Each hop of a king is a well-formed root hop (`link` False) from the king's square that passed `_check_jump`. |
| MoveFacts.VisitFacts | env.py:298-316 | Visiting one square keeps every list fact: checked entries, linked continuations, no chain after a king hop. |
| MoveFacts.ManVisitFacts | env.py:300-303 | A man's finders keep the list facts. |
| MoveFacts.KingVisitFacts | env.py:304-306 | A king's finders keep the list facts. |
| MoveFacts.ScanOk | env.py:294-316 | The list facts hold after every prefix of the row-major scan. |
| MoveFacts.ValidActionsOk | env.py:294-316 | The lists hold only entries that passed their checks, start on a piece of the side to move and step in an allowed direction. A continuation hop starts on an empty, non-promotion-row square where an earlier hop landed, never directly after a king's hop. |
| MoveFacts.KingHopsAreRoots | env.py:344-359 | No hop that starts on a king is a continuation. |
| Coverage.VisitKeeps | env.py:298-306 | Visiting a square never drops an entry of either list. |
| Coverage.ScanKeeps | env.py:296-306 | Every entry of an earlier prefix of the scan is still there in every later prefix. |
| Coverage.ManAdds | env.py:318-332 | A man's finders append every forward step `_check_move` accepts. The search appends every forward hop `_check_jump` accepts, with the caller's `link`. |
| Coverage.KingAdds | env.py:334-359 | Unless its guard fires, a king's finders append every accepted step and every accepted root hop, in all four directions. |
| Coverage.NotReached | env.py:345-346 | The king search's guard never fires on the square of a piece, because every recorded hop lands on an empty square. |
| Coverage.VisitAdds | env.py:298-306 | Visiting a piece of the side to move appends each of its accepted steps and root hops: forward ones for a man, all four directions for a king. |
| Coverage.StepListed | env.py:294-316 | An accepted step from a piece of the side to move is in the move list when it goes forward or the piece is a king. |
| Coverage.MoveListed | env.py:294-316 | Every move `MoveOk` allows is in the move list. |
| Coverage.RootHopShape | env.py:324-359 | A root hop that `HopOk` allows is one diagonal direction from a piece of the side to move, forward unless the piece is a king, and `_check_jump` accepted it. |
| Coverage.RootListed | env.py:294-316 | An accepted hop from a piece of the side to move is in the jump list as a root entry when it goes forward or the piece is a king. |
| Coverage.HopListed | env.py:294-316 | Every root hop `HopOk` allows is in the jump list. |
| Coverage.MovesExact | env.py:294-316 | An entry is in the move list if and only if `MoveOk` allows it. |
| Coverage.RootHopsExact | env.py:294-316 | A hop with `link` False is in the jump list if and only if `HopOk` allows it. |
| Coverage.ManJumpsClosed | env.py:324-332 | After every hop the man search records off the promotion row, it also records, as a continuation, every forward hop `_check_jump` accepts from that hop's landing square. |
| Coverage.ManHopClosed | env.py:325-328 | The same for one direction block: the hop, then the search from its landing square. |
| Coverage.KingRootsContinued | env.py:344-359 | A king's hops all start on the king and none is a continuation, so they owe no continuations. |
| Coverage.VisitContinued | env.py:298-306 | Visiting a square keeps the jump list closed under continuation. |
| Coverage.ScanContinued | env.py:296-306 | Every prefix of the scan is closed under continuation. |
| Coverage.ManParented | env.py:324-332 | Every continuation of a man's search starts where a hop of that search, none of which starts on a king, lands. |
| Coverage.VisitParented | env.py:298-306 | Visiting a square keeps every continuation of the jump list starting where a listed non-king hop lands. |
| Coverage.ScanParented | env.py:296-306 | In every prefix of the scan, every continuation starts where a listed non-king hop lands. |
| Coverage.ContinuationListed | env.py:324-332 | In a list closed under continuation, the accepted forward continuation from a listed non-king hop's landing square is listed. |
| Coverage.ContinuationsExact | env.py:294-332 | A hop with `link` True is in the jump list if and only if `HopOk` allows it and a listed hop that does not start on a king lands on its origin. |
| Chains.WhiteChoice | env.py:66-83 | Jumps are searched when jumps were on offer, else moves when moves were. The first entry landing on (row, col) is selected, and nothing is selected exactly when no entry of the searched list lands there. |
| Chains.NothingAfterReset | env.py:192-194 | With both lists emptied by `reset`, no selection is played. |
| Chains.ChainEnd | env.py:110-119 | The chain loop runs from `sel` through every following entry whose `link` is True. It stops at the first root entry or at the end of the list. |
| Chains.PromotionIndex | env.py:120 | The promotion goes to the entry where `sel` stopped. That is the chain's last hop exactly when the chain ran to the end of the list. |
| Chains.ApplyHops | env.py:110-119 | The hops of the chain played in order give a consistent 8x8 grid. |
| Chains.ChainOutcome | env.py:106-120 | The grid after the chain and its promotion is a consistent 8x8 grid. |
| Chains.MoveOutcome | env.py:121-124 | The grid after a move and its promotion is a consistent 8x8 grid. |
| Chains.PlayHop | env.py:107 | One hop of the chain loop (`_make_jump` on the hop's squares). Its origin and jumped square end empty with the 'empty' flag, and consistency is kept. |
| Chains.ApplyHopsFrame | env.py:110-119 | The chain changes no square that none of its hops names. |
| Chains.CapturedSquaresEmpty | env.py:110-119 | When every hop's jumped square was occupied and its landing square empty before the chain, every jumped square ends empty. |
| Chains.ChainCarriesPiece | env.py:110-119 | A linear chain carries the piece on its first origin to its last landing square. |
| Turns.ListsInBoard | env.py:294-316 | Every hop and move of the generated lists names on-board squares only. |
| Turns.Offered | env.py:294-316 | The generated lists name on-board squares only. |
| Turns.Marks | env.py:137-149 | The 64-entry board holds 1 exactly on the squares some destination names, and 0 elsewhere. |
| Turns.DestBoard | env.py:142-149 | With jumps on offer, the observation marks exactly the jump destinations. Otherwise it marks exactly the move destinations. |
| Turns.ReplyGrid | env.py:106-124 | The random half-move (chain, else move, else nothing) leaves a consistent 8x8 grid. |
| Turns.ReplyHops | env.py:109-115 | The hops the chain executes number between 1 and the length of the jump list when there are jumps, and 0 otherwise. |
| Turns.WhiteGrid | env.py:67-83 | White's half-move leaves a consistent 8x8 grid. |
| Turns.WhiteVerdict | env.py:88-99 | The game ends after White's half-move exactly when an entry was played and either `invalid_moves == 2` or Black has no pieces left. The `invalid_moves` loss overrides the win, and a rejected square costs -0.1. |
| Turns.BlackVerdict | env.py:126-134 | The game ends after Black's reply exactly when Black had nothing to play, White has no pieces left, or it had already ended. Black having nothing to play is a White win that overrides the White-count check. |
| Turns.FinalVerdict | env.py:151-154 | White having nothing to play ends a running game as a Black win. Otherwise the verdict stands. |
| Turns.UpdateWinner | env.py:235-251 | The side that just played loses when it had nothing to play. Otherwise it wins when the opponent has no pieces left, and otherwise there is no winner. |
| Turns.WhiteGridCounts | env.py:67-81 | A hop from White's lists removes exactly one black piece from the board, which matches the `black_pieces -= 1` of `step`. A move removes none, and no white piece is lost either way. |
| Turns.ReplyMoveCounts | env.py:121-124 | Without jumps on offer, the random half-move changes no piece count. |
| Turns.ReplyCaptures | env.py:106-120 | Every square the random chain jumps ends empty. |
| Turns.ReplyFrame | env.py:106-120 | The random chain changes no square its executed hops do not name, except that the promotion may crown its square. No square the executed hops do not name changes colour. |
| Turns.StrayPromotion | env.py:120 | When the chain stops before the end of the list and no executed hop names the next entry's landing square, the promotion has no effect. The result is the bare chain, even when the chain reached the far row. |
| Quirks.LinkedWhiteHop | env.py:67-75 | White can select a continuation entry, whose origin is empty. The half-move then leaves both its landing square and its jumped square empty. It takes one black piece and no white one, so no white piece moves. |
| Quirks.BranchSearch | env.py:367-375 | On a grid with a black man at (0, 3), white men at (1, 4), (3, 6) and (3, 4), and every other square empty, the black man search lists the hop to (2, 5), then both continuations from (2, 5). |
| Quirks.BranchPlay | env.py:110-119 | Playing those three hops on any grid carries the piece on (0, 3) to (4, 7) and the cell left on (2, 5) to (4, 3). It also clears the three jumped squares. |
| Quirks.BranchingChain | env.py:106-120 | On that grid the chain loop from the first hop plays all three entries, and the chain is not linear. The black man ends on (4, 7). The promotion goes to the last hop, as the chain ran to the end of the list, but that hop's landing square (4, 3) holds an empty cell. |
| Quirks.EraseSearch | env.py:367-375 | On a grid with a black man at (0, 3), white men at (1, 4), (3, 6), (5, 6), (3, 4), (5, 4) and (5, 2), and every other square empty, the black man search lists six hops. After the hop to (2, 5), both branches from there lead on to (6, 5). |
| Quirks.HopMovesBlack | env.py:280-286 | When at most one square holds a black piece, a `_make_jump` from that square carries it to the landing square. Any other hop keeps it in place, and erases it when landing on it. |
| Quirks.ErasePlay | env.py:110-119 | Six hops of that search's shape, played in order on a grid whose only black piece stands on (0, 3), leave no black piece anywhere: the fifth hop carries an empty cell onto (6, 5), where the third hop put the piece. |
| Quirks.ErasingChain | env.py:106-120 | On that grid the chain loop from the first entry plays all six hops. After the chain and its promotion no square holds a black piece, though the black man was never jumped. |
| Env.MarkSquares | env.py:137-149 | Filling the observation one destination at a time gives `Marks` of the destinations. |
| Env.Board.constructor | env.py:41-56 | Black to move, twelve pieces each, the set-up grid, both lists empty, both step flags False, `invalid_moves` 0. |
| Env.Board.Setup | env.py:261-272 | The eight empty rows become the set-up grid. |
| Env.Board.MakeMove | env.py:274-278 | The grid becomes `AfterMove` of the old grid. |
| Env.Board.MakeJump | env.py:280-286 | The grid becomes `AfterJump` of the old grid. |
| Env.Board.Promote | env.py:288-292 | The grid becomes `AfterPromote` of the old grid. |
| Env.Board.FindStep | env.py:319-322 | One direction block of the move finders: the list grows by `StepTo`. |
| Env.Board.FindWhiteManMoves | env.py:318-322 | Appends exactly the man's moves up-left then up-right that pass `_check_move`. |
| Env.Board.FindBlackManMoves | env.py:361-365 | Appends exactly the man's moves down-right then down-left that pass `_check_move`. |
| Env.Board.FindKingMoves | env.py:334-342 | Appends exactly the king's moves in the finders' order. `_find_black_king_moves` (env.py:377-385) is the same code. |
| Env.Board.FindWhiteManJumps | env.py:324-332 | Appends exactly `ManJumps` for White from (row, col): each hop followed by the search from its landing square. |
| Env.Board.FindBlackManJumps | env.py:367-375 | Appends exactly `ManJumps` for Black from (row, col). |
| Env.Board.FindManHop | env.py:325-328 | One direction block: appends the hop and, unless it landed on the promotion row, the search from there. |
| Env.Board.FindKingJumps | env.py:344-359 | The jump list becomes `KingJumps` of the old list: unchanged when a recorded hop lands here, else the four direction blocks. `_find_black_king_jumps` (env.py:387-402) is the same code. |
| Env.Board.FindKingHop | env.py:348-350 | One direction block of the king search. |
| Env.Board.FindValidMoves | env.py:294-316 | Both lists become exactly the row-major scan `ValidActions` of the grid for the side to move, and they name on-board squares. |
| Env.Board.ScanRow | env.py:297-306 | The inner loop over one row: the lists go from the scan before the row's first square to the scan after its last. |
| Env.Board.VisitSquare | env.py:298-306 | One square of the scan: the lists become `Visit` of the old lists. |
| Env.Board.PlayChain | env.py:107-119 | Plays hops `first` up to the chain end, decrements White's counter once per hop when asked, and returns the index the loop stopped at. |
| Env.Board.PlayReply | env.py:106-124 | The grid becomes `ReplyGrid` of the lists, and White's counter drops by the executed hops when asked. |
| Env.Board.FindSelection | env.py:66-83 | Returns `WhiteChoice` of the flags and lists. |
| Env.Board.PlayWhite | env.py:67-83 | The grid becomes `WhiteGrid`, and Black's counter drops by one for a hop. |
| Env.Board.WhiteHalfMove | env.py:64-99 | White's selection is played and both flags are cleared. The verdict is `WhiteVerdict`, and "valid" means something was played. |
| Env.Board.WhiteCheck | env.py:88-99 | Returns `WhiteVerdict` of the choice and the counters. |
| Env.Board.BlackReply | env.py:101-134 | Black's lists are computed, the random half-move is played with one white piece per hop, and the verdict is `BlackVerdict`. |
| Env.Board.WhiteRecompute | env.py:136-156 | A finished game leaves the lists and an all-zero board. Otherwise White's lists are computed, the flag of the kind on offer is set, the board is `DestBoard`, and the verdict is `FinalVerdict`. |
| Env.Board.Step | env.py:58-156 | The whole `step`: the new grid, both counters, side to move, lists, flags, observation and verdict, as compositions of the functions above. |
| Env.Board.Answer | env.py:101-156 | The part of `step` after White's half-move: Black's reply only when White's was valid and did not end the game, then White's recompute. |
| Env.Board.Reset | env.py:158-194 | The grid is Black's random opening on the set-up grid. White has 12 pieces less the hops played, Black has 12. White is to move with both lists empty, `invalid_moves` is 0 and `end_game` is False. |
| Env.Board.Rebuild | env.py:159-167 | `end_game` is False, both counters are 12, the grid is the set-up grid and `invalid_moves` is 0. |
| Env.Board.BlackTurn | env.py:169-190 | Black is to move with its lists, the random half-move is played, and White's counter drops by the hops played. |
| Env.Board.HandOver | env.py:192-194 | White is to move and both lists are empty. |
| Env.Board.Update | env.py:211-259 | The side to move plays the random half-move on its lists, and the opponent's counter drops by one when jumps were on offer. The winner is `UpdateWinner`, `end_game` means a winner exists, and the turn passes unless the game is over. |
| Env.Board.Conclude | env.py:226-257 | The bookkeeping of `update`: one opponent piece per chain, then the winner checks and the turn change. |

## Behaviour kept from the code

- White's `step` plays one hop of a chain only. The continuation entries stay unplayed.
- The chain loop promotes the entry where `sel` stopped. When a root entry follows the chain, that is the root entry's landing square, not the chain's (`StrayPromotion`).
- `update` takes one opponent piece per chain, whatever the chain's length. `step` and `reset` take one per hop.
- `invalid_moves` is never incremented, so the `invalid_moves == 2` branch of `step` is kept but cannot fire after `reset`.
- The king search's guard reads the whole jump list. Every recursive call therefore returns at once, and a king never chains (`KingJumpsFlat`).
- `_find_valid_moves` fills `moves` even when jumps exist. Capture is compulsory only because every caller looks at `jumps` before `moves`.
- White may select a continuation entry (`link` True), which starts on the square an earlier hop would land on and is still empty. `step` then carries an empty cell onto the target and removes the black piece jumped, with the `black_pieces -= 1` and the 2.0 reward of a capture, while no white piece moves (`LinkedWhiteHop`).
- The man search can branch: two continuations can start from the same landing square. The chain loop plays both in a row, so the second one starts from the square the first just emptied, and the promotion can land on an empty cell even when the chain ran to the end of the list (`BranchingChain`).
- A later branch can land on the square where the moving piece stopped. It then overwrites that piece with the empty cell it carries, so the board loses a piece of the side that moved while no counter changes (`ErasingChain`).

## Left out

- Rendering (`Piece.render`, `Board.render`) and everything pygame draws: output only.
- The `CheckersEnv` wrapper and `main.py`: they are not part of this model.
- `random.randint` is the parameter `pick`. The model does not constrain which index is drawn beyond its range.
- Floating-point rewards are integer tenths. No rounding is involved.
- The `row` and `col` attributes of `Piece` are not modelled: no operation of `Board` reads them.
- `end_game` and `winner` are not created by `Board.__init__` in the source. The constructor here gives them initial values.
- Turns.ReplyFrame, Turns.ReplyCaptures: the piece counts after a multi-hop chain are not related to the board, because in general they do not match it. A later branch can land on the mover's square and erase it, leaving the board a piece short that no counter records (`ErasingChain`). Only single hops (`WhiteGridCounts`) and moves (`ReplyMoveCounts`) are related to the counts.
- ChainCarriesPiece: it covers linear chains only, where each hop starts where the previous one landed. In a branching chain the later branches carry empty cells. The piece can then survive at the end of the first branch (`BranchingChain`), or be overwritten when a later branch lands on it (`ErasingChain`).
- Moves.ValidActions: the lemmas state which entries the lists hold, not in what order, beyond the ordering facts of `ValidActionsOk`. The order is that of the recursive definitions `ManJumps` and `KingJumps`, which follow the finders' code. The chain loop's reading of that order is stated on the concrete grids of `Quirks`.
