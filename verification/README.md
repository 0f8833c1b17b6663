# Checkers engine and board, modelled in Dafny

This project models the core of a checkers (draughts) game on an 8x8 board.
It covers two pieces of the program.

The **board** (class `Board`, Game/Board.h) holds:

- the piece matrix (0 empty, 1 white man, 2 black man, 3 white king, 4 black king);
- the history of matrices after every move;
- for every history entry, the length of the capture series it ended.

The board moves, removes and promotes pieces, lays out the starting position and rolls moves back.

The **bot** (class `Logic`, Game/Logic.h) does four things:

- It lists the legal moves of one piece or of a whole side. Captures are mandatory: when any piece can capture, only captures are listed.
- It shuffles the side's moves with its random engine.
- It scores a position by a ratio of material.
- It searches the game tree to a fixed depth with alpha-beta.

The search records the chosen turn in two arenas:

- `next_move`: the move chosen at each search state;
- `next_best_state`: the state that continues a capture chain.

`find_best_turns` then follows them to rebuild the whole turn, capture chain included.

Modules:

- `Grid`: the matrix, moves, cell updates and piece counts.
- `Apply`: `make_turn` and what it does to the board.
- `MoveGen`: the move rules and the generator functions, with exactness lemmas that characterise them.
- `CellScan`: the loops of the per-cell generator, proved to compute those functions.
- `Scoring`: `calc_score`.
- `Search`:
  - the minimax value of a node without cut-offs (`Value`);
  - the value of a whole turn (`FirstValue`, `TurnValue`, `BestOf`);
  - the capture-chain shape of the turn that is returned.
- `BoardState`: class `Board`.
- `Engine`: class `Logic`. Its methods are proved to compute the functions of the modules above.

When the optimisation setting is "O0", no cut-off is taken. In that case the search methods are proved to return exactly `Value`, the minimax value. Their termination is proved with the measure (depth bound − depth, pieces on the board). A capture keeps the depth but removes a piece.

## Model

| member | source | states |
|---|---|---|
| Apply.MakeTurn | Game/Logic.h:47-56 | the origin ends empty, the captured cell is cleared, and every other untouched cell keeps its code; the destination receives the moved code, promoted to a king when a white man reaches row 0 or a black man reaches row 7 |
| Apply.CaptureRemovesOne | Game/Logic.h:47-56 | a capture of the generated shape leaves exactly one piece fewer on the board |
| Apply.PlainMoveKeepsPieces | Game/Logic.h:47-56 | a plain move onto an empty cell keeps the number of pieces |
| Apply.MovesNeverAddPieces | Game/Logic.h:47-56 | no move, of whatever shape, increases the number of pieces |
| MoveGen.ManCapturesExact | Game/Logic.h:251-266 | the man's jumps are exactly the two-cell diagonal jumps, in all four directions, over a piece of the other side onto an empty cell inside the board |
| MoveGen.ManStepsExact | Game/Logic.h:300-313 | the man's plain moves are exactly the one-cell forward diagonal moves onto an empty cell (white moves up, towards row 0; black moves down) |
| MoveGen.KingCapturesExact | Game/Logic.h:267-292 | the king's captures are exactly: along a diagonal, empty cells, then one enemy piece, then every empty landing cell beyond it up to the next piece |
| MoveGen.KingStepsExact | Game/Logic.h:314-329 | the king's plain moves are exactly the empty cells along each diagonal up to the first piece |
| MoveGen.CellTurnsExact | Game/Logic.h:243-330 | `have_beats` holds iff the piece has some capture; the list is then exactly its captures, and otherwise exactly its plain moves |
| MoveGen.CellMovesShape | Game/Logic.h:243-330 | every generated move starts on the cell and stays on the board; it carries a captured cell iff the list is one of captures |
| MoveGen.SideTurnsExact | Game/Logic.h:214-240 | `have_beats` holds iff some piece of the side can capture; a move is listed iff it belongs to a piece of the side and is in that piece's list of the same kind (the capture is mandatory) |
| MoveGen.SideMovesShape | Game/Logic.h:214-240 | every move of the side's list belongs to one of the side's pieces and is a capture exactly when the list is |
| CellScan.ManJumps | Game/Logic.h:254-265 | the double loop over the four jump targets computes the man's captures |
| CellScan.CaptureWalk | Game/Logic.h:273-289 | the walk along one diagonal computes the king's captures in that direction |
| CellScan.KingJumps | Game/Logic.h:267-292 | the four walks together compute the king's captures |
| CellScan.ManMoves | Game/Logic.h:302-313 | the loop over the two forward cells computes the man's plain moves |
| CellScan.StepWalk | Game/Logic.h:320-325 | the walk along one diagonal computes the king's plain moves in that direction |
| CellScan.KingMoves | Game/Logic.h:314-329 | the four walks together compute the king's plain moves |
| Scoring.TallyBounds | Game/Logic.h:63-78 | a running tally is never negative, is zero exactly when no cell counted so far holds the code, and is at least 1 otherwise |
| Scoring.ScoreRange | Game/Logic.h:59-97 | the score lies in [0, INF]; it is INF exactly when the denominator side (white when `first_bot_color` holds, black otherwise) has no piece, which is checked first, and 0 exactly when that side has pieces and the other side none |
| Scoring.RatioRange | Game/Logic.h:86-96 | the final step gives INF when the denominator is empty, 0 when the numerator is empty, and otherwise a ratio strictly between 0 and INF, with a king weight of 4 or 5 |
| Search.FoldBounds | Game/Logic.h:172-196 | the running min (from INF + 1) and max (from -1) bound every value, and both are attained when the list is non-empty |
| Search.ValueLeaf | Game/Logic.h:148-151 | at the depth bound a node is worth the score of its board, from the point of view `depth % 2 == color` |
| Search.ValueHandOver | Game/Logic.h:164-167 | a capture chain whose piece has no further capture is the other side's node one level deeper |
| Search.ValueNoMoves | Game/Logic.h:169-170 | a node without moves is worth 0 at odd depths and INF at even ones |
| Search.ValueNode | Game/Logic.h:172-196 | a node with moves takes the max of its child values at odd depths and the min at even ones, over the moves in any order |
| Search.ValueRange | Game/Logic.h:144-197 | every node value lies in [0, INF] |
| Search.ChildBounds | Game/Logic.h:175-187 | the min and max of the child values bound every move's value, and some move attains each |
| Search.ChildValuesPermutation | Game/Logic.h:175-187 | reordering the moves, as the shuffle does, leaves the min and max of the child values unchanged |
| Search.TurnStep | Game/Logic.h:121-139 | the best turn value over k + 1 moves is the max of the best over k moves and the value of move k |
| Search.TurnRange | Game/Logic.h:121-139 | every turn value lies in [0, INF], so the first move tried always beats the initial -1 |
| Search.BestOfBounds | Game/Logic.h:117-140 | the best turn value is -1 for no move; otherwise it is in [0, INF], no move exceeds it, and some move attains it |
| Search.ChainSnoc | Game/Logic.h:37-41 | a capture chain extended by a capture of the piece that has just captured is still a capture chain |
| Search.BestSnoc | Game/Logic.h:37-41 | a chain whose later captures are each a best capture of the piece stays so when extended by a best capture of that piece on the board the chain reaches |
| Search.SideBestFirst | Game/Logic.h:117-140 | a move of best turn value over any ordering of the side's move list is a move of the side, and no move of the side has a greater turn value |
| Engine.NextRandomNonZero | Game/Logic.h:19-20 | a draw from a non-zero state of the engine is never 0, because 16807 is invertible modulo the prime 2^31 − 1; the seeded state is never 0, so the engine never reaches the state it cannot leave |
| Engine.ShuffleNonZero | Game/Logic.h:238 | a shuffle started from a non-zero engine state leaves the engine in a non-zero state |
| Engine.SwapPermutes | Game/Logic.h:238 | one exchange of the shuffle keeps the same moves, each as often |
| Engine.ShufflePermutes | Game/Logic.h:238 | the shuffle keeps the same moves, each as often |
| Engine.ArenaGrow | Game/Logic.h:103-104 | pushing (-1, NoMove) for a new state keeps the arena invariant |
| Engine.ArenaSet | Game/Logic.h:133-138 | recording a better move keeps the arena invariant: `next_best_state` is -1 or a later state continuing the capture |
| Engine.ChainLink | Game/Logic.h:37-41 | following `next_best_state` from a state with a continued capture reaches a later state, and its move extends the chain |
| Engine.ChainOf | Game/Logic.h:34-41 | the walk of the do-while from a state starts with the move recorded at that state |
| Engine.ChainStep | Game/Logic.h:37-41 | one pass of the do-while moves the recorded move from the rest of the walk onto the moves taken |
| Engine.SearchedFresh | Game/Logic.h:103-104 | a state just pushed, with no move and no successor, is linked and finished |
| Engine.SearchedExtends | Game/Logic.h:123-127 | the states the search of a capture appends, once finished, leave the links of the current state and the finished states after it intact |
| Engine.SearchedSet | Game/Logic.h:133-138 | recording a capture with its successor state, whose own move is recorded whenever the piece can capture again, keeps the state linked |
| Engine.SearchedSettles | Game/Logic.h:100-141 | a continuation state that is linked and holds a best capture of its piece is finished, with all states after it |
| Engine.ChainEnd | Game/Logic.h:40 | where the do-while stops after a capture, the successor recorded no move and the piece cannot capture again on the board the turn reaches |
| Engine.WalkedStart | Game/Logic.h:34-38 | the first pass of the do-while takes the move of state 0 |
| Engine.WalkedStep | Game/Logic.h:37-40 | a further pass takes the successor's move; the turn stays a chain of captures and, without cut-offs, each later capture is a best one |
| Engine.WalkedEnd | Game/Logic.h:40-41 | when the do-while stops, the moves taken are the whole walk and, without cut-offs, the turn is complete |
| Engine.Logic.constructor | Game/Logic.h:17-23 | the engine is seeded with the clock truncated to 32 bits, or with 0 under NoRandom; the turn lists and arenas start empty |
| Engine.Logic.Shuffle | Game/Logic.h:238 | `turns` becomes the Fisher–Yates shuffle of itself under the engine's draws, a permutation of the old list |
| Engine.Logic.FindTurnsCell | Game/Logic.h:243-330 | sets `turns` and `have_beats` to the piece's captures if it has any, and otherwise to its plain moves |
| Engine.Logic.FindTurnsSide | Game/Logic.h:214-240 | `have_beats` is the side's capture flag; `turns` is the shuffled side list and holds the same moves as it |
| Engine.Logic.FindTurns | Game/Logic.h:201-204 | the side generator applied to the current board |
| Engine.Logic.FindTurnsAt | Game/Logic.h:207-210 | the cell generator applied to the current board |
| Engine.Logic.FindBestTurnsRec | Game/Logic.h:144-197 | without cut-offs the score is the minimax value `Value` of the node |
| Engine.Logic.HandOver | Game/Logic.h:164-167 | the recursive call of a finished capture chain returns the node's value |
| Engine.Logic.SearchTurns | Game/Logic.h:172-196 | the loop over the node's moves returns the max (odd depth) or min (even depth) of the child values |
| Engine.Logic.SearchChild | Game/Logic.h:177-185 | a capture recurses with the same depth and side from the landing cell; a plain move recurses with depth + 1 and the other side |
| Engine.Logic.FindFirstBestTurn | Game/Logic.h:100-141 | appends the entry of `state` and keeps the entries before it; the recorded move is NoMove or a listed move (at a later state, a capture of the piece on (x, y)). Without cut-offs: it returns the best turn value (at a later state, `FirstValue` of the piece); the recorded move attains it with the turn value of its kind; a move is recorded whenever one exists, at a later state whenever the piece can capture; and the state and every state after it are linked, each continuation holding a best capture |
| Engine.Logic.FirstCell | Game/Logic.h:106-140 | at a later state: the piece's captures are searched when it has any, and the opponent's reply otherwise; without cut-offs the value is `FirstValue`, the recorded capture attains it, a capture is recorded whenever the piece has one, and the state is finished |
| Engine.Logic.FirstHandOver | Game/Logic.h:112-115 | a turn whose piece cannot capture again is worth the opponent's reply searched from depth 0 |
| Engine.Logic.FirstTurns | Game/Logic.h:117-140 | the loop over the moves keeps the arena invariant and returns the best turn value, recording a move that attains it; without cut-offs the state stays linked and the states the loop appends are finished |
| Engine.Logic.FirstStep | Game/Logic.h:121-139 | one iteration of that loop extends the best value by the move's value and records the move when it is strictly better, keeping the state linked |
| Engine.Logic.TryTurn | Game/Logic.h:123-132 | the value of one move: a capture searched as a continuation in a new state whose board is the board after the capture, a plain move as the opponent's reply; without cut-offs the appended states are finished, and the new state records a move whenever the piece can capture again |
| Engine.Logic.FindBestTurns | Game/Logic.h:26-43 | the returned turn is the walk of the arenas from state 0; its first move is NoMove or one of the listed moves, and it is a capture chain on the board. Without cut-offs: a move is chosen whenever one is listed; the first move is of best turn value, and when the list is the side's moves no move of the side has a greater value; every later capture is a best capture of the piece; and a turn ending in a capture ends only where the piece cannot capture again |
| Engine.Logic.FollowChain | Game/Logic.h:34-42 | the do-while returns exactly the walk of the arenas from state 0, a capture chain; without cut-offs every later capture is a best one and the turn is complete |
| Engine.Logic.CountRow | Game/Logic.h:65-77 | the inner counting loop adds one row's men, kings and men's bonuses to the tallies |
| Engine.Logic.CalcScore | Game/Logic.h:59-97 | the method returns `Score`, whose cases `Scoring.ScoreRange` states |
| BoardState.RolledBack | Game/Board.h:197-202 | the history after a rollback is a non-empty prefix of the old one |
| BoardState.RollbackUndoesOne | Game/Board.h:195-203 | rolling back a move recorded with series 0 or 1 restores the history from before it |
| BoardState.RollbackUndoesSeries | Game/Board.h:195-203 | rolling back a capture series of k entries whose last carries k restores the history from before the whole series |
| BoardState.StartPieces | Game/Board.h:253-265 | the starting position has 12 white men, 12 black men and no king |
| BoardState.SameAsStart | Game/Board.h:255-265 | a board that matches the start layout cell by cell is the starting position |
| BoardState.Board.constructor | Game/Board.h:23 | a new board has an empty 8x8 matrix and an empty history |
| BoardState.Board.GetBoard | Game/Board.h:146-149 | returns the current matrix |
| BoardState.Board.AddHistory | Game/Board.h:246-250 | appends the current matrix and the series length, keeping both histories the same length |
| BoardState.Board.DropPiece | Game/Board.h:128-132 | empties one cell, and nothing else changes |
| BoardState.Board.TurnIntoQueen | Game/Board.h:135-143 | on an empty cell or a king it fails with the source's message and changes nothing; on a man it adds 2 to the code |
| BoardState.Board.MovePieceAt | Game/Board.h:109-125 | an occupied target fails first, then an empty origin, each changing nothing. Otherwise the board becomes `MakeTurn` of the plain move, and one history entry records the new matrix and the series |
| BoardState.Board.MovePiece | Game/Board.h:99-106 | the captured cell is cleared before the checks, so a refused move still leaves it empty; on success the board is `MakeTurn` of the move and one history entry is appended |
| BoardState.Board.Rollback | Game/Board.h:195-206 | drops min(max(1, last), n − 1) entries from both histories, where `last` is the last series length and n the history length, so the first entry always stays; the matrix becomes the last remaining entry |
| BoardState.Board.MakeStartMtx | Game/Board.h:253-267 | the matrix becomes the starting position and one history entry with series 0 is appended |
| BoardState.Board.Redraw | Game/Board.h:88-96 | the history is reset to exactly the starting position with series 0 |

## Left out

- Rendering is left out: SDL windows, textures, highlighting, the active cell, `rerender` and `show_final`. The screen is not part of the board's state that the rules use.
- The game loop (Game/Game.h) and mouse input (Game/Hand.h) are left out; they are callers only.
- Reading the settings file (Game/Config.h) is left out. The settings the engine reads become constructor parameters: the scoring mode, whether cut-offs are taken, the depth bound and NoRandom.
- The clock `time(0)` becomes a parameter of the `Logic` constructor.
- `Board`'s window width and height are left out.
- Engine.Logic.Shuffle: `std::shuffle` is modelled as a forward Fisher–Yates over the minimal-standard engine (multiplier 16807, modulus 2^31 − 1). The standard library's exact sequence of draws is implementation-defined, so only the permutation is relied on.
- Engine.Logic.FindBestTurnsRec: with cut-offs on, the returned score is not characterised. Values are stated only without cut-offs.
- Engine.Logic.FindFirstBestTurn: with cut-offs on, its value and choice are not characterised. The arena invariant and the shape of the returned chain hold in every mode.
- Engine.Logic.FindBestTurns: the optimality of the returned moves and the completeness of the turn are stated only without cut-offs. Both rest on every searched value beating the initial −1, and the values of the search with cut-offs are not characterised.
- Doubles are modelled as exact reals, so rounding in the men's 0.05 bonus is not modelled.
- `POS_T` coordinates and codes are modelled as unbounded integers. All values stay within 0..7 and -1, so no narrowing arises.
- `Engine.Logic` starts with empty `turns` and `next_move` and with `have_beats` false. The source leaves them default-initialised until the first `find_turns`.
- BoardState.Board.Rollback requires a non-empty history: the source dereferences the last entry, which is undefined on an empty history.
