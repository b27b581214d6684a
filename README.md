# Chess rules engine, modelled in Dafny

The repository holds two near-identical two-player chess programs: `chess_final.py` and
`echecs/chess.py`. Each one decides whether a selected move is legal and, if so, applies it.
This project models their rules engine:

- the empty-path tests for sliding pieces and for castling;
- the per-piece legality rules (`is_valid_move`), including castling (`can_castle`);
- check detection (`is_in_check`, `is_in_check_after_move`) and the king searches;
- the adjacent-kings rule of `chess_final.py`;
- the starting position (`create_board`);
- the main loop's handling of a click: select a square, or try the selected move and apply
  it.

A `Variant` picks the program:

- `Final` is `chess_final.py`. It has the adjacent-kings rule, finds the king with
  `find_king` (first king in row-major order), and checks whether the mover is in check
  before asking the rules.
- `Echecs` is `echecs/chess.py`. It has no adjacency rule and no such check, and it
  searches for the king inline. That search's `break` ends only the column loop, so it
  returns the first king of the **last** row that holds one. No move creates a second king
  of a colour, so in play both searches find the same king.

The programs crash in two places, and the model keeps both crashes as an `Err` result:

- `SubscriptNone`: check detection passes `None` as the castling-rights record, and
  `can_castle` subscripts it when a king probes column 6 or 2.
- `UnpackNone`: a king position that was not found (`None`) is unpacked as soon as an
  opposing piece is met.

Modules:

- `Board`: the squares and pieces, the board and the starting position.
- `Paths`: the path tests. Each is a recursive function, with a loop method proved equal
  to it.
- `Rules`: legality, the king searches and check detection.
- `Scans`: the programs' nested scanning loops, proved equal to the functions.
- `RuleFacts`: what each piece rule and check detection mean.
- `Game`: the move-application block and a `Game` class holding the main loop's state.
- `GameFacts`: properties of applying moves and of whole games.
- `Scenarios`: concrete positions.

`IsValidMove` calls check detection, and check detection calls `IsValidMove`. This mutual
recursion terminates because a nested call happens only on a simulated board. On that
board, either one king has been captured or the destination square holds a king.

## Model

| member | source | states |
|---|---|---|
| Board.Opponent | chess_final.py:102 | the opponent of a colour is the other colour |
| Board.InitialPosition | chess_final.py:40-50 | `Board.CreateBoard`, `create_board`: the starting board has exactly one white king, on (7,4), and one black king, on (0,4); the rooks stand on the four corners |
| Paths.RayClearIff | chess_final.py:57-72 | the recursive ray walk is true exactly when every square strictly between its ends is empty |
| Paths.PathClearIff | chess_final.py:53-73 | `Paths.PathClear`, `is_path_clear`: holds exactly when every square strictly between two squares on a row, column or diagonal is empty; it is true for unaligned squares |
| Paths.CastlingPathClearIff | chess_final.py:76-83 | `Paths.CastlingPathClear`, `is_path_clear_for_castling`: holds exactly when every column strictly between the two columns is empty on the start row |
| Paths.ScanRay | chess_final.py:57-72 | the stepping loop of `is_path_clear` returns the ray walk's verdict |
| Paths.PathClearScan | chess_final.py:53-73 | the loop version of `is_path_clear` returns `PathClear` |
| Paths.CastlingPathClearScan | echecs/chess.py:193-202 | the loop of `is_path_clear_for_castling` returns `CastlingPathClear` |
| Rules.Simulate | chess_final.py:86-90 | after a simulated move the origin is empty, the destination holds the origin's content, and no other square changes |
| Rules.SimulateKingCount | chess_final.py:112-115 | moving a king removes exactly the king it lands on, if any |
| Rules.FindKingFrom | chess_final.py:93-98 | a square the search returns holds the king of the requested colour |
| Rules.FindKingFromFirst | chess_final.py:93-98 | `Rules.FindKing`, `find_king`: returns the first king in row-major order, and returns nothing only when there is no king of that colour |
| Rules.FirstInRow | echecs/chess.py:84-88 | the column loop stops at the first king of the row, or finds none in that row |
| Rules.InlineKingFrom | echecs/chess.py:82-88 | the inline search returns a square holding the king, and nothing only when no row holds one |
| Rules.KingSearch | echecs/chess.py:82-88 | either program's king search returns only a square holding the mover's king |
| Rules.CanCastle | chess_final.py:131-148 | `can_castle`: it crashes exactly when the record is absent and the destination column is 6 or 2; it accepts only with the flag for that side set |
| Rules.IsValidMove | chess_final.py:151-158 | an empty origin, an opponent's piece at the origin, or an own piece at the destination gives a refusal |
| Scans.FindKingScan | chess_final.py:93-98 | the nested loops with early return compute `FindKing` |
| Scans.InlineKingScan | echecs/chess.py:82-88 | the nested loops whose `break` leaves only the column loop compute `InlineKing` |
| Scans.InCheckScan | chess_final.py:101-109 | the nested loops of `is_in_check` compute `IsInCheck`, including its crash |
| RuleFacts.NoSelfCapture | chess_final.py:157-158 | no move captures an own piece or moves an opponent's piece |
| RuleFacts.RookRule | chess_final.py:176-178 | a rook move is legal exactly when it stays on a row or column and every square in between is empty |
| RuleFacts.BishopRule | chess_final.py:179-181 | a bishop move is legal exactly when it is diagonal and every square in between is empty |
| RuleFacts.QueenRule | chess_final.py:182-184 | a queen move is legal exactly when it is straight or diagonal and every square in between is empty |
| RuleFacts.KnightRule | chess_final.py:201-203 | a knight move is legal exactly when it changes row and column by 2 and 1, in either order |
| RuleFacts.PawnRule | chess_final.py:164-175 | `Rules.PawnMove`: a pawn move is legal exactly when it is one step forward onto an empty square, two steps forward from row 1 or 6 over two empty squares, or one diagonal step onto an opposing piece or the en-passant square |
| RuleFacts.KingStepRule | chess_final.py:185-194 | a one-square king step is legal exactly when the king is not in check after the move; in `chess_final.py` it also must not land next to the other king; a crash of check detection propagates |
| RuleFacts.CastlingRule | chess_final.py:195-200 | with rights present, a longer king move is legal exactly when it goes from the home square to column 6 or 2 of the home row, the flag for that side is set, and the squares between the king and the corner are empty |
| RuleFacts.CastlingWithoutRights | chess_final.py:195-200 | asked without castling rights, as check detection asks, a king on its home square probing column 6 or 2 of its home row crashes with `SubscriptNone`; any other longer king move is refused |
| RuleFacts.UniqueKingFound | chess_final.py:93-98 | with a single king of a colour, both searches return its square |
| RuleFacts.InlineUnique | echecs/chess.py:83-88 | the inline search returns the unique king's square |
| RuleFacts.InlineLastRow | echecs/chess.py:83-88 | `Rules.InlineKing`: a king with no king before it in its row and none in any later row is the one the inline search returns, so with kings on several rows the last such row wins |
| RuleFacts.KingsAdjacentRule | chess_final.py:118-128 | `Rules.KingsAdjacent`, `are_kings_adjacent`: with a single opposing king, it holds exactly when the destination is within one row and one column of it |
| RuleFacts.InCheckAfterKingStep | chess_final.py:112-115 | `Rules.InCheckAfterMove`, `is_in_check_after_move`: with a single king of the mover's colour, a king step is tested on the simulated board, with the king on its destination |
| RuleFacts.AttackFromFacts | chess_final.py:101-109 | `Rules.AttackFrom`, the scan of `is_in_check`: from any index on, the scan answers true only if some opposing piece reaches the king, and false only if none does; it succeeds when every verdict succeeds; without a king it answers false or crashes |
| RuleFacts.InCheckMeaning | chess_final.py:101-109 | `Rules.IsInCheck`, `is_in_check`: true only if an opposing piece may move onto the king, and false only if none may; without a king it crashes exactly when an opposing piece stands on the board |
| RuleFacts.EchecsKingAttacks | echecs/chess.py:150-156 | in `echecs/chess.py` an opposing king attacks a neighbouring king exactly when capturing it would not put itself in check |
| RuleFacts.AttackFromSkip | chess_final.py:103-107 | the scan passes over squares that hold no opposing piece |
| RuleFacts.CastlingProbeCrashes | chess_final.py:131-136 | a white king on (7,4) probing a black king on (7,6) subscripts the absent rights record, and check detection crashes |
| Game.Apply | chess_final.py:237-274 | the move-application block passes the turn, never sets a castling flag, clears both of the mover's flags on a king move, and sets the en-passant square exactly on a two-row pawn move |
| Game.Attempt | chess_final.py:226-275 | a selected move is played exactly when the turn passes; only a move the rules accept is played, and it is applied; a move the rules accept is played whenever the `chess_final.py` gate lets it through, and always in `echecs/chess.py`; a refused move changes nothing |
| Game.Game.constructor | chess_final.py:210-215 | a new game holds the starting board, white to move, no en-passant square, every castling flag set, nothing selected |
| Game.Game.Gate | chess_final.py:228-235 | the in-check test on the current and the simulated board computes `Game.GateRejects` |
| Game.Game.ApplyMove | chess_final.py:237-274 | the move-application block changes the state exactly as `Apply` does and keeps the selection |
| Game.Game.Click | chess_final.py:226-277 | with nothing selected, a click selects the square; otherwise the selected move is attempted as `Attempt` says and the selection is cleared; a crash leaves the state unchanged and reports the fault |
| GameFacts.NewGameFacts | chess_final.py:210-215 | `Game.NewGame`: a new game starts with white to move, no en-passant square, all four flags set, and the kings and rooks on their home squares |
| GameFacts.AcceptedPawnChangesRow | chess_final.py:164-175 | an accepted pawn move changes row; a two-row move starts on row 6 (white) or 1 (black), keeps its column and passes over an empty square |
| GameFacts.AcceptedMoveBoard | chess_final.py:237-258 | `Game.Apply` after an accepted move: the destination holds the moved piece, and a pawn taken en passant is removed; the origin is empty, except after a king step from column 5 to 6 or 3 to 2; no other square changes |
| GameFacts.EnPassantRule | chess_final.py:245-249 | the en-passant square is set exactly by a two-row pawn move; it is then the empty square the pawn passed over, on row 5 for white and row 2 for black |
| GameFacts.EnPassantExpires | chess_final.py:245-249 | an en-passant square never survives the opponent's next accepted move |
| GameFacts.KingMoveRelocatesCorner | chess_final.py:252-260 | any king move clears both of the mover's flags; a king landing on column 6 or 2 moves the row's corner content to column 5 or 3 and empties the corner |
| GameFacts.RightsRule | chess_final.py:252-271 | a flag survives a move unless the mover's king moved or a rook left that flag's corner; no move sets a flag |
| GameFacts.GateRule | chess_final.py:228-236 | `Game.GateRejects`, the gate of `chess_final.py`: when the mover is not in check, or is in check and the move clears it, the rules decide; when the mover is in check and still in check after the move, the move is refused; `echecs/chess.py` always asks the rules |
| GameFacts.RightsNeverRestored | chess_final.py:259-271 | over any sequence of selected moves, a castling flag once cleared stays cleared |
| GameFacts.CastlingLostForever | chess_final.py:131-148 | once a flag is cleared, castling to that side is refused for the rest of the game, even with the king back on its home square |
| Scenarios.CornerKingNoCheck | chess_final.py:101-109 | a white king at least two rows from a lone black king on (0,0) is not in check |
| Scenarios.DragStepLegal | chess_final.py:185-192 | the king step from (7,5) to (7,6) in the example position is legal in both programs |
| Scenarios.KingStepDragsRook | chess_final.py:252-255 | both programs accept that king step, and applying it moves the rook from (7,7) to (7,5) |
| Scenarios.ApplyIntended | chess_final.py:251-260 | in the intended block, a king move that is not two columns long moves the king alone; everything else is as in `Apply` |
| Scenarios.IntendedKingStepKeepsRook | chess_final.py:251-255 | in the intended block, the same king step leaves the rook on (7,7) |
| Scenarios.CrashInCheck | chess_final.py:101-109 | with a black rook on (0,4) and an empty column below it, the white king on (7,4) is in check |
| Scenarios.CrashSimulated | chess_final.py:229-232 | simulating the empty square (4,4) onto the king erases the king, and check detection then crashes |
| Scenarios.GateUnpackCrash | chess_final.py:228-236 | in that position, selecting the empty (4,4) and then the king's square crashes `chess_final.py`; `echecs/chess.py` refuses the move |

## Left out

- Drawing, image loading, the window and its event loop, the clock, and quitting are
  left out. The pixel-to-square mapping is left out too: a click arrives as a row and
  column.
- The printed messages are left out ("kings may not be adjacent", "you are in check").
- Coordinates are required to lie on the board. Python's negative-index wrap-around is not
  modelled, because no click or rule produces a negative index.
- Rules.InCheckAfterMove requires its origin to hold the mover's king and its destination
  not to hold an own piece. This is its only call site's situation, and the termination
  argument needs it.
- Rules.IsInCheck requires a king position, when present, to hold that colour's king. Every
  caller passes the result of a king search, which satisfies this.
- The board is a value. `simulate_move`'s row-by-row copy is a new value, and the game's
  in-place updates of the board reassign the class's board field. Aliasing between the
  board and its copies is therefore not modelled.
- A crash ends the Python program. In the model it is an `Err` result, and the `Game` class
  keeps its state.
- The `Game` class follows the programs as written: `Apply` drags the corner piece.
  `Scenarios.ApplyIntended` is stated beside it and is not used by the class.

## Findings

| source | as written | input that shows it | evidently intended | confidence | as-written member | corrected member |
|---|---|---|---|---|---|---|
| chess_final.py:252-258 | any king move landing on column 6 or 2 moves the piece from that row's corner next to the king | white king on (7,5), white rook on (7,7), black king on (0,0): the legal step to (7,6) also moves the rook to (7,5) | only a castle, a two-column king move, relocates the rook | high; not executed | Scenarios.KingStepDragsRook | Scenarios.ApplyIntended |
