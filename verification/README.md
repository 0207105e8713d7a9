# Chess rules engine — a Dafny model

This project models the rules engine of a small Python chess program, `everything_chess/chess_engine.py`. The engine has three parts:

- **Game state.** It holds an 8×8 board, the `white_to_move` flag and the `move_log`. `make_move` and `undo_move` change all three.
- **Pseudo-move generation.** `get_all_possible_moves` scans the board for pieces of the side to move and dispatches on each piece's kind. Only pawns and rooks have generators. `get_valid_moves` returns the same list, because checks are not considered.
- **The `Move` value.** A move has a start square and an end square. Its constructor reads the moved and captured cells off the board. `move_ID` packs the four coordinates into decimal digits, and equality compares `move_ID`. The rank/file maps and `get_chess_notation` print a move as four characters.

Modules, one per part:

- `Chessboard` (`chessboard.dfy`): colours, piece kinds, cells, the board as a subset type of `seq<seq<Cell>>` that is always 8×8, the starting position, and a single-cell update.
- `ChessMove` (`chessmove.dfy`): the `Move` datatype, the constructor `NewMove`, `MoveId`, and equality by identity (`SameMove`). It also holds the four rank/file maps, as map constants with the source's entries, and the notation functions.
- `MoveGen` (`movegen.dfy`): the pawn generator, the rook generator as four independent rays, the dispatch on piece kind, the row-major board scan (`MovesFrom`, `AllPossibleMoves`) and `ValidMoves`. Each generator is matched against a declarative reference predicate (`PawnTarget`, `RookTarget`) by an if-and-only-if lemma.
- `Engine` (`engine.dfy`): the `GameState` record, `MakeMove`, `UndoMove`, the make/undo round trip for one move and for a sequence of moves, the turn/log invariant, and the move count of the starting position.
- `RookAsWritten` (`rook_as_written.dfy`): the source's rook loop exactly as written, with lemmas on concrete boards showing where it departs from the rule its comments state (see Findings).

The model follows the code wherever it falls short of full chess:

- Move equality is by the packed `move_ID`, not structural.
- Knights, bishops, queens and kings generate nothing.
- There is no legality filter, castling, en passant or promotion.
- The starting position therefore has 16 moves for White (`Engine.InitialMoveCount`), not the 20 of standard chess.

## Model

| member | source | states |
|---|---|---|
| Chessboard.InitialBoard | everything_chess/chess_engine.py:12-22 | The starting position has black pawns on row 1 and white pawns on row 6. Rows 2-5 are empty. The kings stand on column 4 of rows 0 and 7. |
| Chessboard.Put | everything_chess/chess_engine.py:36-37 | Writing one board cell sets exactly that cell and leaves every other square unchanged. |
| ChessMove.NewMove | everything_chess/chess_engine.py:237-243 | The constructor keeps the given squares. Its moved and captured cells are the board's cells at the start and end squares. |
| ChessMove.MoveId | everything_chess/chess_engine.py:244 | For coordinates in 0..7 the packed identity lies in 0..7777. |
| ChessMove.MoveIdDigits | everything_chess/chess_engine.py:244 | Reading the identity's four decimal digits gives back start row, start column, end row and end column. |
| ChessMove.SameMoveIffSameSquares | everything_chess/chess_engine.py:244-250 | Two moves are equal by identity exactly when their start and end squares are equal, so the decimal packing is injective. |
| ChessMove.SameMoveOnSameBoard | everything_chess/chess_engine.py:242-250 | Two moves built from the same board are equal by identity exactly when they are the same value, pieces included. |
| ChessMove.RankMapsInverse | everything_chess/chess_engine.py:230-232 | `rows_to_ranks` inverts `ranks_to_rows` in both directions and covers every row. Row equals 8 minus the rank digit. |
| ChessMove.FileMapsInverse | everything_chess/chess_engine.py:233-235 | `columns_to_files` inverts `files_to_columns` in both directions and covers every column. Files "a".."h" are columns 0..7. |
| ChessMove.RankFile | everything_chess/chess_engine.py:257-258 | A square's text is two characters, file then rank. Looking them up in `files_to_columns` and `ranks_to_rows` gives back the square. |
| ChessMove.ChessNotation | everything_chess/chess_engine.py:252-254 | The notation has exactly four characters: start file, start rank, end file, end rank. Each one decodes back to the matching coordinate. |
| ChessMove.NotationIffSameMove | everything_chess/chess_engine.py:244-258 | Two moves have the same notation exactly when they are equal by identity. |
| MoveGen.PawnMoves | everything_chess/chess_engine.py:84-124 | At most four moves. Each starts on the pawn's square, is built from the board, and ends on a pawn target. |
| MoveGen.PawnMovesExact | everything_chess/chess_engine.py:84-124 | A move is generated exactly when it is built from the board and ends on a target. The targets are: one row forward onto an empty square; two rows forward from the home row (6 for White, 1 for Black) across two empty squares; or one row forward and one column sideways onto an enemy piece. |
| MoveGen.BlockedPawnHasNoPush | everything_chess/chess_engine.py:87-111 | If the square directly ahead holds any piece, the pawn gets no forward move, whatever stands two squares ahead. |
| MoveGen.HomePawnHasBothPushes | everything_chess/chess_engine.py:87-111 | A pawn on its home row with both squares ahead empty gets both its single and its double push. |
| MoveGen.RookRay | everything_chess/chess_engine.py:141-155 | One direction's walk. Every move is built from the board, lies on the ray, and ends on an empty or enemy square. A ray from step k has at most 8 - k moves. |
| MoveGen.RookRayExact | everything_chess/chess_engine.py:131-155 | The ray from step k holds exactly the on-board squares at least k steps out with no friendly piece from step k up to and including the destination. |
| MoveGen.RookRaySound | everything_chess/chess_engine.py:143-152 | No produced destination lies at or beyond a friendly piece on its ray. |
| MoveGen.RookRayComplete | everything_chess/chess_engine.py:143-152 | Every ray square before the first friendly piece is produced, enemy squares included. |
| MoveGen.RookMoves | everything_chess/chess_engine.py:126-188 | At most 28 moves. Every destination shares exactly one of row and column with the origin, and none holds a friendly piece. |
| MoveGen.RookMovesExact | everything_chess/chess_engine.py:126-188 | A move is generated exactly when it is built from the board, goes to another square in the same row or column, and has no friendly piece from the first step up to and including the destination. |
| MoveGen.RookStopsAtFriendly | everything_chess/chess_engine.py:150-152 | Once a ray meets a friendly piece, no square from there on along that ray is a destination. |
| MoveGen.PieceMoves | everything_chess/chess_engine.py:68-81 | Every move starts on the dispatched square and is built from the board. Kinds other than pawn and rook yield no move. |
| MoveGen.MovesFrom | everything_chess/chess_engine.py:64-81 | Every move from the scan of squares k..63 starts on one of those squares, on a piece of the side to move, and is built from the board. |
| MoveGen.MovesFromExact | everything_chess/chess_engine.py:64-81 | The scan from square k yields exactly the moves of the side's pieces on squares k and later. |
| MoveGen.AllPossibleMoves | everything_chess/chess_engine.py:62-82 | Every generated move starts on a square holding a piece of the side to move and is built from the current board. |
| MoveGen.AllPossibleMovesExact | everything_chess/chess_engine.py:62-82 | A move is generated exactly when it starts on a piece of the side to move and is one of that piece's own moves. |
| MoveGen.GeneratedMovesCharacterized | everything_chess/chess_engine.py:62-124 | A move is generated exactly when it is built from the board, starts on a pawn or rook of the side to move, and ends on one of that piece's reference targets. |
| MoveGen.ValidMoves | everything_chess/chess_engine.py:57-59 | The valid moves are exactly the list of all possible moves. |
| Engine.Initial | everything_chess/chess_engine.py:6-32 | A new game has the starting position, White to move and an empty log, so the turn already matches the log's length. |
| Engine.MakeMove | everything_chess/chess_engine.py:35-39 | The end square holds the moved piece. The start square is empty unless it is the end square. Every other square is unchanged. The log grows by exactly this move, and the side to move flips. |
| Engine.UndoMove | everything_chess/chess_engine.py:42-48 | An empty log changes nothing. Otherwise the last move is dropped from the log, its captured cell returns to the end square, its moved piece returns to the start square, every other square is unchanged, and the turn flips back. |
| Engine.MakeUndoRoundTrip | everything_chess/chess_engine.py:35-48 | For a move built from the current board, making it and then undoing it restores the board, the turn and the log exactly. |
| Engine.ValidMoves | everything_chess/chess_engine.py:57-59 | Every offered move is built from the current board and starts on a piece of the side to move. |
| Engine.ValidMovesUndoable | everything_chess/chess_engine.py:35-59 | Every offered move can be made and undone without trace. |
| Engine.PickedMoveIsOffered | everything_chess/chess_engine.py:237-250 | A move built from two picked squares that equals an offered move by identity is that offered move, pieces included. |
| Engine.TurnMatchesLogPreserved | everything_chess/chess_engine.py:31-48 | If White is to move exactly when the log has even length, that stays true after any make and after any undo. |
| Engine.MakeMoves | everything_chess/chess_engine.py:35-39 | Making a sequence of moves appends them to the log in order. The turn flips once per move. |
| Engine.UndoMoves | everything_chess/chess_engine.py:42-48 | Undoing n moves, with n at most the log length, drops the last n log entries. |
| Engine.MakeUndoManyRoundTrip | everything_chess/chess_engine.py:35-48 | Suppose a sequence of moves is made, each built from the board it is made on. Undoing as many moves gives back the starting state. |
| Engine.InitialMoveCount | everything_chess/chess_engine.py:12-124 | In the starting position White has exactly 16 moves, a single and a double push for each pawn. |
| RookAsWritten.SharedBreakEndsAllRays | everything_chess/chess_engine.py:131-188 | Take a white rook on (4,4) with a white pawn on (3,4). The source's shared loop yields no move, while the corrected generator yields 10. |
| RookAsWritten.OrBoundRaises | everything_chess/chess_engine.py:142-166 | For a lone white rook on (4,4), the disjunctive bound admits row 8 and the source raises IndexError. The corrected generator yields 14 moves. |
| RookAsWritten.NegativeIndexWraps | everything_chess/chess_engine.py:142-155 | For a lone white rook on (0,0), the source reads row -1 as row 7 and offers the off-board destination (-1,0). The corrected generator yields the 14 on-board squares. |
| RookAsWritten.RookUnderPawnMoves | everything_chess/chess_engine.py:131-188 | The corrected rays give the rook under its own pawn three squares down, four left and three right. |
| RookAsWritten.LoneRookMoves | everything_chess/chess_engine.py:131-188 | The corrected rays give a lone rook on (4,4) all 14 squares of its row and column. |
| RookAsWritten.CornerRookMoves | everything_chess/chess_engine.py:131-188 | The corrected rays give a lone rook on (0,0) the 14 squares of row 0 and column 0. |

## Left out

- `everything_chess/chess_main.py` is not part of this model. It covers the window, images, mouse-to-square mapping, the event loop and drawing. Its use of the engine, building a `Move` from two clicked squares, testing `in valid_moves` and making it, is reflected in `Engine.PickedMoveIsOffered`.
- Castling, en passant, promotion, and check, checkmate and stalemate detection are absent from the source, so they are absent here too.
- Knight, bishop, queen and king movement is not modelled, because the source's generators for them are empty. The dispatch sends "K" to the knight generator, which makes its king branch unreachable and leaves "N" undispatched. All four are empty, so every such piece yields no move, as in `MoveGen.PieceMoves`.
- A pawn of the side to move on its far row (White on row 0, Black on row 7) is excluded by the requires `NoStrandedPawn`. It can arise because there is no promotion. The source would then read `board[-1]`, which Python wraps to row 7, for White, or raise `IndexError` reading `board[8]` for Black.
- Move coordinates outside 0..7 cannot be expressed: `Coord` is the range 0..7. In the source such a move would raise, wrap, or raise `KeyError` in the notation maps.
- `Move.__eq__` against a non-`Move` returns `False`. Dafny's typing makes that comparison impossible, so it is not modelled.
- Cells are a datatype, not the two-character strings "wP", "bR", "--". The map keys stay one-character strings, as in the source.
- The board, the log and the move list are immutable values, not lists mutated in place. In the pawn generator and the board scan, appending to `moves` becomes sequence concatenation in the same order.
- MoveGen.RookMoves: lists the up ray in full, then the down, left and right rays, while the source's single loop over the distance appends one square per direction on each pass, so its list interleaves the four directions. Only the set of moves is modelled, because callers only test membership in the list.
- `MoveGen.RookRay` keeps the source's per-square case split: an enemy piece is added and the ray goes on past it, because the source has no stop after a capture. The rook can therefore pass through enemy pieces. This is modelled as written, and `MoveGen.RookRayExact` states it.
- The commented-out dispatch table and the commented-out rook variant are not modelled.

## Findings

| source | as written | input that shows it | evidently intended | confidence | as-written member | corrected member |
|---|---|---|---|---|---|---|
| everything_chess/chess_engine.py:131-188 | All four directions share one loop, so a `break` on a friendly piece in one direction ends the other three too | White rook on (4,4), white pawn on (3,4), rest empty: no rook move | Each direction walks on its own, as the comments' per-square rule says: 10 moves | high, not executed | RookAsWritten.SharedBreakEndsAllRays | MoveGen.RookMovesExact |
| everything_chess/chess_engine.py:142-166 | The bound `0 <= r <= 8 or 0 <= c <= 8` is a disjunction with upper limit 8, so off-board squares pass it | Lone white rook on (4,4): the downward probe reads `board[8]` and raises IndexError | Row in 0..7 and column in 0..7: 14 moves | high, not executed | RookAsWritten.OrBoundRaises | MoveGen.RookRayExact |
| everything_chess/chess_engine.py:142-155 | Negative coordinates pass the same bound and Python wraps them to the other edge | Lone white rook on (0,0): the move to (-1,0) is offered, read from row 7 | Stop at the board's edge: 14 on-board moves | high, not executed | RookAsWritten.NegativeIndexWraps | MoveGen.RookMoves |
