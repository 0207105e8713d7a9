/**
 The game state: the board, whose turn it is, and the log of moves made.
 Moves are made and undone only through MakeMove and UndoMove; neither checks
 that the move is one the generator offers.
 */
module Engine {
  import opened Chessboard
  import opened ChessMove
  import MoveGen

  datatype GameState = GameState(board: Board, whiteToMove: bool, moveLog: seq<Move>)

  /** A new game: the starting position, White to move, nothing logged. */
  function Initial(): (g: GameState)
    ensures g.whiteToMove && g.moveLog == []
    ensures g.board == InitialBoard()
    ensures TurnMatchesLog(g)
  {
    GameState(InitialBoard(), true, [])
  }

  /**
   Empties the start square, puts the moved piece on the end square (the end
   square is written second, so it wins when the two coincide), logs the move
   and passes the turn.
   */
  function MakeMove(g: GameState, m: Move): (r: GameState)
    ensures r.board[m.endRow][m.endCol] == m.pieceMoved
    ensures (m.startRow != m.endRow || m.startCol != m.endCol) ==> r.board[m.startRow][m.startCol] == Empty
    ensures forall i, j | 0 <= i < 8 && 0 <= j < 8 && (i != m.startRow || j != m.startCol) && (i != m.endRow || j != m.endCol)
              :: r.board[i][j] == g.board[i][j]
    ensures r.moveLog == g.moveLog + [m]
    ensures r.whiteToMove == !g.whiteToMove
  {
    var cleared := Put(g.board, m.startRow, m.startCol, Empty);
    GameState(Put(cleared, m.endRow, m.endCol, m.pieceMoved), !g.whiteToMove, g.moveLog + [m])
  }

  /**
   Takes back the last logged move: its moved piece returns to its start
   square, then its captured cell is written back to its end square, and the
   turn passes back. With nothing logged, nothing changes.
   */
  function UndoMove(g: GameState): (r: GameState)
    ensures g.moveLog == [] ==> r == g
    ensures g.moveLog != [] ==>
      var m := g.moveLog[|g.moveLog| - 1];
      && r.moveLog == g.moveLog[..|g.moveLog| - 1]
      && r.whiteToMove == !g.whiteToMove
      && r.board[m.endRow][m.endCol] == m.pieceCaptured
      && ((m.startRow != m.endRow || m.startCol != m.endCol) ==> r.board[m.startRow][m.startCol] == m.pieceMoved)
      && forall i, j | 0 <= i < 8 && 0 <= j < 8 && (i != m.startRow || j != m.startCol) && (i != m.endRow || j != m.endCol)
           :: r.board[i][j] == g.board[i][j]
  {
    if |g.moveLog| == 0 then g
    else
      var m := g.moveLog[|g.moveLog| - 1];
      var restored := Put(g.board, m.startRow, m.startCol, m.pieceMoved);
      GameState(Put(restored, m.endRow, m.endCol, m.pieceCaptured), !g.whiteToMove, g.moveLog[..|g.moveLog| - 1])
  }

  /**
   Making a move that was built from the current board and then undoing it
   gives back the very same state: board, turn and log.
   */
  lemma MakeUndoRoundTrip(g: GameState, m: Move)
    requires ReadFrom(m, g.board)
    ensures UndoMove(MakeMove(g, m)) == g
  {
    var r := UndoMove(MakeMove(g, m));
    forall i, j | 0 <= i < 8 && 0 <= j < 8
      ensures r.board[i][j] == g.board[i][j]
    {
    }
    BoardExtensionality(r.board, g.board);
    assert (g.moveLog + [m])[..|g.moveLog|] == g.moveLog;
  }

  /** The moves the engine offers in a state whose side to move has no pawn on its far row. */
  function ValidMoves(g: GameState): (r: seq<Move>)
    requires MoveGen.NoStrandedPawn(g.board, g.whiteToMove)
    ensures forall m | m in r :: ReadFrom(m, g.board) && MoveGen.IsSidePiece(g.board, g.whiteToMove, m.startRow, m.startCol)
  {
    MoveGen.ValidMoves(g.board, g.whiteToMove)
  }

  /** Every move the engine offers can be made and taken back without trace. */
  lemma ValidMovesUndoable(g: GameState, m: Move)
    requires MoveGen.NoStrandedPawn(g.board, g.whiteToMove)
    requires m in ValidMoves(g)
    ensures UndoMove(MakeMove(g, m)) == g
  {
    MakeUndoRoundTrip(g, m);
  }

  /**
   A move built from two picked squares on the current board that equals
   (by identity) one of the offered moves is that offered move itself, so
   making it makes an offered move.
   */
  lemma PickedMoveIsOffered(g: GameState, startRow: Coord, startCol: Coord, endRow: Coord, endCol: Coord, v: Move)
    requires MoveGen.NoStrandedPawn(g.board, g.whiteToMove)
    requires v in ValidMoves(g)
    requires SameMove(NewMove(g.board, startRow, startCol, endRow, endCol), v)
    ensures NewMove(g.board, startRow, startCol, endRow, endCol) == v
  {
    SameMoveOnSameBoard(NewMove(g.board, startRow, startCol, endRow, endCol), v, g.board);
  }

  /** Whose turn it is follows from the number of moves logged: White after an even number. */
  predicate TurnMatchesLog(g: GameState) {
    g.whiteToMove <==> |g.moveLog| % 2 == 0
  }

  /** Making or undoing a move keeps the turn matching the log. */
  lemma TurnMatchesLogPreserved(g: GameState, m: Move)
    requires TurnMatchesLog(g)
    ensures TurnMatchesLog(MakeMove(g, m))
    ensures TurnMatchesLog(UndoMove(g))
  {
  }

  /** Makes the moves in order. */
  function MakeMoves(g: GameState, ms: seq<Move>): (r: GameState)
    ensures r.moveLog == g.moveLog + ms
    ensures r.whiteToMove == (g.whiteToMove <==> |ms| % 2 == 0)
    decreases |ms|
  {
    if ms == [] then g
    else
      assert g.moveLog + ms == (g.moveLog + [ms[0]]) + ms[1..];
      MakeMoves(MakeMove(g, ms[0]), ms[1..])
  }

  /** Each move in turn is built from the board it will be made on. */
  predicate Replayable(g: GameState, ms: seq<Move>)
    decreases |ms|
  {
    ms == [] || (ReadFrom(ms[0], g.board) && Replayable(MakeMove(g, ms[0]), ms[1..]))
  }

  /** Undoes the last `n` moves. */
  function UndoMoves(g: GameState, n: nat): (r: GameState)
    ensures n <= |g.moveLog| ==> r.moveLog == g.moveLog[..|g.moveLog| - n]
    decreases n
  {
    if n == 0 then g else UndoMoves(UndoMove(g), n - 1)
  }

  /**
   Making a sequence of moves, each built from the board it is made on, and
   then undoing as many moves gives back the state the game started from.
   */
  lemma {:induction false} MakeUndoManyRoundTrip(g: GameState, ms: seq<Move>)
    requires Replayable(g, ms)
    ensures UndoMoves(MakeMoves(g, ms), |ms|) == g
    decreases |ms|
  {
    if ms != [] {
      var g1 := MakeMove(g, ms[0]);
      var last := MakeMoves(g1, ms[1..]);
      assert MakeMoves(g, ms) == last;
      MakeUndoManyRoundTrip(g1, ms[1..]);
      UndoMovesSplit(last, |ms| - 1);
      MakeUndoRoundTrip(g, ms[0]);
      assert UndoMoves(last, |ms|) == UndoMove(g1);
    }
  }

  /** Undoing n + 1 moves is undoing n moves and then one more. */
  lemma {:induction false} UndoMovesSplit(g: GameState, n: nat)
    ensures UndoMoves(g, n + 1) == UndoMove(UndoMoves(g, n))
    decreases n
  {
    if n > 0 {
      UndoMovesSplit(UndoMove(g), n - 1);
    }
  }

  /**
   In the starting position White has sixteen moves: a single and a double
   push for each pawn. The rooks are boxed in by their own pieces, and the
   knights, bishops, queen and king have no generator.
   */
  lemma InitialMoveCount()
    ensures MoveGen.NoStrandedPawn(Initial().board, true)
    ensures |ValidMoves(Initial())| == 16
  {
    InitialMovesFrom(0);
  }

  /** Counting White's moves in the starting position from row-major square `k` on. */
  lemma {:induction false} InitialMovesFrom(k: int)
    requires 0 <= k <= 64
    ensures MoveGen.NoStrandedPawn(InitialBoard(), true)
    ensures |MoveGen.MovesFrom(InitialBoard(), true, k)| == if k <= 48 then 16 else if k <= 56 then 2 * (56 - k) else 0
    decreases 64 - k
  {
    InitialNoStrandedPawn();
    if k < 64 {
      MoveGen.MovesFromLength(InitialBoard(), true, k);
      InitialMovesFrom(k + 1);
      InitialSquareMoves(k / 8, k % 8);
      assert (k / 8 == 6) == (48 <= k < 56);
    }
  }

  /** No white pawn stands on row 0 of the starting position. */
  lemma InitialNoStrandedPawn()
    ensures MoveGen.NoStrandedPawn(InitialBoard(), true)
  {
  }

  /** In the starting position each white pawn has two moves and every other square none. */
  lemma InitialSquareMoves(row: Coord, col: Coord)
    ensures MoveGen.NoStrandedPawn(InitialBoard(), true)
    ensures |MoveGen.SquareMoves(InitialBoard(), true, row, col)| == if row == 6 then 2 else 0
  {
    var b := InitialBoard();
    InitialNoStrandedPawn();
    if row == 6 {
      InitialPawnMoves(col);
    } else if row == 7 && (col == 0 || col == 7) {
      InitialRookMoves(col);
    } else if row == 7 {
      assert b[7][col].kind !in {Pawn, Rook};
    } else {
      assert !MoveGen.IsSidePiece(b, true, row, col);
    }
  }

  /** A white pawn in the starting position has its single and double push and no capture. */
  lemma InitialPawnMoves(col: Coord)
    ensures |MoveGen.PawnMoves(InitialBoard(), true, 6, col)| == 2
  {
    var b := InitialBoard();
    assert b[5][col] == Empty && b[4][col] == Empty;
    assert col > 0 ==> b[5][col - 1] == Empty;
    assert col < 7 ==> b[5][col + 1] == Empty;
  }

  /** A white rook in the starting position is boxed in by its own pawn and knight. */
  lemma InitialRookMoves(col: Coord)
    requires col == 0 || col == 7
    ensures MoveGen.RookMoves(InitialBoard(), true, 7, col) == []
  {
    var b := InitialBoard();
    assert b[6][col] == Piece(White, Pawn);
    assert b[7][1] == Piece(White, Knight) && b[7][6] == Piece(White, Knight);
  }
}
