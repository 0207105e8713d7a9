/**
 The rook generator exactly as the source's loop is written, kept beside the
 corrected generator in MoveGen to exhibit where the two part ways. Here the
 four directions share one loop over i = 1..7; in each iteration they are tried
 in the order up, down, left, right; the bound test is a disjunction with an
 upper limit of 8; list indexing follows Python (a negative index counts from
 the end, an index of 8 or more raises); and a `break` in any direction leaves
 the shared loop. Destinations are bare coordinate pairs because they need not
 lie on the board.
 */
module RookAsWritten {
  import opened Chessboard
  import MoveGen

  /** The destinations collected before the loop ended, or the IndexError that ended it. */
  datatype Outcome = Collected(targets: seq<(int, int)>) | IndexError

  /** Python list indexing on a list of eight: -8..7 is accepted. */
  predicate PyIndexable(i: int) {
    -8 <= i < 8
  }

  function PyIndex(i: int): Coord
    requires PyIndexable(i)
  {
    if i < 0 then i + 8 else i
  }

  /** What one direction does with its square: add it, break out of the loop, or raise. */
  datatype Probe = Add | Break | Raise

  function ProbeSquare(b: Board, whiteToMove: bool, row: int, col: int): Probe {
    if !(0 <= row <= 8 || 0 <= col <= 8) then Break  // the `else: break` of the bound test
    else if !PyIndexable(row) || !PyIndexable(col) then Raise
    else
      var cell := b[PyIndex(row)][PyIndex(col)];
      if cell == Empty then Add
      else if HasColor(cell, EnemyColor(whiteToMove)) then Add
      else Break
  }

  /** The square direction `d` (0 up, 1 down, 2 left, 3 right) looks at in iteration `i`. */
  function Probed(row: int, col: int, i: int, d: int): (int, int) {
    if d == 0 then (row - i, col)
    else if d == 1 then (row + i, col)
    else if d == 2 then (row, col - i)
    else (row, col + i)
  }

  /** The shared loop, from direction `d` of iteration `i` on. */
  function Loop(b: Board, whiteToMove: bool, row: int, col: int, i: int, d: int, acc: seq<(int, int)>): Outcome
    requires 1 <= i <= 8 && 0 <= d <= 4
    decreases 8 - i, 4 - d
  {
    if i == 8 then Collected(acc)
    else if d == 4 then Loop(b, whiteToMove, row, col, i + 1, 0, acc)
    else
      var sq := Probed(row, col, i, d);
      match ProbeSquare(b, whiteToMove, sq.0, sq.1)
      case Break => Collected(acc)
      case Raise => IndexError
      case Add => Loop(b, whiteToMove, row, col, i, d + 1, acc + [sq])
  }

  function RookMovesAsWritten(b: Board, whiteToMove: bool, row: Coord, col: Coord): Outcome {
    Loop(b, whiteToMove, row, col, 1, 0, [])
  }

  /** An otherwise empty board with a white rook on (4, 4). */
  function LoneRook(): Board {
    seq(8, i => seq(8, j => if i == 4 && j == 4 then Piece(White, Rook) else Empty))
  }

  /** The lone rook of LoneRook, with a white pawn just above it on (3, 4). */
  function RookUnderPawn(): Board {
    seq(8, i => seq(8, j =>
      if i == 4 && j == 4 then Piece(White, Rook)
      else if i == 3 && j == 4 then Piece(White, Pawn)
      else Empty))
  }

  /** An otherwise empty board with a white rook in the corner (0, 0). */
  function CornerRook(): Board {
    seq(8, i => seq(8, j => if i == 0 && j == 0 then Piece(White, Rook) else Empty))
  }

  /**
   A friendly piece directly above the rook breaks the shared loop in its first
   direction, so the source yields no move at all, while the rook can still
   go down, left and right: ten moves.
   */
  lemma SharedBreakEndsAllRays()
    ensures RookMovesAsWritten(RookUnderPawn(), true, 4, 4) == Collected([])
    ensures |MoveGen.RookMoves(RookUnderPawn(), true, 4, 4)| == 10
  {
    var b := RookUnderPawn();
    assert ProbeSquare(b, true, 3, 4) == Break;
    RookUnderPawnMoves();
  }

  /** The corrected generator gives the rook under its own pawn its three squares down, four left and three right. */
  lemma RookUnderPawnMoves()
    ensures |MoveGen.RookMoves(RookUnderPawn(), true, 4, 4)| == 10
  {
    var b := RookUnderPawn();
    assert MoveGen.FriendlyAt(b, true, 3, 4);
    assert MoveGen.RookRay(b, true, 4, 4, -1, 0, 1) == [];
    UnderPawnRay(1, 0, 3);
    UnderPawnRay(0, -1, 4);
    UnderPawnRay(0, 1, 3);
  }

  /** Down, left and right of the rook under its pawn the board is empty up to the edge. */
  lemma UnderPawnRay(dr: int, dc: int, n: int)
    requires (dr == 1 && dc == 0 && n == 3) || (dr == 0 && dc == -1 && n == 4) || (dr == 0 && dc == 1 && n == 3)
    ensures |MoveGen.RookRay(RookUnderPawn(), true, 4, 4, dr, dc, 1)| == n
  {
    var b := RookUnderPawn();
    forall k | 1 <= k <= n
      ensures EmptyAt(b, MoveGen.Step(4, dr, k), MoveGen.Step(4, dc, k))
    {
    }
    RayLength(b, 4, 4, dr, dc, n);
  }

  /** Every square but (row, col) is empty. */
  predicate OnlyPieceAt(b: Board, row: int, col: int) {
    forall i, j | 0 <= i < 8 && 0 <= j < 8 && (i != row || j != col) :: b[i][j] == Empty
  }

  predicate EmptyAt(b: Board, row: int, col: int) {
    OnBoard(row, col) && b[row][col] == Empty
  }

  /** When all four directions add their square, iteration `i` of the loop collects the four and moves on. */
  lemma FullRound(b: Board, whiteToMove: bool, row: int, col: int, i: int, acc: seq<(int, int)>)
    requires 1 <= i < 8
    requires ProbeSquare(b, whiteToMove, row - i, col) == Add && ProbeSquare(b, whiteToMove, row + i, col) == Add
    requires ProbeSquare(b, whiteToMove, row, col - i) == Add && ProbeSquare(b, whiteToMove, row, col + i) == Add
    ensures Loop(b, whiteToMove, row, col, i, 0, acc)
         == Loop(b, whiteToMove, row, col, i + 1, 0,
                 acc + [Probed(row, col, i, 0), Probed(row, col, i, 1), Probed(row, col, i, 2), Probed(row, col, i, 3)])
  {
    var p := seq(4, d => Probed(row, col, i, d));
    assert ProbeSquare(b, whiteToMove, p[0].0, p[0].1) == Add;
    assert ProbeSquare(b, whiteToMove, p[1].0, p[1].1) == Add;
    assert ProbeSquare(b, whiteToMove, p[2].0, p[2].1) == Add;
    assert ProbeSquare(b, whiteToMove, p[3].0, p[3].1) == Add;
    assert Loop(b, whiteToMove, row, col, i, 0, acc) == Loop(b, whiteToMove, row, col, i, 1, acc + [p[0]]);
    assert Loop(b, whiteToMove, row, col, i, 1, acc + [p[0]]) == Loop(b, whiteToMove, row, col, i, 2, acc + [p[0]] + [p[1]]);
    assert Loop(b, whiteToMove, row, col, i, 2, acc + [p[0]] + [p[1]])
        == Loop(b, whiteToMove, row, col, i, 3, acc + [p[0]] + [p[1]] + [p[2]]);
    assert Loop(b, whiteToMove, row, col, i, 3, acc + [p[0]] + [p[1]] + [p[2]])
        == Loop(b, whiteToMove, row, col, i, 4, acc + [p[0]] + [p[1]] + [p[2]] + [p[3]]);
    assert acc + [p[0]] + [p[1]] + [p[2]] + [p[3]] == acc + [p[0], p[1], p[2], p[3]];
  }

  /**
   On a board empty along the ray, the ray runs to the edge: `n` moves when
   the edge is `n` squares away.
   */
  lemma {:induction false} RayLength(b: Board, row: Coord, col: Coord, dr: int, dc: int, n: int)
    requires MoveGen.RookDirection(dr, dc) && 0 <= n <= 7
    requires !OnBoard(MoveGen.Step(row, dr, n + 1), MoveGen.Step(col, dc, n + 1))
    requires forall k | 1 <= k <= n :: EmptyAt(b, MoveGen.Step(row, dr, k), MoveGen.Step(col, dc, k))
    ensures |MoveGen.RookRay(b, true, row, col, dr, dc, 1)| == n
  {
    RayLengthFrom(b, row, col, dr, dc, n, 1);
  }

  /** A rook alone on the board runs each ray to the edge. */
  lemma LoneRayLength(b: Board, row: Coord, col: Coord, dr: int, dc: int, n: int)
    requires MoveGen.RookDirection(dr, dc) && 0 <= n <= 7
    requires OnlyPieceAt(b, row, col)
    requires OnBoard(MoveGen.Step(row, dr, n), MoveGen.Step(col, dc, n))
    requires !OnBoard(MoveGen.Step(row, dr, n + 1), MoveGen.Step(col, dc, n + 1))
    ensures |MoveGen.RookRay(b, true, row, col, dr, dc, 1)| == n
  {
    forall k | 1 <= k <= n
      ensures EmptyAt(b, MoveGen.Step(row, dr, k), MoveGen.Step(col, dc, k))
    {
    }
    RayLength(b, row, col, dr, dc, n);
  }

  lemma {:induction false} RayLengthFrom(b: Board, row: Coord, col: Coord, dr: int, dc: int, n: int, k: int)
    requires MoveGen.RookDirection(dr, dc) && 0 <= n <= 7 && 1 <= k <= n + 1
    requires !OnBoard(MoveGen.Step(row, dr, n + 1), MoveGen.Step(col, dc, n + 1))
    requires forall k | 1 <= k <= n :: EmptyAt(b, MoveGen.Step(row, dr, k), MoveGen.Step(col, dc, k))
    ensures |MoveGen.RookRay(b, true, row, col, dr, dc, k)| == n + 1 - k
    decreases n + 1 - k
  {
    if k <= n {
      RayLengthFrom(b, row, col, dr, dc, n, k + 1);
    }
  }

  /**
   With the bound a disjunction up to 8, the downward square (8, 4) passes the
   test once the upward walk has reached row 0, and reading row 8 raises; the
   four independent rays give the lone rook its fourteen moves.
   */
  lemma OrBoundRaises()
    ensures RookMovesAsWritten(LoneRook(), true, 4, 4) == IndexError
    ensures |MoveGen.RookMoves(LoneRook(), true, 4, 4)| == 14
  {
    var b := LoneRook();
    assert RookMovesAsWritten(b, true, 4, 4) == Loop(b, true, 4, 4, 1, 0, []);
    var acc1 := [(3, 4), (5, 4), (4, 3), (4, 5)];
    assert [] + acc1 == acc1;
    var acc2 := acc1 + [(2, 4), (6, 4), (4, 2), (4, 6)];
    var acc3 := acc2 + [(1, 4), (7, 4), (4, 1), (4, 7)];
    FullRound(b, true, 4, 4, 1, []);
    FullRound(b, true, 4, 4, 2, acc1);
    assert b[1][4] == Empty && b[7][4] == Empty && b[4][1] == Empty && b[4][7] == Empty;
    FullRound(b, true, 4, 4, 3, acc2);
    LoneRookFourthRound(acc3);
    LoneRookMoves();
  }

  /** In the fourth round the upward square (0, 4) is added and the downward square (8, 4) raises. */
  lemma LoneRookFourthRound(acc: seq<(int, int)>)
    ensures Loop(LoneRook(), true, 4, 4, 4, 0, acc) == IndexError
  {
    var b := LoneRook();
    assert b[0][4] == Empty;
    assert ProbeSquare(b, true, 0, 4) == Add;
    assert ProbeSquare(b, true, 8, 4) == Raise;
    assert Loop(b, true, 4, 4, 4, 1, acc + [(0, 4)]) == IndexError;
  }

  /** The corrected generator gives the lone rook on (4, 4) all fourteen squares of its row and column. */
  lemma LoneRookMoves()
    ensures |MoveGen.RookMoves(LoneRook(), true, 4, 4)| == 14
  {
    var b := LoneRook();
    assert OnlyPieceAt(b, 4, 4);
    LoneRayLength(b, 4, 4, -1, 0, 4);
    LoneRayLength(b, 4, 4, 1, 0, 3);
    LoneRayLength(b, 4, 4, 0, -1, 4);
    LoneRayLength(b, 4, 4, 0, 1, 3);
  }

  /**
   A rook in the corner looks at row -1, which Python reads as row 7, so the
   source offers the off-board destination (-1, 0); the corrected rays stop
   at the edge and give the fourteen squares of row 0 and column 0.
   */
  lemma NegativeIndexWraps()
    ensures RookMovesAsWritten(CornerRook(), true, 0, 0).Collected?
    ensures (-1, 0) in RookMovesAsWritten(CornerRook(), true, 0, 0).targets
    ensures |MoveGen.RookMoves(CornerRook(), true, 0, 0)| == 14
  {
    var b := CornerRook();
    var start := [(-1, 0), (1, 0), (0, -1), (0, 1)];
    assert RookMovesAsWritten(b, true, 0, 0) == Loop(b, true, 0, 0, 1, 0, []);
    assert b[7][0] == Empty && b[1][0] == Empty && b[0][7] == Empty && b[0][1] == Empty;
    FullRound(b, true, 0, 0, 1, []);
    assert [] + start == start;
    assert start[0] == (-1, 0);
    CornerLoopKeepsCollected(b, 2, 0, start);
    CornerRookMoves();
  }

  /** The corrected generator gives the corner rook the fourteen squares of row 0 and column 0. */
  lemma CornerRookMoves()
    ensures |MoveGen.RookMoves(CornerRook(), true, 0, 0)| == 14
  {
    var b := CornerRook();
    assert OnlyPieceAt(b, 0, 0);
    LoneRayLength(b, 0, 0, -1, 0, 0);
    LoneRayLength(b, 0, 0, 1, 0, 7);
    LoneRayLength(b, 0, 0, 0, -1, 0);
    LoneRayLength(b, 0, 0, 0, 1, 7);
  }

  /** From the corner (0, 0) every square the loop probes can be indexed, so it never raises and keeps what it collected. */
  lemma {:induction false} CornerLoopKeepsCollected(b: Board, i: int, d: int, acc: seq<(int, int)>)
    requires 1 <= i <= 8 && 0 <= d <= 4
    ensures Loop(b, true, 0, 0, i, d, acc).Collected?
    ensures acc <= Loop(b, true, 0, 0, i, d, acc).targets
    decreases 8 - i, 4 - d
  {
    if i < 8 {
      if d == 4 {
        CornerLoopKeepsCollected(b, i + 1, 0, acc);
      } else {
        var sq := Probed(0, 0, i, d);
        if ProbeSquare(b, true, sq.0, sq.1) == Add {
          CornerLoopKeepsCollected(b, i, d + 1, acc + [sq]);
        }
      }
    }
  }
}
