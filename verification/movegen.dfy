/**
 Pseudo-move generation: the pawn and rook generators, the per-piece dispatch,
 and the scan of the whole board for the side to move. No move is checked
 for leaving the mover's king attacked.
 */
module MoveGen {
  import opened Chessboard
  import opened ChessMove

  /** The side to move owns the piece on the cell. */
  predicate Friendly(c: Cell, whiteToMove: bool) {
    HasColor(c, SideColor(whiteToMove))
  }

  /** The square is on the board and holds a piece of the side to move. */
  predicate FriendlyAt(b: Board, whiteToMove: bool, row: int, col: int) {
    OnBoard(row, col) && Friendly(b[row][col], whiteToMove)
  }

  /** A move that starts at the given square and was built from `b`. */
  predicate BuiltAt(m: Move, b: Board, row: Coord, col: Coord) {
    m.startRow == row && m.startCol == col && ReadFrom(m, b)
  }

  // ---------------------------------------------------------------- pawns

  /** The row step of the side to move's pawns: White goes toward row 0, Black toward row 7. */
  function Forward(whiteToMove: bool): int {
    if whiteToMove then -1 else 1
  }

  /** The row a pawn of the side to move starts on, the only one it may push two squares from. */
  function PawnHomeRow(whiteToMove: bool): Coord {
    if whiteToMove then 6 else 1
  }

  /**
   The square ahead of a pawn on `row` is on the board. The generator reads it
   unguarded, so a white pawn on row 0 or a black pawn on row 7 cannot be given to it.
   */
  predicate HasRowAhead(whiteToMove: bool, row: int) {
    if whiteToMove then row >= 1 else row <= 6
  }

  /**
   Where a pawn of the side to move standing on (row, col) may go, stated by
   the shape of the step: one row forward onto an empty square; two rows
   forward from the home row across two empty squares; or one row forward and
   one column sideways onto a piece of the opponent.
   */
  predicate PawnTarget(b: Board, whiteToMove: bool, row: Coord, col: Coord, endRow: Coord, endCol: Coord)
    requires HasRowAhead(whiteToMove, row)
  {
    var f := Forward(whiteToMove);
    var ahead := row + f;
    || (endRow - row == f && endCol == col && b[endRow][endCol] == Empty)
    || (endRow - row == 2 * f && endCol == col && row == PawnHomeRow(whiteToMove)
        && b[ahead][col] == Empty && b[endRow][endCol] == Empty)
    || (endRow - row == f && (endCol - col == 1 || col - endCol == 1)
        && HasColor(b[endRow][endCol], EnemyColor(whiteToMove)))
  }

  /**
   The pawn generator. The source writes a White branch and a Black branch that
   differ only in the row step, the home row and the enemy colour; both append
   in the order single push, double push, capture to column - 1, capture to column + 1.
   */
  function PawnMoves(b: Board, whiteToMove: bool, row: Coord, col: Coord): (r: seq<Move>)
    requires HasRowAhead(whiteToMove, row)
    ensures |r| <= 4
    ensures forall m | m in r :: BuiltAt(m, b, row, col) && PawnTarget(b, whiteToMove, row, col, m.endRow, m.endCol)
  {
    var f := Forward(whiteToMove);
    var ahead: Coord := row + f;
    var enemy := EnemyColor(whiteToMove);
    var pushes :=
      if b[ahead][col] == Empty then
        [NewMove(b, row, col, ahead, col)]
        + (if row == PawnHomeRow(whiteToMove) && b[ahead + f][col] == Empty
           then [NewMove(b, row, col, ahead + f, col)] else [])
      else [];
    var left :=
      if col - 1 >= 0 && HasColor(b[ahead][col - 1], enemy)
      then [NewMove(b, row, col, ahead, col - 1)] else [];
    var right :=
      if col + 1 <= 7 && HasColor(b[ahead][col + 1], enemy)
      then [NewMove(b, row, col, ahead, col + 1)] else [];
    pushes + left + right
  }

  /** The pawn generator produces exactly the moves from (row, col) to its targets, each built from `b`. */
  lemma PawnMovesExact(b: Board, whiteToMove: bool, row: Coord, col: Coord, m: Move)
    requires HasRowAhead(whiteToMove, row)
    ensures m in PawnMoves(b, whiteToMove, row, col)
        <==> BuiltAt(m, b, row, col) && PawnTarget(b, whiteToMove, row, col, m.endRow, m.endCol)
  {
    if BuiltAt(m, b, row, col) && PawnTarget(b, whiteToMove, row, col, m.endRow, m.endCol) {
      if m.endCol == col {
        PawnPushIsGenerated(b, whiteToMove, row, col, m);
      } else {
        PawnCaptureIsGenerated(b, whiteToMove, row, col, m);
      }
    }
  }

  /** A push to a pawn target is among the generated moves. */
  lemma PawnPushIsGenerated(b: Board, whiteToMove: bool, row: Coord, col: Coord, m: Move)
    requires HasRowAhead(whiteToMove, row)
    requires BuiltAt(m, b, row, col) && PawnTarget(b, whiteToMove, row, col, m.endRow, m.endCol)
    requires m.endCol == col
    ensures m in PawnMoves(b, whiteToMove, row, col)
  {
    var ahead: Coord := row + Forward(whiteToMove);
    var r := PawnMoves(b, whiteToMove, row, col);
    assert m == NewMove(b, row, col, m.endRow, col);
    assert b[ahead][col] == Empty;
    var single := [NewMove(b, row, col, ahead, col)];
    if m.endRow == ahead {
      assert r == single + r[1..];
    } else {
      assert r == single + [m] + r[2..];
    }
  }

  /** A diagonal capture onto an enemy piece is among the generated moves. */
  lemma PawnCaptureIsGenerated(b: Board, whiteToMove: bool, row: Coord, col: Coord, m: Move)
    requires HasRowAhead(whiteToMove, row)
    requires BuiltAt(m, b, row, col) && PawnTarget(b, whiteToMove, row, col, m.endRow, m.endCol)
    requires m.endCol != col
    ensures m in PawnMoves(b, whiteToMove, row, col)
  {
    var ahead: Coord := row + Forward(whiteToMove);
    assert m == NewMove(b, row, col, ahead, m.endCol);
    assert HasColor(b[ahead][m.endCol], EnemyColor(whiteToMove));
  }

  /**
   A pawn whose square ahead is occupied, by a piece of either colour, has no
   forward move at all, whatever is on the square two ahead.
   */
  lemma BlockedPawnHasNoPush(b: Board, whiteToMove: bool, row: Coord, col: Coord)
    requires HasRowAhead(whiteToMove, row)
    requires b[row + Forward(whiteToMove)][col] != Empty
    ensures forall m | m in PawnMoves(b, whiteToMove, row, col) :: m.endCol != col
  {
  }

  /**
   A pawn on its home row with both squares ahead empty has both its single
   and its double push.
   */
  lemma HomePawnHasBothPushes(b: Board, whiteToMove: bool, col: Coord)
    requires b[PawnHomeRow(whiteToMove) + Forward(whiteToMove)][col] == Empty
    requires b[PawnHomeRow(whiteToMove) + 2 * Forward(whiteToMove)][col] == Empty
    ensures var row := PawnHomeRow(whiteToMove);
            && NewMove(b, row, col, row + Forward(whiteToMove), col) in PawnMoves(b, whiteToMove, row, col)
            && NewMove(b, row, col, row + 2 * Forward(whiteToMove), col) in PawnMoves(b, whiteToMove, row, col)
  {
  }

  // ---------------------------------------------------------------- rooks

  /** One of the four rook directions: a unit step along a row or along a column. */
  predicate RookDirection(dr: int, dc: int) {
    (dr == 0 && (dc == 1 || dc == -1)) || (dc == 0 && (dr == 1 || dr == -1))
  }

  /** The coordinate `x` moved `j` unit steps in the direction of the sign of `d`. */
  function Step(x: int, d: int, j: int): int {
    if d > 0 then x + j else if d < 0 then x - j else x
  }

  /** How many unit steps in the direction of the sign of `d` lead from `x` to `y`. */
  function Delta(x: int, y: int, d: int): int {
    if d > 0 then y - x else if d < 0 then x - y else 0
  }

  /** How many (dr, dc) steps separate (row, col) from (endRow, endCol), read along the moving coordinate. */
  function StepsAlong(row: int, col: int, dr: int, dc: int, endRow: int, endCol: int): int
    requires RookDirection(dr, dc)
  {
    if dr != 0 then Delta(row, endRow, dr) else Delta(col, endCol, dc)
  }

  /** (endRow, endCol) lies on the ray from (row, col) in direction (dr, dc), at least `k` steps out. */
  predicate OnRay(row: int, col: int, dr: int, dc: int, endRow: int, endCol: int, k: int)
    requires RookDirection(dr, dc)
  {
    var d := StepsAlong(row, col, dr, dc, endRow, endCol);
    d >= k && endRow == Step(row, dr, d) && endCol == Step(col, dc, d)
  }

  /** The square `j` steps out on the ray holds a piece of the side to move. */
  predicate FriendlyOnRay(b: Board, whiteToMove: bool, row: int, col: int, dr: int, dc: int, j: int) {
    FriendlyAt(b, whiteToMove, Step(row, dr, j), Step(col, dc, j))
  }

  /** No square from `lo` to `hi` steps out on the ray holds a piece of the side to move. */
  predicate ClearBetween(b: Board, whiteToMove: bool, row: int, col: int, dr: int, dc: int, lo: int, hi: int) {
    forall j | lo <= j <= hi :: !FriendlyOnRay(b, whiteToMove, row, col, dr, dc, j)
  }

  /**
   The rook's walk along one direction, from the square `k` steps out.
   This is one of the four independent rays the source's comments describe:
   the walk stops as soon as the square leaves the board (both coordinates are
   tested, and together: row in 0..7 and column in 0..7), adds an empty square
   and goes on, adds a square holding an enemy piece and also goes on (the
   source's case split has no stop after a capture), and stops without adding
   at a friendly piece. The source instead drives all four directions from one
   shared loop and bounds it with `or` and an upper limit of 8; that loop is
   modelled, as written, in RookAsWritten.
   */
  function RookRay(b: Board, whiteToMove: bool, row: Coord, col: Coord, dr: int, dc: int, k: int): (r: seq<Move>)
    requires RookDirection(dr, dc) && 1 <= k
    ensures |r| <= 8 - k || (k >= 8 && r == [])
    ensures forall m | m in r ::
      && BuiltAt(m, b, row, col)
      && OnRay(row, col, dr, dc, m.endRow, m.endCol, k)
      && !Friendly(b[m.endRow][m.endCol], whiteToMove)
    decreases 8 - k
  {
    if k >= 8 then []  // the source's range(1, 8)
    else
      var endRow := Step(row, dr, k);
      var endCol := Step(col, dc, k);
      if !OnBoard(endRow, endCol) then []
      else if b[endRow][endCol] == Empty then
        [NewMove(b, row, col, endRow, endCol)] + RookRay(b, whiteToMove, row, col, dr, dc, k + 1)
      else if HasColor(b[endRow][endCol], EnemyColor(whiteToMove)) then
        [NewMove(b, row, col, endRow, endCol)] + RookRay(b, whiteToMove, row, col, dr, dc, k + 1)
      else []
  }

  /**
   The ray from step `k` on holds exactly the moves built from `b` that end on
   the ray at least `k` steps out with no friendly piece from step `k` up to
   and including their end square.
   */
  lemma RookRayExact(b: Board, whiteToMove: bool, row: Coord, col: Coord, dr: int, dc: int, k: int, m: Move)
    requires RookDirection(dr, dc) && 1 <= k
    ensures m in RookRay(b, whiteToMove, row, col, dr, dc, k)
        <==> && BuiltAt(m, b, row, col)
             && OnRay(row, col, dr, dc, m.endRow, m.endCol, k)
             && ClearBetween(b, whiteToMove, row, col, dr, dc, k, StepsAlong(row, col, dr, dc, m.endRow, m.endCol))
  {
    if m in RookRay(b, whiteToMove, row, col, dr, dc, k) {
      RookRaySound(b, whiteToMove, row, col, dr, dc, k, m);
    }
    if BuiltAt(m, b, row, col) && OnRay(row, col, dr, dc, m.endRow, m.endCol, k)
       && ClearBetween(b, whiteToMove, row, col, dr, dc, k, StepsAlong(row, col, dr, dc, m.endRow, m.endCol)) {
      RookRayComplete(b, whiteToMove, row, col, dr, dc, k, m);
    }
  }

  /** Every square on the ray from step `k` up to a produced move's end square is free of friendly pieces. */
  lemma {:induction false} RookRaySound(b: Board, whiteToMove: bool, row: Coord, col: Coord, dr: int, dc: int, k: int, m: Move)
    requires RookDirection(dr, dc) && 1 <= k
    requires m in RookRay(b, whiteToMove, row, col, dr, dc, k)
    ensures ClearBetween(b, whiteToMove, row, col, dr, dc, k, StepsAlong(row, col, dr, dc, m.endRow, m.endCol))
    decreases 8 - k
  {
    var d := StepsAlong(row, col, dr, dc, m.endRow, m.endCol);
    RookRayStep(b, whiteToMove, row, col, dr, dc, k);
    if m == NewMove(b, row, col, Step(row, dr, k), Step(col, dc, k)) {
      StepsAlongStep(row, col, dr, dc, k);
    } else {
      RookRaySound(b, whiteToMove, row, col, dr, dc, k + 1, m);
    }
    forall j | k <= j <= d
      ensures !FriendlyOnRay(b, whiteToMove, row, col, dr, dc, j)
    {
    }
  }

  /** A ray that is not empty adds its first square, which is on the board and not friendly, and goes on. */
  lemma RookRayStep(b: Board, whiteToMove: bool, row: Coord, col: Coord, dr: int, dc: int, k: int)
    requires RookDirection(dr, dc) && 1 <= k
    requires RookRay(b, whiteToMove, row, col, dr, dc, k) != []
    ensures k < 8 && OnBoard(Step(row, dr, k), Step(col, dc, k))
    ensures !FriendlyOnRay(b, whiteToMove, row, col, dr, dc, k)
    ensures RookRay(b, whiteToMove, row, col, dr, dc, k)
         == [NewMove(b, row, col, Step(row, dr, k), Step(col, dc, k))] + RookRay(b, whiteToMove, row, col, dr, dc, k + 1)
  {
  }

  /** The square `k` steps out is `k` steps out. */
  lemma StepsAlongStep(row: int, col: int, dr: int, dc: int, k: int)
    requires RookDirection(dr, dc)
    ensures StepsAlong(row, col, dr, dc, Step(row, dr, k), Step(col, dc, k)) == k
  {
  }

  /** Every square on the ray from step `k` on, up to the first friendly piece, is produced. */
  lemma {:induction false} RookRayComplete(b: Board, whiteToMove: bool, row: Coord, col: Coord, dr: int, dc: int, k: int, m: Move)
    requires RookDirection(dr, dc) && 1 <= k
    requires BuiltAt(m, b, row, col) && OnRay(row, col, dr, dc, m.endRow, m.endCol, k)
    requires ClearBetween(b, whiteToMove, row, col, dr, dc, k, StepsAlong(row, col, dr, dc, m.endRow, m.endCol))
    ensures m in RookRay(b, whiteToMove, row, col, dr, dc, k)
    decreases 8 - k
  {
    var endRow := Step(row, dr, k);
    var endCol := Step(col, dc, k);
    var d := StepsAlong(row, col, dr, dc, m.endRow, m.endCol);
    RayWithinBoard(row, col, dr, dc, m.endRow, m.endCol, k);
    assert !FriendlyOnRay(b, whiteToMove, row, col, dr, dc, k);
    var first := NewMove(b, row, col, endRow, endCol);
    assert RookRay(b, whiteToMove, row, col, dr, dc, k) == [first] + RookRay(b, whiteToMove, row, col, dr, dc, k + 1);
    if d != k {
      assert OnRay(row, col, dr, dc, m.endRow, m.endCol, k + 1);
      RookRayComplete(b, whiteToMove, row, col, dr, dc, k + 1, m);
    }
  }

  /** A square of the board on the ray from a square of the board is at most 7 steps out, and so is every square before it. */
  lemma RayWithinBoard(row: Coord, col: Coord, dr: int, dc: int, endRow: Coord, endCol: Coord, k: int)
    requires RookDirection(dr, dc)
    requires OnRay(row, col, dr, dc, endRow, endCol, k)
    ensures StepsAlong(row, col, dr, dc, endRow, endCol) <= 7
    ensures k <= 7 ==> 0 <= k ==> OnBoard(Step(row, dr, k), Step(col, dc, k))
  {
  }

  function Sign(x: int): int {
    if x > 0 then 1 else if x < 0 then -1 else 0
  }

  /**
   Where a rook of the side to move standing on (row, col) may go: a different
   square in the same row or the same column, such that no square from the
   first step up to and including the destination holds a friendly piece.
   */
  predicate RookTarget(b: Board, whiteToMove: bool, row: Coord, col: Coord, endRow: Coord, endCol: Coord) {
    && (endRow == row) != (endCol == col)
    && ClearBetween(b, whiteToMove, row, col, Sign(endRow - row), Sign(endCol - col),
                    1, Delta(row, endRow, Sign(endRow - row)) + Delta(col, endCol, Sign(endCol - col)))
  }

  /** The rook generator: the directions up, down, left, right, each ray in full. */
  function RookMoves(b: Board, whiteToMove: bool, row: Coord, col: Coord): (r: seq<Move>)
    ensures |r| <= 28
    ensures forall m | m in r ::
      && BuiltAt(m, b, row, col)
      && (m.endRow == row) != (m.endCol == col)
      && !Friendly(b[m.endRow][m.endCol], whiteToMove)
  {
    RookRay(b, whiteToMove, row, col, -1, 0, 1)
    + RookRay(b, whiteToMove, row, col, 1, 0, 1)
    + RookRay(b, whiteToMove, row, col, 0, -1, 1)
    + RookRay(b, whiteToMove, row, col, 0, 1, 1)
  }

  /** The rook generator produces exactly the moves from (row, col) to its targets, each built from `b`. */
  lemma RookMovesExact(b: Board, whiteToMove: bool, row: Coord, col: Coord, m: Move)
    ensures m in RookMoves(b, whiteToMove, row, col)
        <==> BuiltAt(m, b, row, col) && RookTarget(b, whiteToMove, row, col, m.endRow, m.endCol)
  {
    RookRayExact(b, whiteToMove, row, col, -1, 0, 1, m);
    RookRayExact(b, whiteToMove, row, col, 1, 0, 1, m);
    RookRayExact(b, whiteToMove, row, col, 0, -1, 1, m);
    RookRayExact(b, whiteToMove, row, col, 0, 1, 1, m);
  }

  /**
   Once a ray meets a piece of the side to move, no square from there on along
   that ray is a destination of the rook.
   */
  lemma RookStopsAtFriendly(b: Board, whiteToMove: bool, row: Coord, col: Coord, dr: int, dc: int, j: int)
    requires RookDirection(dr, dc) && 1 <= j
    requires FriendlyOnRay(b, whiteToMove, row, col, dr, dc, j)
    ensures forall m | m in RookMoves(b, whiteToMove, row, col) :: !OnRay(row, col, dr, dc, m.endRow, m.endCol, j)
  {
    forall m | m in RookMoves(b, whiteToMove, row, col)
      ensures !OnRay(row, col, dr, dc, m.endRow, m.endCol, j)
    {
      RookMovesExact(b, whiteToMove, row, col, m);
    }
  }

  // ---------------------------------------------------------------- dispatch

  /** The square holds a piece of the side to move. */
  predicate IsSidePiece(b: Board, whiteToMove: bool, row: Coord, col: Coord) {
    Friendly(b[row][col], whiteToMove)
  }

  /**
   No pawn of the side to move stands on the far row, where the pawn generator
   would read past the edge of the board (the engine has no promotion, so a
   pawn that reaches that row stays a pawn).
   */
  predicate NoStrandedPawn(b: Board, whiteToMove: bool) {
    forall row: Coord, col: Coord | b[row][col] == Piece(SideColor(whiteToMove), Pawn) :: HasRowAhead(whiteToMove, row)
  }

  /**
   The moves of the piece of the side to move on (row, col), chosen by its kind.
   The source tests the kind character in the order P, R, K, B, Q, K: its third
   test routes "K" to the knight generator, which leaves its last test (the king
   branch) unreachable and "N" matched by none. The knight, bishop, queen and
   king generators are empty there, so every kind other than pawn and rook
   yields no move, as here.
   */
  function PieceMoves(b: Board, whiteToMove: bool, row: Coord, col: Coord): (r: seq<Move>)
    requires IsSidePiece(b, whiteToMove, row, col)
    requires NoStrandedPawn(b, whiteToMove)
    ensures forall m | m in r :: BuiltAt(m, b, row, col)
    ensures b[row][col].kind !in {Pawn, Rook} ==> r == []
  {
    match b[row][col].kind
    case Pawn => PawnMoves(b, whiteToMove, row, col)
    case Rook => RookMoves(b, whiteToMove, row, col)
    case Knight | Bishop | Queen | King => []
  }

  /** The square with row-major index `k`, as the source's nested row/column loops visit it. */
  function IndexOf(row: Coord, col: Coord): int {
    8 * row + col
  }

  /** What the scan takes from one square: the moves of the piece there if it belongs to the side to move. */
  function SquareMoves(b: Board, whiteToMove: bool, row: Coord, col: Coord): (r: seq<Move>)
    requires NoStrandedPawn(b, whiteToMove)
    ensures forall m | m in r :: BuiltAt(m, b, row, col) && IsSidePiece(b, whiteToMove, row, col)
  {
    if IsSidePiece(b, whiteToMove, row, col) then PieceMoves(b, whiteToMove, row, col) else []
  }

  /**
   The moves of the side to move's pieces on the squares with row-major index
   `k` and above, in the order the source's nested loops visit them.
   */
  function MovesFrom(b: Board, whiteToMove: bool, k: int): (r: seq<Move>)
    requires 0 <= k <= 64
    requires NoStrandedPawn(b, whiteToMove)
    ensures forall m | m in r ::
      && IndexOf(m.startRow, m.startCol) >= k
      && IsSidePiece(b, whiteToMove, m.startRow, m.startCol)
      && ReadFrom(m, b)
    decreases 64 - k
  {
    if k == 64 then []
    else
      SquareMoves(b, whiteToMove, k / 8, k % 8) + MovesFrom(b, whiteToMove, k + 1)
  }

  /**
   All moves of the side to move, checks not considered: every square is
   visited row by row and the moves of each piece of the side to move appended.
   */
  function AllPossibleMoves(b: Board, whiteToMove: bool): (r: seq<Move>)
    requires NoStrandedPawn(b, whiteToMove)
    ensures forall m | m in r :: IsSidePiece(b, whiteToMove, m.startRow, m.startCol) && ReadFrom(m, b)
  {
    MovesFrom(b, whiteToMove, 0)
  }

  /**
   The moves the engine offers. The source leaves checks unconsidered, so this
   is the same list as AllPossibleMoves.
   */
  function ValidMoves(b: Board, whiteToMove: bool): (r: seq<Move>)
    requires NoStrandedPawn(b, whiteToMove)
    ensures r == AllPossibleMoves(b, whiteToMove)
  {
    AllPossibleMoves(b, whiteToMove)
  }

  /** The row-major index names one square: index `k` is row k / 8, column k % 8. */
  lemma IndexOfSquare(row: Coord, col: Coord, k: int)
    requires 0 <= k < 64
    ensures IndexOf(row, col) == k <==> row == k / 8 && col == k % 8
  {
  }

  /** The moves the scan takes from one square all start on that square's side piece. */
  lemma SquareMovesStartThere(b: Board, whiteToMove: bool, row: Coord, col: Coord, m: Move)
    requires NoStrandedPawn(b, whiteToMove)
    ensures m in SquareMoves(b, whiteToMove, row, col)
        <==> && m.startRow == row && m.startCol == col
             && IsSidePiece(b, whiteToMove, row, col)
             && m in PieceMoves(b, whiteToMove, row, col)
  {
  }

  /**
   One step of the scan: the moves from index `k` on are those of the side's
   piece on square `k` followed by the moves from index k + 1 on.
   */
  lemma MovesFromStep(b: Board, whiteToMove: bool, k: int, m: Move)
    requires 0 <= k < 64
    requires NoStrandedPawn(b, whiteToMove)
    ensures m in MovesFrom(b, whiteToMove, k)
        <==> || (&& IndexOf(m.startRow, m.startCol) == k
                 && IsSidePiece(b, whiteToMove, m.startRow, m.startCol)
                 && m in PieceMoves(b, whiteToMove, m.startRow, m.startCol))
             || m in MovesFrom(b, whiteToMove, k + 1)
  {
    var row: Coord := k / 8;
    var col: Coord := k % 8;
    assert MovesFrom(b, whiteToMove, k) == SquareMoves(b, whiteToMove, row, col) + MovesFrom(b, whiteToMove, k + 1);
    SquareMovesStartThere(b, whiteToMove, row, col, m);
    IndexOfSquare(m.startRow, m.startCol, k);
  }

  /** The scan from index `k` is as long as square `k`'s moves and the scan from k + 1 together. */
  lemma MovesFromLength(b: Board, whiteToMove: bool, k: int)
    requires 0 <= k < 64
    requires NoStrandedPawn(b, whiteToMove)
    ensures |MovesFrom(b, whiteToMove, k)| == |SquareMoves(b, whiteToMove, k / 8, k % 8)| + |MovesFrom(b, whiteToMove, k + 1)|
  {
  }

  /** The moves from index `k` on are exactly the moves of the side's pieces on those squares. */
  lemma {:induction false} MovesFromExact(b: Board, whiteToMove: bool, k: int, m: Move)
    requires 0 <= k <= 64
    requires NoStrandedPawn(b, whiteToMove)
    ensures m in MovesFrom(b, whiteToMove, k)
        <==> && IndexOf(m.startRow, m.startCol) >= k
             && IsSidePiece(b, whiteToMove, m.startRow, m.startCol)
             && m in PieceMoves(b, whiteToMove, m.startRow, m.startCol)
    decreases 64 - k
  {
    if k < 64 {
      MovesFromStep(b, whiteToMove, k, m);
      MovesFromExact(b, whiteToMove, k + 1, m);
    }
  }

  /**
   A move is generated for the side to move exactly when it starts on a piece
   of that side and is one of that piece's own moves.
   */
  lemma AllPossibleMovesExact(b: Board, whiteToMove: bool, m: Move)
    requires NoStrandedPawn(b, whiteToMove)
    ensures m in AllPossibleMoves(b, whiteToMove)
        <==> IsSidePiece(b, whiteToMove, m.startRow, m.startCol)
             && m in PieceMoves(b, whiteToMove, m.startRow, m.startCol)
  {
    MovesFromExact(b, whiteToMove, 0, m);
  }

  /**
   The whole generator against its reference: a move is generated exactly when
   it is built from the board, starts on a pawn or rook of the side to move, and
   ends on one of that piece's targets.
   */
  lemma GeneratedMovesCharacterized(b: Board, whiteToMove: bool, m: Move)
    requires NoStrandedPawn(b, whiteToMove)
    ensures m in AllPossibleMoves(b, whiteToMove)
        <==> && ReadFrom(m, b)
             && IsSidePiece(b, whiteToMove, m.startRow, m.startCol)
             && match b[m.startRow][m.startCol].kind
                case Pawn => PawnTarget(b, whiteToMove, m.startRow, m.startCol, m.endRow, m.endCol)
                case Rook => RookTarget(b, whiteToMove, m.startRow, m.startCol, m.endRow, m.endCol)
                case _ => false
  {
    AllPossibleMovesExact(b, whiteToMove, m);
    if IsSidePiece(b, whiteToMove, m.startRow, m.startCol) {
      var kind := b[m.startRow][m.startCol].kind;
      if kind == Pawn {
        PawnMovesExact(b, whiteToMove, m.startRow, m.startCol, m);
      } else if kind == Rook {
        RookMovesExact(b, whiteToMove, m.startRow, m.startCol, m);
      }
    }
  }
}
