/**
 The Move value: a start square, an end square, and the two cells the
 constructor reads off the board it is given, together with the packed decimal
 identity used for equality and the rank/file notation.
 */
module ChessMove {
  import opened Chessboard

  datatype Move = Move(
    startRow: Coord, startCol: Coord,
    endRow: Coord, endCol: Coord,
    pieceMoved: Cell,       // the cell at the start square when the move was built
    pieceCaptured: Cell)    // the cell at the end square when the move was built

  /** The Move constructor: it reads the moved and captured cells from `b`. */
  function NewMove(b: Board, startRow: Coord, startCol: Coord, endRow: Coord, endCol: Coord): (m: Move)
    ensures ReadFrom(m, b)
    ensures m.startRow == startRow && m.startCol == startCol
    ensures m.endRow == endRow && m.endCol == endCol
  {
    Move(startRow, startCol, endRow, endCol, b[startRow][startCol], b[endRow][endCol])
  }

  /** The move's two cells are those of `b` at its start and end squares. */
  predicate ReadFrom(m: Move, b: Board) {
    m.pieceMoved == b[m.startRow][m.startCol] && m.pieceCaptured == b[m.endRow][m.endCol]
  }

  /** The packed identity: one decimal digit per coordinate. */
  function MoveId(m: Move): (id: int)
    ensures 0 <= id <= 7777
    ensures id % 10 == m.endCol
  {
    m.startRow * 1000 + m.startCol * 100 + m.endRow * 10 + m.endCol
  }

  /** Equality of moves as the source defines it: equal identities. */
  predicate SameMove(a: Move, b: Move) {
    MoveId(a) == MoveId(b)
  }

  predicate SameSquares(a: Move, b: Move) {
    a.startRow == b.startRow && a.startCol == b.startCol && a.endRow == b.endRow && a.endCol == b.endCol
  }

  /** Reading the identity digit by digit recovers the four coordinates. */
  lemma MoveIdDigits(m: Move)
    ensures MoveId(m) / 1000 == m.startRow
    ensures MoveId(m) / 100 % 10 == m.startCol
    ensures MoveId(m) / 10 % 10 == m.endRow
    ensures MoveId(m) % 10 == m.endCol
  {
    var id := MoveId(m);
    DivisionUnique(id, 1000, m.startRow, m.startCol * 100 + m.endRow * 10 + m.endCol);
    DivisionUnique(id, 100, m.startRow * 10 + m.startCol, m.endRow * 10 + m.endCol);
    DivisionUnique(m.startRow * 10 + m.startCol, 10, m.startRow, m.startCol);
    DivisionUnique(id, 10, m.startRow * 100 + m.startCol * 10 + m.endRow, m.endCol);
    DivisionUnique(m.startRow * 100 + m.startCol * 10 + m.endRow, 10, m.startRow * 10 + m.startCol, m.endRow);
  }

  /** For the decimal divisors of the packing, a quotient and remainder in range are the ones division gives. */
  lemma DivisionUnique(x: int, d: int, q: int, r: int)
    requires d == 10 || d == 100 || d == 1000
    requires 0 <= r < d && x == q * d + r
    ensures x / d == q && x % d == r
  {
    if d == 10 {
      assert x == q * 10 + r;
    } else if d == 100 {
      assert x == q * 100 + r;
    } else {
      assert x == q * 1000 + r;
    }
  }

  /** The decimal packing is injective on 0..7: equal identities mean equal squares. */
  lemma SameMoveIffSameSquares(a: Move, b: Move)
    ensures SameMove(a, b) <==> SameSquares(a, b)
  {
    if SameMove(a, b) {
      MoveIdDigits(a);
      MoveIdDigits(b);
    }
  }

  /**
   Two moves built from the same board that are equal in the source's sense
   are the very same value, pieces included.
   */
  lemma SameMoveOnSameBoard(a: Move, c: Move, b: Board)
    requires ReadFrom(a, b) && ReadFrom(c, b)
    ensures SameMove(a, c) <==> a == c
  {
    SameMoveIffSameSquares(a, c);
  }

  // Rank/file notation maps: rank "1" is row 7 and rank "8" is row 0; files "a".."h" are columns 0..7.
  const RanksToRows: map<string, Coord> :=
    map["1" := 7, "2" := 6, "3" := 5, "4" := 4, "5" := 3, "6" := 2, "7" := 1, "8" := 0]
  const RowsToRanks: map<Coord, string> :=
    map[7 := "1", 6 := "2", 5 := "3", 4 := "4", 3 := "5", 2 := "6", 1 := "7", 0 := "8"]
  const FilesToColumns: map<string, Coord> :=
    map["a" := 0, "b" := 1, "c" := 2, "d" := 3, "e" := 4, "f" := 5, "g" := 6, "h" := 7]
  const ColumnsToFiles: map<Coord, string> :=
    map[0 := "a", 1 := "b", 2 := "c", 3 := "d", 4 := "e", 5 := "f", 6 := "g", 7 := "h"]

  /** The digit a one-character rank string stands for. */
  function RankDigit(rank: string): int
    requires |rank| == 1
  {
    rank[0] as int - '0' as int
  }

  /**
   RowsToRanks is the inverse of RanksToRows: both are total on their domains
   (every row, every rank "1".."8"), each undoes the other, and row = 8 - rank.
   */
  lemma RankMapsInverse()
    ensures forall row: Coord :: row in RowsToRanks && RowsToRanks[row] in RanksToRows && RanksToRows[RowsToRanks[row]] == row
    ensures forall rank | rank in RanksToRows :: RanksToRows[rank] in RowsToRanks && RowsToRanks[RanksToRows[rank]] == rank
    ensures forall rank | rank in RanksToRows :: |rank| == 1 && RanksToRows[rank] == 8 - RankDigit(rank)
  {
  }

  /** ColumnsToFiles is the inverse of FilesToColumns, and "a".."h" are the columns 0..7 in order. */
  lemma FileMapsInverse()
    ensures forall col: Coord :: col in ColumnsToFiles && ColumnsToFiles[col] in FilesToColumns && FilesToColumns[ColumnsToFiles[col]] == col
    ensures forall file | file in FilesToColumns :: FilesToColumns[file] in ColumnsToFiles && ColumnsToFiles[FilesToColumns[file]] == file
    ensures forall file | file in FilesToColumns :: |file| == 1 && FilesToColumns[file] == file[0] as int - 'a' as int
  {
  }

  /** The file letter then the rank digit of one square; reading it back through the maps gives the square. */
  function RankFile(row: Coord, col: Coord): (s: string)
    ensures |s| == 2
    ensures s[..1] in FilesToColumns && FilesToColumns[s[..1]] == col
    ensures s[1..] in RanksToRows && RanksToRows[s[1..]] == row
  {
    RankMapsInverse();
    FileMapsInverse();
    var file := ColumnsToFiles[col];
    var rank := RowsToRanks[row];
    assert |file| == 1 && |rank| == 1;
    assert (file + rank)[..1] == file;
    assert (file + rank)[1..] == rank;
    file + rank
  }

  /** Four characters: start file, start rank, end file, end rank. */
  function ChessNotation(m: Move): (s: string)
    ensures |s| == 4
    ensures s[0..1] in FilesToColumns && FilesToColumns[s[0..1]] == m.startCol
    ensures s[1..2] in RanksToRows && RanksToRows[s[1..2]] == m.startRow
    ensures s[2..3] in FilesToColumns && FilesToColumns[s[2..3]] == m.endCol
    ensures s[3..4] in RanksToRows && RanksToRows[s[3..4]] == m.endRow
  {
    var a := RankFile(m.startRow, m.startCol);
    var z := RankFile(m.endRow, m.endCol);
    assert (a + z)[0..1] == a[..1] && (a + z)[1..2] == a[1..];
    assert (a + z)[2..3] == z[..1] && (a + z)[3..4] == z[1..];
    a + z
  }

  /** Two moves have the same notation exactly when they are equal in the source's sense. */
  lemma NotationIffSameMove(a: Move, b: Move)
    ensures ChessNotation(a) == ChessNotation(b) <==> SameMove(a, b)
  {
    SameMoveIffSameSquares(a, b);
    if SameSquares(a, b) {
      assert ChessNotation(a) == RankFile(a.startRow, a.startCol) + RankFile(a.endRow, a.endCol);
    }
  }
}
