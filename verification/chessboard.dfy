/**
 The board of the chess rules engine: an 8x8 grid of cells, where a cell is
 either empty (the source's "--") or holds one piece, written in the source as
 a colour character ('w' or 'b') followed by a kind character
 ('P', 'N', 'B', 'R', 'Q', 'K').
 */
module Chessboard {

  datatype Color = White | Black

  datatype Kind = Pawn | Knight | Bishop | Rook | Queen | King

  /** A square of the board: empty, or one piece of a given colour and kind. */
  datatype Cell = Empty | Piece(color: Color, kind: Kind)

  /** A row or column index; row 0 is Black's back rank, row 7 is White's. */
  type Coord = i: int | 0 <= i < 8

  predicate IsGrid(b: seq<seq<Cell>>) {
    |b| == 8 && forall i | 0 <= i < 8 :: |b[i]| == 8
  }

  /** The board is never resized: always eight rows of eight cells. */
  type Board = b: seq<seq<Cell>> | IsGrid(b) witness seq(8, _ => seq(8, _ => Empty))

  predicate OnBoard(row: int, col: int) {
    0 <= row < 8 && 0 <= col < 8
  }

  /** The colour that moves when `whiteToMove` holds, and its opponent. */
  function SideColor(whiteToMove: bool): Color {
    if whiteToMove then White else Black
  }

  function EnemyColor(whiteToMove: bool): Color {
    if whiteToMove then Black else White
  }

  /** The cell holds a piece of the given colour. */
  predicate HasColor(c: Cell, color: Color) {
    c.Piece? && c.color == color
  }

  /** The standard starting position, Black on rows 0-1 and White on rows 6-7. */
  function InitialBoard(): (b: Board)
    ensures forall col | 0 <= col < 8 :: b[1][col] == Piece(Black, Pawn) && b[6][col] == Piece(White, Pawn)
    ensures forall row, col | 2 <= row < 6 && 0 <= col < 8 :: b[row][col] == Empty
    ensures b[0][4] == Piece(Black, King) && b[7][4] == Piece(White, King)
  {
    var empty := seq(8, _ => Empty);
    [ BackRank(Black),
      seq(8, _ => Piece(Black, Pawn)),
      empty, empty, empty, empty,
      seq(8, _ => Piece(White, Pawn)),
      BackRank(White) ]
  }

  /** Rook, knight, bishop, queen, king, bishop, knight, rook. */
  function BackRank(color: Color): seq<Cell> {
    [ Piece(color, Rook), Piece(color, Knight), Piece(color, Bishop), Piece(color, Queen),
      Piece(color, King), Piece(color, Bishop), Piece(color, Knight), Piece(color, Rook) ]
  }

  /** The board with one cell overwritten; nothing else changes. */
  function Put(b: Board, row: Coord, col: Coord, x: Cell): (nb: Board)
    ensures nb[row][col] == x
    ensures forall i, j | 0 <= i < 8 && 0 <= j < 8 && (i != row || j != col) :: nb[i][j] == b[i][j]
  {
    b[row := b[row][col := x]]
  }

  /** Two boards are equal exactly when they agree on every square. */
  lemma BoardExtensionality(a: Board, b: Board)
    requires forall i, j | 0 <= i < 8 && 0 <= j < 8 :: a[i][j] == b[i][j]
    ensures a == b
  {
    forall i | 0 <= i < 8
      ensures a[i] == b[i]
    {
      assert forall j | 0 <= j < 8 :: a[i][j] == b[i][j];
    }
  }
}
