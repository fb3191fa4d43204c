/**
 The 8x8 board of `chess.c`: a grid of cell characters indexed by row and
 column. Row 0 is rank 8 (Black's back rank), row 7 is rank 1, column 0 is
 file a. The program's coordinates call the row `X` and the column `Y`.
 */
module Board {
  import opened Pieces

  const Size: int := 8

  datatype Square = Square(row: int, col: int)

  type Grid = seq<seq<char>>

  predicate OnBoard(s: Square) {
    0 <= s.row < Size && 0 <= s.col < Size
  }

  /** The shape of the program's `char board[8][8]`. */
  predicate IsGrid(b: Grid) {
    |b| == Size && forall r | 0 <= r < Size :: |b[r]| == Size
  }

  /** A grid whose every cell is a blank or a piece letter. */
  predicate WellFormed(b: Grid) {
    IsGrid(b) && forall r, c | 0 <= r < Size && 0 <= c < Size :: IsCellChar(b[r][c])
  }

  function At(b: Grid, s: Square): char
    requires IsGrid(b) && OnBoard(s)
  {
    b[s.row][s.col]
  }

  function CellAt(b: Grid, s: Square): Cell
    requires WellFormed(b) && OnBoard(s)
  {
    Decode(At(b, s))
  }

  /** The piece that starts in column `c` of a back rank. */
  function BackRank(c: int): Kind {
    if c == 0 || c == 7 then Rook
    else if c == 1 || c == 6 then Knight
    else if c == 2 || c == 5 then Bishop
    else if c == 3 then Queen
    else King
  }

  /** The starting position, rank 8 first. Black's two ranks are White's two
      ranks in lower case, mirrored top to bottom. */
  function InitBoard(): (b: Grid)
    ensures WellFormed(b)
    ensures forall c | 0 <= c < Size :: b[0][c] == Lower(b[7][c]) && b[1][c] == Lower(b[6][c])
  {
    [ "rnbqkbnr",
      "pppppppp",
      "        ",
      "        ",
      "        ",
      "        ",
      "PPPPPPPP",
      "RNBQKBNR" ]
  }

  /** The starting position is the standard one: Black's pieces on rows 0 and 1,
      White's on rows 6 and 7, four empty ranks between. */
  lemma InitialLayout()
    ensures WellFormed(InitBoard())
    ensures forall c | 0 <= c < Size ::
              && InitBoard()[0][c] == Encode(Piece(BackRank(c), Black))
              && InitBoard()[1][c] == Encode(Piece(Pawn, Black))
              && InitBoard()[6][c] == Encode(Piece(Pawn, White))
              && InitBoard()[7][c] == Encode(Piece(BackRank(c), White))
    ensures forall r, c | 2 <= r < 6 && 0 <= c < Size :: InitBoard()[r][c] == Blank
  {
  }

  /** `movePiece`: the start cell's contents go to the end cell and the start
      cell is blanked, in that order; no other cell changes. When start and end
      are the same square that square ends up blank. */
  function MovePiece(b: Grid, from: Square, to: Square): (b': Grid)
    requires IsGrid(b) && OnBoard(from) && OnBoard(to)
    ensures IsGrid(b')
    ensures At(b', from) == Blank
    ensures from != to ==> At(b', to) == At(b, from)
    ensures forall s | OnBoard(s) && s != from && s != to :: At(b', s) == At(b, s)
  {
    var moved := b[to.row := b[to.row][to.col := At(b, from)]];
    moved[from.row := moved[from.row][from.col := Blank]]
  }

  /** Moving a piece on a well-formed board leaves a well-formed board. */
  lemma MovePreservesWellFormed(b: Grid, from: Square, to: Square)
    requires WellFormed(b) && OnBoard(from) && OnBoard(to)
    ensures WellFormed(MovePiece(b, from, to))
  {
  }
}
