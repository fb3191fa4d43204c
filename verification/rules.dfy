/**
 The movement rules the program enforces, stated over pieces with a colour
 attribute instead of letter case, and with the sliding pieces' path stated
 as "every square strictly between is empty" instead of as a walk. This is
 the reference that `Moves.IsValidMove` is proved equal to.

 These are the program's rules, not the rules of chess: there is no check,
 castling, en passant, promotion or turn order.
 */
module Rules {
  import opened Pieces
  import opened Board
  import opened Geometry

  /** A piece of colour `c` may end its move on `t`: the square is empty or holds an enemy. */
  predicate CanLandOn(b: Grid, c: Colour, t: Square)
    requires WellFormed(b) && OnBoard(t)
  {
    CellAt(b, t).Empty? || CellAt(b, t).piece.colour != c
  }

  /** The row change of one pawn step: White moves up the board towards row 0. */
  function Forward(c: Colour): int {
    if c == White then -1 else 1
  }

  /** The row a pawn of colour `c` starts on. */
  function HomeRow(c: Colour): int {
    if c == White then 6 else 1
  }

  predicate PawnMove(b: Grid, c: Colour, f: Square, t: Square)
    requires WellFormed(b) && OnBoard(f) && OnBoard(t)
  {
    var dr := t.row - f.row;
    var dc := t.col - f.col;
    || (dr == Forward(c) && dc == 0 && CellAt(b, t).Empty?)
    || (dr == Forward(c) && Abs(dc) == 1 && CellAt(b, t).Occupied?)
    || (f.row == HomeRow(c) && dr == 2 * Forward(c) && dc == 0
        && CellAt(b, Square(f.row + Forward(c), f.col)).Empty? && CellAt(b, t).Empty?)
  }

  /** An L-shaped jump: three squares in all, in both directions. */
  predicate KnightJump(f: Square, t: Square) {
    var dr := Abs(t.row - f.row);
    var dc := Abs(t.col - f.col);
    dr + dc == 3 && dr != 0 && dc != 0
  }

  /** The geometric rule of each kind of piece, the capture test aside. */
  predicate Reaches(b: Grid, p: Piece, f: Square, t: Square)
    requires WellFormed(b) && OnBoard(f) && OnBoard(t)
  {
    match p.kind
    case Pawn => PawnMove(b, p.colour, f, t)
    case Knight => KnightJump(f, t)
    case King => Dist(f, t) == 1
    case Rook => Straight(f, t) && ClearBetween(b, f, t)
    case Bishop => Diagonal(f, t) && ClearBetween(b, f, t)
    case Queen => OnLine(f, t) && ClearBetween(b, f, t)
  }

  /** A move is legal when both squares are on the board and differ, the start
      holds a piece, the end holds no piece of that colour, and the piece's rule
      allows the move. */
  predicate Legal(b: Grid, f: Square, t: Square)
    requires WellFormed(b)
  {
    && OnBoard(f) && OnBoard(t) && f != t
    && CellAt(b, f).Occupied?
    && CanLandOn(b, CellAt(b, f).piece.colour, t)
    && Reaches(b, CellAt(b, f).piece, f, t)
  }
}
