/**
 The program's move test agrees with the reference rules on every
 well-formed board, and the per-piece consequences of that.
 */
module Legality {
  import opened Pieces
  import opened Board
  import opened Geometry
  import opened Moves
  import opened Rules

  /** The rook's extra `target != piece` test never rejects a move that the
      earlier source-and-capture test let through. */
  lemma RookTargetTestRedundant(piece: char, target: char)
    requires IsPieceChar(piece)
    requires !(target != Blank && SameCase(piece, target))
    ensures target != piece
  {
  }

  /** On piece letters the program's case test is the colour test. */
  lemma CaptureTestIsColour(b: Grid, f: Square, t: Square)
    requires WellFormed(b) && OnBoard(f) && OnBoard(t) && IsPieceChar(At(b, f))
    ensures (At(b, t) != Blank && SameCase(At(b, f), At(b, t)))
            <==> !CanLandOn(b, CellAt(b, f).piece.colour, t)
  {
  }

  /** The program's verdict for a move that passed the bounds, null-move,
      source and capture tests, by kind of piece. */
  lemma DispatchAgrees(b: Grid, f: Square, t: Square)
    requires WellFormed(b) && OnBoard(f) && OnBoard(t) && f != t
    requires IsPieceChar(At(b, f)) && CanLandOn(b, CellAt(b, f).piece.colour, t)
    ensures IsValidMove(b, f, t) <==> Reaches(b, CellAt(b, f).piece, f, t)
  {
    var piece := At(b, f);
    CaptureTestIsColour(b, f, t);
    LowerIsKind(piece);
    assert IsValidMove(b, f, t) <==> PieceRule(b, f, t);
  }

  /** On a well-formed board the program's move test is the reference rule set. */
  lemma ValidMoveIsLegal(b: Grid, f: Square, t: Square)
    requires WellFormed(b)
    ensures IsValidMove(b, f, t) <==> Legal(b, f, t)
  {
    if OnBoard(f) && OnBoard(t) && f != t && At(b, f) != Blank {
      CaptureTestIsColour(b, f, t);
      if CanLandOn(b, CellAt(b, f).piece.colour, t) {
        DispatchAgrees(b, f, t);
      }
    }
  }

  /** A white pawn moves one row up onto an empty square, captures one row up
      and one column aside, or from row 6 moves two rows up over an empty square
      onto an empty one; nothing else. */
  lemma WhitePawnMoves(b: Grid, f: Square, t: Square)
    requires WellFormed(b) && OnBoard(f) && At(b, f) == 'P'
    ensures IsValidMove(b, f, t) <==>
              && OnBoard(t)
              && var dr, dc := t.row - f.row, t.col - f.col;
                 || (dr == -1 && dc == 0 && At(b, t) == Blank)
                 || (dr == -1 && Abs(dc) == 1 && CellAt(b, t).Occupied? && CellAt(b, t).piece.colour == Black)
                 || (f.row == 6 && dr == -2 && dc == 0 && At(b, Square(5, f.col)) == Blank && At(b, t) == Blank)
  {
    ValidMoveIsLegal(b, f, t);
  }

  /** The mirror image for a black pawn: down the board, double step from row 1. */
  lemma BlackPawnMoves(b: Grid, f: Square, t: Square)
    requires WellFormed(b) && OnBoard(f) && At(b, f) == 'p'
    ensures IsValidMove(b, f, t) <==>
              && OnBoard(t)
              && var dr, dc := t.row - f.row, t.col - f.col;
                 || (dr == 1 && dc == 0 && At(b, t) == Blank)
                 || (dr == 1 && Abs(dc) == 1 && CellAt(b, t).Occupied? && CellAt(b, t).piece.colour == White)
                 || (f.row == 1 && dr == 2 && dc == 0 && At(b, Square(2, f.col)) == Blank && At(b, t) == Blank)
  {
    ValidMoveIsLegal(b, f, t);
  }

  /** A rook moves along a row or a column over empty squares only. */
  lemma RookMoves(b: Grid, f: Square, t: Square)
    requires WellFormed(b) && OnBoard(f) && CellAt(b, f).Occupied? && CellAt(b, f).piece.kind == Rook
    ensures IsValidMove(b, f, t) <==>
              OnBoard(t) && f != t && CanLandOn(b, CellAt(b, f).piece.colour, t)
              && Straight(f, t) && ClearBetween(b, f, t)
  {
    ValidMoveIsLegal(b, f, t);
  }

  /** A bishop moves along a diagonal over empty squares only. */
  lemma BishopMoves(b: Grid, f: Square, t: Square)
    requires WellFormed(b) && OnBoard(f) && CellAt(b, f).Occupied? && CellAt(b, f).piece.kind == Bishop
    ensures IsValidMove(b, f, t) <==>
              OnBoard(t) && f != t && CanLandOn(b, CellAt(b, f).piece.colour, t)
              && Diagonal(f, t) && ClearBetween(b, f, t)
  {
    ValidMoveIsLegal(b, f, t);
  }

  /** A queen moves along a row, a column or a diagonal over empty squares only. */
  lemma QueenMoves(b: Grid, f: Square, t: Square)
    requires WellFormed(b) && OnBoard(f) && CellAt(b, f).Occupied? && CellAt(b, f).piece.kind == Queen
    ensures IsValidMove(b, f, t) <==>
              OnBoard(t) && f != t && CanLandOn(b, CellAt(b, f).piece.colour, t)
              && (Straight(f, t) || Diagonal(f, t)) && ClearBetween(b, f, t)
  {
    ValidMoveIsLegal(b, f, t);
  }

  /** A knight jumps two squares one way and one the other, whatever lies between. */
  lemma KnightMoves(b: Grid, f: Square, t: Square)
    requires WellFormed(b) && OnBoard(f) && CellAt(b, f).Occupied? && CellAt(b, f).piece.kind == Knight
    ensures IsValidMove(b, f, t) <==>
              OnBoard(t) && CanLandOn(b, CellAt(b, f).piece.colour, t)
              && var dr, dc := Abs(t.row - f.row), Abs(t.col - f.col);
                 (dr, dc) == (2, 1) || (dr, dc) == (1, 2)
  {
    ValidMoveIsLegal(b, f, t);
  }

  /** A king steps to any of the eight neighbouring squares. */
  lemma KingMoves(b: Grid, f: Square, t: Square)
    requires WellFormed(b) && OnBoard(f) && CellAt(b, f).Occupied? && CellAt(b, f).piece.kind == King
    ensures IsValidMove(b, f, t) <==>
              OnBoard(t) && f != t && CanLandOn(b, CellAt(b, f).piece.colour, t)
              && Abs(t.row - f.row) <= 1 && Abs(t.col - f.col) <= 1
  {
    ValidMoveIsLegal(b, f, t);
  }

  /** Whether a knight may move depends on its own square and the target square
      alone: two boards that agree there give the same answer. */
  lemma KnightIgnoresOtherSquares(b: Grid, b': Grid, f: Square, t: Square)
    requires IsGrid(b) && IsGrid(b') && OnBoard(f) && Lower(At(b, f)) == 'n'
    requires At(b', f) == At(b, f)
    requires OnBoard(t) ==> At(b', t) == At(b, t)
    ensures IsValidMove(b', f, t) == IsValidMove(b, f, t)
  {
  }

  /** Whether a king may move depends on its own square and the target square
      alone. */
  lemma KingIgnoresOtherSquares(b: Grid, b': Grid, f: Square, t: Square)
    requires IsGrid(b) && IsGrid(b') && OnBoard(f) && Lower(At(b, f)) == 'k'
    requires At(b', f) == At(b, f)
    requires OnBoard(t) ==> At(b', t) == At(b, t)
    ensures IsValidMove(b', f, t) == IsValidMove(b, f, t)
  {
  }

  /** Once a piece has moved away, nothing can move from the square it left. */
  lemma NoMoveFromVacatedSquare(b: Grid, f: Square, t: Square, u: Square)
    requires IsGrid(b) && OnBoard(f) && OnBoard(t)
    ensures !IsValidMove(MovePiece(b, f, t), f, u)
  {
  }
}
