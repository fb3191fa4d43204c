/**
 Moves from the starting position.
 */
module Opening {
  import opened Pieces
  import opened Board
  import opened Geometry
  import opened Moves
  import opened Rules
  import opened Legality

  /** Every pawn may advance two squares on its first move: White's from row 6
      to row 4, Black's from row 1 to row 3. */
  lemma InitialDoublePush()
    ensures forall c | 0 <= c < Size :: IsValidMove(InitBoard(), Square(6, c), Square(4, c))
    ensures forall c | 0 <= c < Size :: IsValidMove(InitBoard(), Square(1, c), Square(3, c))
  {
    InitialLayout();
    forall c | 0 <= c < Size
      ensures IsValidMove(InitBoard(), Square(6, c), Square(4, c))
      ensures IsValidMove(InitBoard(), Square(1, c), Square(3, c))
    {
      WhitePawnMoves(InitBoard(), Square(6, c), Square(4, c));
      BlackPawnMoves(InitBoard(), Square(1, c), Square(3, c));
    }
  }

  /** In the starting position rows 0 and 1 hold Black's pieces and rows 6
      and 7 White's. */
  lemma StartingSides(s: Square)
    requires OnBoard(s)
    ensures WellFormed(InitBoard())
    ensures s.row <= 1 ==> CellAt(InitBoard(), s).Occupied? && CellAt(InitBoard(), s).piece.colour == Black
    ensures s.row >= 6 ==> CellAt(InitBoard(), s).Occupied? && CellAt(InitBoard(), s).piece.colour == White
  {
  }

  /** A piece on a back rank of the starting position is hemmed in: the first
      square towards any target on its lines holds a piece of its own colour. */
  lemma BackRankHemmedIn(f: Square, t: Square)
    requires OnBoard(f) && OnBoard(t) && f != t && OnLine(f, t)
    requires f.row == 0 || f.row == 7
    ensures WellFormed(InitBoard())
    ensures !CanLandOn(InitBoard(), CellAt(InitBoard(), f).piece.colour, t) || !ClearBetween(InitBoard(), f, t)
  {
    AlongLine(f, t, 1);
    var n := Along(f, t, 1);
    StartingSides(f);
    StartingSides(n);
    if Dist(f, t) == 1 {
      assert n == t;
    } else {
      assert At(InitBoard(), n) != Blank;
    }
  }

  /** In the starting position only pawns and knights can move. */
  lemma OnlyPawnsAndKnightsMove(f: Square, t: Square)
    ensures IsValidMove(InitBoard(), f, t) ==> OnBoard(f) && Lower(At(InitBoard(), f)) in "pn"
  {
    var b := InitBoard();
    InitialLayout();
    if OnBoard(f) && At(b, f) != Blank && !(Lower(At(b, f)) in "pn") {
      StartingSides(f);
      LowerIsKind(At(b, f));
      var p := CellAt(b, f).piece;
      assert p.kind != Pawn && p.kind != Knight;
      assert f.row == 0 || f.row == 7;
      if OnBoard(t) && f != t && OnLine(f, t) {
        BackRankHemmedIn(f, t);
      }
      assert Dist(f, t) == 1 ==> OnLine(f, t);
      assert !Legal(b, f, t);
      ValidMoveIsLegal(b, f, t);
    }
  }

  /** In the starting position no back-rank piece other than a knight can move. */
  lemma BackRankStuck(f: Square, t: Square)
    requires OnBoard(f) && (f.row == 0 || f.row == 7) && BackRank(f.col) != Knight
    ensures !IsValidMove(InitBoard(), f, t)
  {
    InitialLayout();
    OnlyPawnsAndKnightsMove(f, t);
  }

  /** The pawn examples: e2-e4 and a7-a6 are valid; e2-e5 goes too far and
      e2-d3 captures nothing. */
  lemma PawnExamples()
    ensures IsValidMove(InitBoard(), Square(6, 4), Square(4, 4))
    ensures !IsValidMove(InitBoard(), Square(6, 4), Square(3, 4))
    ensures !IsValidMove(InitBoard(), Square(6, 4), Square(5, 3))
    ensures IsValidMove(InitBoard(), Square(1, 0), Square(2, 0))
  {
    var b := InitBoard();
    InitialLayout();
    WhitePawnMoves(b, Square(6, 4), Square(4, 4));
    WhitePawnMoves(b, Square(6, 4), Square(3, 4));
    WhitePawnMoves(b, Square(6, 4), Square(5, 3));
    BlackPawnMoves(b, Square(1, 0), Square(2, 0));
  }

  /** The knight b1-c3 jumps over its pawns. */
  lemma KnightExample()
    ensures IsValidMove(InitBoard(), Square(7, 1), Square(5, 2))
  {
    InitialLayout();
    KnightMoves(InitBoard(), Square(7, 1), Square(5, 2));
  }

  /** Once the b2 pawn has moved, the bishop on c1 reaches a3. */
  lemma BishopAfterPawnMove()
    ensures IsValidMove(MovePiece(InitBoard(), Square(6, 1), Square(4, 1)), Square(7, 2), Square(5, 0))
  {
    var b := InitBoard();
    InitialLayout();
    var after := MovePiece(b, Square(6, 1), Square(4, 1));
    MovePreservesWellFormed(b, Square(6, 1), Square(4, 1));
    BishopMoves(after, Square(7, 2), Square(5, 0));
    assert Along(Square(7, 2), Square(5, 0), 1) == Square(6, 1);
  }

  /** Once the e2 pawn has moved, the king e1-e2 steps onto the square it left. */
  lemma KingAfterPawnMove()
    ensures IsValidMove(MovePiece(InitBoard(), Square(6, 4), Square(4, 4)), Square(7, 4), Square(6, 4))
  {
    var b := InitBoard();
    InitialLayout();
    var after := MovePiece(b, Square(6, 4), Square(4, 4));
    MovePreservesWellFormed(b, Square(6, 4), Square(4, 4));
    KingMoves(after, Square(7, 4), Square(6, 4));
  }
}
