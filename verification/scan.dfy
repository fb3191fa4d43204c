/**
 The program's move test as written, with its three path loops as `while`
 loops. Every loop terminates and every cell it reads is on the board.
 */
module Scan {
  import opened Pieces
  import opened Board
  import opened Geometry
  import opened Moves
  import opened Rules
  import opened Legality

  /** The rook's and the queen's loop, which runs until both coordinates reach
      the end square. */
  method WalkLine(b: Grid, f: Square, t: Square) returns (clear: bool)
    requires IsGrid(b) && OnBoard(f) && OnBoard(t) && f != t && OnLine(f, t)
    ensures clear <==> ClearBetween(b, f, t)
  {
    var stepX := Sign(t.row - f.row);
    var stepY := Sign(t.col - f.col);
    var i, j := f.row + stepX, f.col + stepY;
    ghost var k := 1;
    AlongLine(f, t, k);
    while i != t.row || j != t.col
      invariant 1 <= k <= Dist(f, t)
      invariant Square(i, j) == Along(f, t, k)
      invariant OnBoard(Square(i, j))
      invariant forall m | 0 < m < k :: At(b, Along(f, t, m)) == Blank
      decreases Dist(Square(i, j), t)
    {
      if b[i][j] != Blank {
        return false;
      }
      i, j, k := i + stepX, j + stepY, k + 1;
      AlongLine(f, t, k);
    }
    AlongLine(f, t, k);
    return true;
  }

  /** The bishop's loop, which tests only the row coordinate: on a diagonal the
      column reaches the end square at the same step. */
  method WalkDiagonal(b: Grid, f: Square, t: Square) returns (clear: bool)
    requires IsGrid(b) && OnBoard(f) && OnBoard(t) && f != t && Diagonal(f, t)
    ensures clear <==> ClearBetween(b, f, t)
  {
    var stepX := Sign(t.row - f.row);
    var stepY := Sign(t.col - f.col);
    var i, j := f.row + stepX, f.col + stepY;
    ghost var k := 1;
    AlongLine(f, t, k);
    while i != t.row
      invariant 1 <= k <= Dist(f, t)
      invariant Square(i, j) == Along(f, t, k)
      invariant OnBoard(Square(i, j))
      invariant forall m | 0 < m < k :: At(b, Along(f, t, m)) == Blank
      decreases Abs(t.row - i)
    {
      if b[i][j] != Blank {
        return false;
      }
      i, j, k := i + stepX, j + stepY, k + 1;
      AlongLine(f, t, k);
    }
    AlongLine(f, t, k);
    return true;
  }

  /** `isValidMove` statement by statement, with early returns. */
  method CheckMove(b: Grid, startX: int, startY: int, endX: int, endY: int) returns (valid: bool)
    requires IsGrid(b)
    ensures valid == IsValidMove(b, Square(startX, startY), Square(endX, endY))
    ensures WellFormed(b) ==> (valid <==> Legal(b, Square(startX, startY), Square(endX, endY)))
  {
    var from, to := Square(startX, startY), Square(endX, endY);
    if WellFormed(b) {
      ValidMoveIsLegal(b, from, to);
    }
    if !OnBoard(from) || !OnBoard(to) {
      return false;
    }
    if startX == endX && startY == endY {
      return false;
    }
    var piece := b[startX][startY];
    var target := b[endX][endY];
    if piece == Blank || (target != Blank && SameCase(piece, target)) {
      return false;
    }
    var dx := endX - startX;
    var dy := endY - startY;
    var kind := Lower(piece);
    if kind == 'p' {
      if piece == 'P' {
        valid := (dx == -1 && dy == 0 && target == Blank)
          || (dx == -1 && Abs(dy) == 1 && target != Blank)
          || (startX == 6 && dx == -2 && dy == 0 && b[startX - 1][startY] == Blank && target == Blank);
      } else {
        valid := (dx == 1 && dy == 0 && target == Blank)
          || (dx == 1 && Abs(dy) == 1 && target != Blank)
          || (startX == 1 && dx == 2 && dy == 0 && b[startX + 1][startY] == Blank && target == Blank);
      }
    } else if kind == 'r' {
      if (dx == 0 || dy == 0) && target != piece {
        valid := WalkLine(b, from, to);
      } else {
        valid := false;
      }
    } else if kind == 'n' {
      valid := (Abs(dx) == 2 && Abs(dy) == 1) || (Abs(dx) == 1 && Abs(dy) == 2);
    } else if kind == 'b' {
      if Abs(dx) == Abs(dy) {
        valid := WalkDiagonal(b, from, to);
      } else {
        valid := false;
      }
    } else if kind == 'q' {
      if Abs(dx) == Abs(dy) || dx == 0 || dy == 0 {
        valid := WalkLine(b, from, to);
      } else {
        valid := false;
      }
    } else if kind == 'k' {
      valid := Abs(dx) <= 1 && Abs(dy) <= 1;
    } else {
      valid := false;
    }
  }
}
