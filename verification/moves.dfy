/**
 `isValidMove` of `chess.c`, one test after another: bounds, the null move, the
 source and capture test on characters, then a switch on the lower-cased
 piece letter. The sliding pieces' `for` loops are the recursive `PathWalk`.
 */
module Moves {
  import opened Pieces
  import opened Board
  import opened Geometry

  /** `(ex, ey)` is reached from `(i, j)` by some number of unit steps `(si, sj)`. */
  predicate OnRay(i: int, j: int, si: int, sj: int, ex: int, ey: int) {
    var d := Dist(Square(i, j), Square(ex, ey));
    -1 <= si <= 1 && -1 <= sj <= 1 && ex - i == Scale(si, d) && ey - j == Scale(sj, d)
  }

  /** The square `n` unit steps `(si, sj)` before `t`. */
  function Back(t: Square, si: int, sj: int, n: int): Square {
    Square(t.row - Scale(si, n), t.col - Scale(sj, n))
  }

  /** The path loop `for (i, j; i != endX || j != endY; i += stepX, j += stepY)`:
      true when it reaches the end square without meeting a non-blank cell.
      Every cell it reads lies on the board, and it stops because each step
      brings it one king step closer to the end square. It succeeds exactly
      when every cell from `(i, j)` up to the end square (excluded) is blank,
      the cell `n` steps before the end for every `n` up to the distance. */
  function PathWalk(b: Grid, i: int, j: int, si: int, sj: int, ex: int, ey: int): (clear: bool)
    requires IsGrid(b)
    requires OnBoard(Square(i, j)) && OnBoard(Square(ex, ey))
    requires OnRay(i, j, si, sj, ex, ey)
    ensures clear <==> forall n | 0 < n <= Dist(Square(i, j), Square(ex, ey)) ::
                         At(b, Back(Square(ex, ey), si, sj, n)) == Blank
    decreases Dist(Square(i, j), Square(ex, ey))
  {
    if i == ex && j == ey then true
    else
      var d := Dist(Square(i, j), Square(ex, ey));
      assert Dist(Square(i + si, j + sj), Square(ex, ey)) == d - 1;
      assert Back(Square(ex, ey), si, sj, d) == Square(i, j);
      b[i][j] == Blank && PathWalk(b, i + si, j + sj, si, sj, ex, ey)
  }

  /** Every square of a line lies on the ray the path loop walks towards `t`. */
  lemma AlongRay(f: Square, t: Square, k: int)
    requires OnBoard(f) && OnBoard(t) && OnLine(f, t)
    requires 0 <= k <= Dist(f, t)
    ensures OnRay(Along(f, t, k).row, Along(f, t, k).col, Sign(t.row - f.row), Sign(t.col - f.col), t.row, t.col)
  {
  }

  /** The `m`-th square of a line, counted from `f`, is the square `Dist(f, t) - m`
      steps before `t`. */
  lemma AlongFromEnd(f: Square, t: Square, m: int)
    requires OnLine(f, t) && 0 <= m <= Dist(f, t)
    ensures Along(f, t, m) == Back(t, Sign(t.row - f.row), Sign(t.col - f.col), Dist(f, t) - m)
  {
  }

  /** A path walk from the `k`-th square of the line that succeeds has seen
      only blank squares up to `t`. */
  lemma WalkSeesBlanks(b: Grid, f: Square, t: Square, k: int)
    requires IsGrid(b) && OnBoard(f) && OnBoard(t) && OnLine(f, t)
    requires 0 < k <= Dist(f, t)
    requires OnRay(Along(f, t, k).row, Along(f, t, k).col, Sign(t.row - f.row), Sign(t.col - f.col), t.row, t.col)
    requires OnBoard(Along(f, t, k))
    requires PathWalk(b, Along(f, t, k).row, Along(f, t, k).col, Sign(t.row - f.row), Sign(t.col - f.col), t.row, t.col)
    ensures forall m | k <= m < Dist(f, t) :: At(b, Along(f, t, m)) == Blank
  {
    AlongLine(f, t, k);
    var si, sj := Sign(t.row - f.row), Sign(t.col - f.col);
    var d := Dist(f, t);
    forall m | k <= m < d
      ensures At(b, Along(f, t, m)) == Blank
    {
      AlongFromEnd(f, t, m);
      AlongLine(f, t, m);
      assert At(b, Back(t, si, sj, d - m)) == Blank;
    }
  }

  /** A non-blank square `n` steps before `t` is the square `Dist(f, t) - n`
      steps after `f`. */
  lemma BlockedFromEnd(b: Grid, f: Square, t: Square, n: int)
    requires IsGrid(b) && OnBoard(f) && OnBoard(t) && OnLine(f, t)
    requires 0 < n <= Dist(f, t)
    requires OnBoard(Back(t, Sign(t.row - f.row), Sign(t.col - f.col), n))
    requires At(b, Back(t, Sign(t.row - f.row), Sign(t.col - f.col), n)) != Blank
    ensures OnBoard(Along(f, t, Dist(f, t) - n))
    ensures At(b, Along(f, t, Dist(f, t) - n)) != Blank
  {
    AlongFromEnd(f, t, Dist(f, t) - n);
  }

  /** The path walk from the `k`-th square of the line up to `t` succeeds exactly
      when the squares from the `k`-th one up to (not including) `t` are blank. */
  lemma WalkFrom(b: Grid, f: Square, t: Square, k: int)
    requires IsGrid(b) && OnBoard(f) && OnBoard(t) && OnLine(f, t)
    requires 0 < k <= Dist(f, t)
    ensures OnBoard(Along(f, t, k))
    ensures OnRay(Along(f, t, k).row, Along(f, t, k).col, Sign(t.row - f.row), Sign(t.col - f.col), t.row, t.col)
    ensures PathWalk(b, Along(f, t, k).row, Along(f, t, k).col, Sign(t.row - f.row), Sign(t.col - f.col), t.row, t.col)
            <==> forall m | k <= m < Dist(f, t) :: At(b, Along(f, t, m)) == Blank
  {
    AlongLine(f, t, k);
    AlongRay(f, t, k);
    var s := Along(f, t, k);
    var si, sj := Sign(t.row - f.row), Sign(t.col - f.col);
    if PathWalk(b, s.row, s.col, si, sj, t.row, t.col) {
      WalkSeesBlanks(b, f, t, k);
    } else {
      var n :| 0 < n <= Dist(f, t) - k && At(b, Back(t, si, sj, n)) != Blank;
      BlockedFromEnd(b, f, t, n);
    }
  }

  /** The sliding walk from the square after `f` up to `t`, as the rook, bishop
      and queen cases start it. */
  function SlideFrom(b: Grid, f: Square, t: Square): (clear: bool)
    requires IsGrid(b) && OnBoard(f) && OnBoard(t) && f != t && OnLine(f, t)
    ensures clear <==> ClearBetween(b, f, t)
  {
    var si := Sign(t.row - f.row);
    var sj := Sign(t.col - f.col);
    WalkFrom(b, f, t, 1);
    var first := Along(f, t, 1);
    assert first == Square(f.row + si, f.col + sj);
    PathWalk(b, first.row, first.col, si, sj, t.row, t.col)
  }

  /** The colour test of the program: both letters lower case, or both upper case. */
  predicate SameCase(piece: char, target: char)
    ensures IsPieceChar(piece) && IsPieceChar(target) ==>
              (SameCase(piece, target) <==> Decode(piece).piece.colour == Decode(target).piece.colour)
  {
    (piece >= 'a' && target >= 'a') || (piece <= 'Z' && target <= 'Z')
  }

  /** The `switch (tolower(piece))` of the program: the rule of the piece on
      `from`, for a move that passed the earlier tests. */
  function PieceRule(b: Grid, from: Square, to: Square): (allowed: bool)
    requires IsGrid(b) && OnBoard(from) && OnBoard(to) && from != to
    ensures allowed ==> Lower(At(b, from)) in "prnbqk"
    ensures allowed && Lower(At(b, from)) == 'p' ==>
              Abs(to.col - from.col) <= 1 && 1 <= Abs(to.row - from.row) <= 2
    ensures allowed && Lower(At(b, from)) in "rbq" ==> OnLine(from, to)
    ensures allowed && Lower(At(b, from)) == 'n' ==> Dist(from, to) == 2 && !OnLine(from, to)
    ensures allowed && Lower(At(b, from)) == 'k' ==> Dist(from, to) == 1
  {
    var piece := At(b, from);
    var target := At(b, to);
    var dx := to.row - from.row;
    var dy := to.col - from.col;
    match Lower(piece)
    case 'p' =>
      if piece == 'P' then
        || (dx == -1 && dy == 0 && target == Blank)
        || (dx == -1 && Abs(dy) == 1 && target != Blank)
        || (from.row == 6 && dx == -2 && dy == 0 && b[from.row - 1][from.col] == Blank && target == Blank)
      else
        || (dx == 1 && dy == 0 && target == Blank)
        || (dx == 1 && Abs(dy) == 1 && target != Blank)
        || (from.row == 1 && dx == 2 && dy == 0 && b[from.row + 1][from.col] == Blank && target == Blank)
    case 'r' => (dx == 0 || dy == 0) && target != piece && SlideFrom(b, from, to)
    case 'n' => (Abs(dx) == 2 && Abs(dy) == 1) || (Abs(dx) == 1 && Abs(dy) == 2)
    case 'b' => Abs(dx) == Abs(dy) && SlideFrom(b, from, to)
    case 'q' => (Abs(dx) == Abs(dy) || dx == 0 || dy == 0) && SlideFrom(b, from, to)
    case 'k' => Abs(dx) <= 1 && Abs(dy) <= 1
    case _ => false
  }

  /** `isValidMove(board, from.row, from.col, to.row, to.col) != 0`. */
  function IsValidMove(b: Grid, from: Square, to: Square): (valid: bool)
    requires IsGrid(b)
    ensures valid ==> OnBoard(from) && OnBoard(to) && from != to
    ensures valid ==> At(b, from) != Blank
    ensures valid && IsCellChar(At(b, from)) && IsPieceChar(At(b, to)) ==>
              Decode(At(b, from)).piece.colour != Decode(At(b, to)).piece.colour
  {
    if !OnBoard(from) || !OnBoard(to) then false
    else if from == to then false
    else
      var piece := At(b, from);
      var target := At(b, to);
      if piece == Blank || (target != Blank && SameCase(piece, target)) then false
      else PieceRule(b, from, to)
  }
}
