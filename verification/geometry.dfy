/**
 Offsets between squares: the `abs`, the unit step `dx / abs(dx)` and the
 straight and diagonal lines the sliding pieces move along.
 */
module Geometry {
  import opened Pieces
  import opened Board

  function Abs(x: int): nat {
    if x < 0 then -x else x
  }

  function Max(a: int, b: int): int {
    if a < b then b else a
  }

  /** The unit step `d ? d / abs(d) : 0` of the program, without the division. */
  function Sign(d: int): int {
    if d > 0 then 1 else if d < 0 then -1 else 0
  }

  /** `Sign` is the program's `d ? d / abs(d) : 0`. The division is exact, so C's
      truncating division and Dafny's Euclidean one agree on it. */
  lemma SignIsUnitStep(d: int)
    ensures d != 0 ==> Sign(d) == d / Abs(d)
    ensures d == 0 ==> Sign(d) == 0
  {
  }

  /** `s * k` for a unit step `s`, written without multiplication. */
  function Scale(s: int, k: int): int {
    if s > 0 then k else if s < 0 then -k else 0
  }

  /** The number of king steps between two squares. */
  function Dist(f: Square, t: Square): nat {
    Max(Abs(t.row - f.row), Abs(t.col - f.col))
  }

  /** Same row or same column (`dx == 0 || dy == 0`). */
  predicate Straight(f: Square, t: Square) {
    f.row == t.row || f.col == t.col
  }

  /** `abs(dx) == abs(dy)`. */
  predicate Diagonal(f: Square, t: Square) {
    Abs(t.row - f.row) == Abs(t.col - f.col)
  }

  predicate OnLine(f: Square, t: Square) {
    Straight(f, t) || Diagonal(f, t)
  }

  /** The square `k` unit steps from `f` towards `t`. */
  function Along(f: Square, t: Square, k: int): Square {
    Square(f.row + Scale(Sign(t.row - f.row), k), f.col + Scale(Sign(t.col - f.col), k))
  }

  /** Walking from `f` towards `t` on a line stays on the board, meets `t`
      after exactly `Dist(f, t)` steps and not before. */
  lemma AlongLine(f: Square, t: Square, k: int)
    requires OnBoard(f) && OnBoard(t) && OnLine(f, t)
    requires 0 <= k <= Dist(f, t)
    ensures OnBoard(Along(f, t, k))
    ensures Along(f, t, k) == t <==> k == Dist(f, t)
    ensures Dist(Along(f, t, k), t) == Dist(f, t) - k
  {
  }

  /** Every square strictly between `f` and `t` on their common line is empty. */
  predicate ClearBetween(b: Grid, f: Square, t: Square)
    requires IsGrid(b) && OnBoard(f) && OnBoard(t) && OnLine(f, t)
  {
    forall k | 0 < k < Dist(f, t) :: At(b, Along(f, t, k)) == Blank
  }
}
