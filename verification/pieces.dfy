/**
 The pieces of the chess program and their one-character encoding.

 A board cell holds one character: a blank for an empty square, an
 upper-case letter for a White piece and a lower-case letter for a Black
 piece (`P`awn, `R`ook, k`N`ight, `B`ishop, `Q`ueen, `K`ing). This module
 gives the same information as datatypes, with colour as a field of its
 own, and proves that the two views agree.
 */
module Pieces {

  datatype Colour = White | Black

  datatype Kind = Pawn | Rook | Knight | Bishop | Queen | King

  datatype Piece = Piece(kind: Kind, colour: Colour)

  datatype Cell = Empty | Occupied(piece: Piece)

  /** The character of an empty square. */
  const Blank: char := ' '

  /** The characters that stand for a piece. */
  predicate IsPieceChar(c: char) {
    || c == 'P' || c == 'R' || c == 'N' || c == 'B' || c == 'Q' || c == 'K'
    || c == 'p' || c == 'r' || c == 'n' || c == 'b' || c == 'q' || c == 'k'
  }

  /** The characters a board cell may hold. */
  predicate IsCellChar(c: char) {
    c == Blank || IsPieceChar(c)
  }

  /** C's `tolower`: upper-case ASCII letters map to lower case, every other character to itself. */
  function Lower(c: char): (l: char)
    ensures 'A' <= c <= 'Z' ==> 'a' <= l <= 'z' && l as int == c as int + 32
    ensures !('A' <= c <= 'Z') ==> l == c
  {
    if 'A' <= c <= 'Z' then (c as int - 'A' as int + 'a' as int) as char else c
  }

  /** The upper-case letter that names a kind of piece. */
  function Letter(k: Kind): (l: char)
    ensures 'A' <= l <= 'Z'
    ensures IsPieceChar(l) && IsPieceChar(Lower(l))
  {
    match k
    case Pawn => 'P'
    case Rook => 'R'
    case Knight => 'N'
    case Bishop => 'B'
    case Queen => 'Q'
    case King => 'K'
  }

  /** The character that stands for a piece: its letter, lowered for Black. */
  function Encode(p: Piece): (c: char)
    ensures IsPieceChar(c)
    ensures p.colour == White ==> c <= 'Z' && !(c >= 'a')
    ensures p.colour == Black ==> c >= 'a' && !(c <= 'Z')
  {
    var l := Letter(p.kind);
    if p.colour == White then l else Lower(l)
  }

  function EncodeCell(cell: Cell): char {
    match cell
    case Empty => Blank
    case Occupied(p) => Encode(p)
  }

  /** Reads a cell character back as a cell. */
  function Decode(c: char): (cell: Cell)
    requires IsCellChar(c)
    ensures cell.Empty? <==> c == Blank
    ensures cell.Occupied? ==> Encode(cell.piece) == c
  {
    match c
    case 'P' => Occupied(Piece(Pawn, White))
    case 'R' => Occupied(Piece(Rook, White))
    case 'N' => Occupied(Piece(Knight, White))
    case 'B' => Occupied(Piece(Bishop, White))
    case 'Q' => Occupied(Piece(Queen, White))
    case 'K' => Occupied(Piece(King, White))
    case 'p' => Occupied(Piece(Pawn, Black))
    case 'r' => Occupied(Piece(Rook, Black))
    case 'n' => Occupied(Piece(Knight, Black))
    case 'b' => Occupied(Piece(Bishop, Black))
    case 'q' => Occupied(Piece(Queen, Black))
    case 'k' => Occupied(Piece(King, Black))
    case _ => Empty
  }

  /** Encoding a cell and decoding it again gives the cell back. */
  lemma DecodeEncode(cell: Cell)
    ensures IsCellChar(EncodeCell(cell))
    ensures Decode(EncodeCell(cell)) == cell
  {
  }

  /** The colour of a piece character is its case: Black is `>= 'a'`, White is `<= 'Z'`. */
  lemma CaseIsColour(c: char)
    requires IsPieceChar(c)
    ensures Decode(c).Occupied?
    ensures Decode(c).piece.colour == Black <==> c >= 'a'
    ensures Decode(c).piece.colour == White <==> c <= 'Z'
  {
  }

  /** Lower-casing a piece character forgets its colour and keeps its kind. */
  lemma LowerIsKind(c: char)
    requires IsPieceChar(c)
    ensures Lower(c) == Lower(Letter(Decode(c).piece.kind))
  {
  }
}
