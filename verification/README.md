# Chess move legality, modelled in Dafny

A model of the move checker of the small terminal chess program `chess.c`:
the starting position (`initBoard`), the legality test of a proposed move
(`isValidMove`) and the board update (`movePiece`). The program knows no
check, castling, en passant, promotion or turn order, and neither does the
model: it states the program's own rule set.

The board is an 8x8 grid of characters (`seq<seq<char>>`): a blank for an
empty square, `PRNBQK` for White's pieces and `prnbqk` for Black's. Row 0 is
rank 8, so White's pawns move towards row 0 and Black's towards row 7. A
square is `Square(row, col)`; the program calls the row `X` and the column `Y`.

Modules, one file each:

- `Pieces` (`pieces.dfy`): kinds, colours and pieces as datatypes, and the
  one-character encoding with its decoding. Colour is the letter case, as in
  the program: Black is `>= 'a'`, White is `<= 'Z'`.
- `Board` (`board.dfy`): the grid, `InitBoard` and `MovePiece`.
- `Geometry` (`geometry.dfy`): offsets, the unit step `d / abs(d)`, the
  squares along a straight or diagonal line, and `ClearBetween`: every
  square strictly between two squares of a line is empty.
- `Moves` (`moves.dfy`): `IsValidMove`, the program's test written as it is:
  the bounds test, the null-move test, the source-and-capture test on
  characters, and the switch on `tolower(piece)`. The three path loops are
  the recursive `PathWalk`, whose precondition proves that every cell it
  reads is on the board and whose `decreases` proves that it stops; the
  lemmas after it relate the cells it reads, counted back from the end
  square, to the squares of the line counted from the start square.
- `Rules` (`rules.dfy`): an independent statement of the same rules, on
  pieces with a colour field, with `ClearBetween` ("every square strictly
  between is empty") in place of the walk.
- `Legality` (`legality.dfy`): the two agree on every well-formed board
  (`ValidMoveIsLegal`), and the per-piece rules that follow.
- `Scan` (`scan.dfy`): the test again as a method with the program's
  `for` loops as `while` loops, including the bishop loop's row-only exit
  test, proved to compute `IsValidMove`.
- `Opening` (`opening.dfy`): facts about the starting position.

A well-formed board is one whose every cell is a blank or one of the twelve
piece letters. Every board the program builds is one (`InitialLayout`,
`MovePreservesWellFormed`), and on such boards the case test of the program
is exactly the colour test.

## Model

| member | source | states |
|---|---|---|
| `Pieces.Lower` | chess.c:60 | `tolower`: an upper-case letter becomes the lower-case letter 32 code points above it, any other character is unchanged |
| `Pieces.Encode` | chess.c:14-21 | a piece is written as one of the twelve piece letters, upper case (`<= 'Z'`) exactly for White and lower case (`>= 'a'`) exactly for Black |
| `Pieces.Decode` | chess.c:50-53 | a cell character reads as empty exactly when it is the blank, and an occupied cell encodes back to the same character |
| `Pieces.DecodeEncode` | chess.c:14-21 | encoding any cell gives a valid cell character that decodes back to that cell |
| `Pieces.CaseIsColour` | chess.c:53 | on piece letters, `>= 'a'` holds exactly for Black pieces and `<= 'Z'` exactly for White ones |
| `Pieces.LowerIsKind` | chess.c:60 | lower-casing a piece letter keeps only its kind, so the switch sees the same case for both colours |
| `Board.InitBoard` | chess.c:12-27 | the starting board is well formed, and Black's two ranks are White's two ranks in lower case, mirrored top to bottom |
| `Board.InitialLayout` | chess.c:12-27 | the starting board is well formed; row 0 holds Black's back rank in the order rook, knight, bishop, queen, king, bishop, knight, rook, row 1 Black's pawns, rows 2 to 5 are empty, row 6 holds White's pawns and row 7 White's back rank |
| `Board.MovePiece` | chess.c:120-123 | after the move the start square is blank, the end square holds what the start square held (when they differ), and every other square is unchanged |
| `Board.MovePreservesWellFormed` | chess.c:120-123 | moving a piece on a well-formed board leaves a well-formed board |
| `Geometry.SignIsUnitStep` | chess.c:78-104 | the unit step of the rook, bishop and queen cases (chess.c:78-79, 93-94, 103-104): for a non-zero offset it is the offset divided by its absolute value, and 0 for a zero offset |
| `Geometry.AlongLine` | chess.c:78-80 | stepping from a square towards another on a common row, column or diagonal stays on the board, and reaches the target after exactly `Dist` steps and not before |
| `Moves.PathWalk` | chess.c:80-107 | each of the three path loops (chess.c:80-82, 95-97 and 105-107; the bishop's row-only exit test is reconciled in `Scan.WalkDiagonal`) reads only cells on the board, stops, and succeeds exactly when every cell from its current square up to the end square (excluded) is blank |
| `Moves.SlideFrom` | chess.c:78-83 | the sliding loop, started one unit step from the start square, succeeds exactly when every square strictly between start and end is blank (`ClearBetween`) |
| `Moves.SameCase` | chess.c:53 | on two piece letters, the program's case test holds exactly when the two pieces have the same colour |
| `Moves.PieceRule` | chess.c:60-117 | the switch accepts only known piece letters; an accepted pawn move goes one or two rows and at most one column, a rook, bishop or queen move stays on a row, column or diagonal, a knight move is two king steps off every line, and a king move is one king step |
| `Moves.IsValidMove` | chess.c:40-118 | a valid move has both squares on the board and distinct, starts from a non-blank square, and never lands on a piece of the mover's own colour |
| `Moves.AlongRay` | chess.c:78-80 | every square of a line lies on the ray the path loop follows towards the end square |
| `Moves.AlongFromEnd` | chess.c:80 | the k-th square of a line from the start square is the square `Dist - k` unit steps before the end square |
| `Moves.WalkFrom` | chess.c:80-82 | the path loop started at the k-th square of the line succeeds exactly when the squares from the k-th one up to the end square (excluded) are blank |
| `Legality.RookTargetTestRedundant` | chess.c:77 | the rook's `target != piece` test never rejects a move the capture test at line 53 let through |
| `Legality.CaptureTestIsColour` | chess.c:53-55 | on a well-formed board the case test rejects exactly the targets that hold a piece of the mover's colour |
| `Legality.DispatchAgrees` | chess.c:57-117 | for a move that passed the first three tests, the switch on the piece letter accepts exactly the moves the reference rule of that kind of piece allows |
| `Legality.ValidMoveIsLegal` | chess.c:40-118 | on every well-formed board the program's move test equals the reference rules stated on pieces with a colour field and a declarative clear-path condition |
| `Legality.WhitePawnMoves` | chess.c:62-67 | a white pawn move is valid exactly for a one-row push up onto a blank, a diagonal step up onto a black piece, or a two-row push from row 6 over a blank onto a blank |
| `Legality.BlackPawnMoves` | chess.c:68-74 | the mirror image for a black pawn: one row down onto a blank, diagonally down onto a white piece, or two rows down from row 1 over a blank onto a blank |
| `Legality.RookMoves` | chess.c:76-85 | a rook move is valid exactly when it stays on one row or column, every square between is empty and the target is empty or an enemy |
| `Legality.BishopMoves` | chess.c:91-100 | a bishop move is valid exactly when it is diagonal, every square between is empty and the target is empty or an enemy |
| `Legality.QueenMoves` | chess.c:101-110 | a queen move is valid exactly when it is straight or diagonal, every square between is empty and the target is empty or an enemy |
| `Legality.KnightMoves` | chess.c:86-90 | a knight move is valid exactly when the offset is two by one or one by two and the target is empty or an enemy |
| `Legality.KingMoves` | chess.c:111-115 | a king move is valid exactly when it goes to one of the eight neighbouring squares that is empty or holds an enemy |
| `Legality.KnightIgnoresOtherSquares` | chess.c:86-90 | the knight's verdict depends only on its own square and the target square, on any grid |
| `Legality.KingIgnoresOtherSquares` | chess.c:111-115 | the king's verdict depends only on its own square and the target square, on any grid |
| `Legality.NoMoveFromVacatedSquare` | chess.c:120-123 | after a piece has moved, no move from the square it left is valid |
| `Scan.WalkLine` | chess.c:78-83 | the rook's and queen's loop terminates, reads only cells on the board, and succeeds exactly when every square strictly between is empty |
| `Scan.WalkDiagonal` | chess.c:93-98 | the bishop's loop, which tests only the row to stop, terminates, reads only cells on the board and succeeds exactly when every square strictly between is empty |
| `Scan.CheckMove` | chess.c:40-118 | the program's test with early returns and loops computes `IsValidMove`, and on well-formed boards the reference rules |
| `Opening.InitialDoublePush` | chess.c:13-22 | from the starting position every white pawn may advance from row 6 to row 4 and every black pawn from row 1 to row 3 |
| `Opening.StartingSides` | chess.c:13-22 | in the starting position rows 0 and 1 hold black pieces and rows 6 and 7 white ones |
| `Opening.BackRankHemmedIn` | chess.c:13-22 | a back-rank piece of the starting position cannot slide or step anywhere: the first square towards any target holds its own side's piece |
| `Opening.OnlyPawnsAndKnightsMove` | chess.c:13-22 | in the starting position every valid move is made by a pawn or a knight |
| `Opening.PawnExamples` | chess.c:62-74 | e2-e4 and a7-a6 are valid at the start; e2-e5 and e2-d3 are not |
| `Opening.BackRankStuck` | chess.c:13-22 | in the starting position no rook, bishop, queen or king on a back rank has a valid move |
| `Opening.KnightExample` | chess.c:86-90 | at the start the knight move b1-c3 is valid |
| `Opening.BishopAfterPawnMove` | chess.c:91-100 | after b2-b4 the bishop move c1-a3 is valid |
| `Opening.KingAfterPawnMove` | chess.c:111-115 | after e2-e4 the king move e1-e2 is valid |

## Left out

- `printBoard` (chess.c:29-38): output only.
- `main` (chess.c:125-153): the input loop reading a move with `fgets` and turning `e2 e4` into coordinates. The model takes coordinates as unbounded integers, so every coordinate the parser can produce is covered by the bounds test.
- `colourmandelbrot.c` and `sdl_demo.c`: floating-point fractal rendering and an SDL animation, not part of the move checker.
- `Moves.IsValidMove`: characters are compared as unsigned code points. Where the C `char` is signed, a character above 127 would compare below `'Z'`; such characters never appear on a board the program builds, and every property is stated for well-formed boards.
- `Board.MovePiece`: requires both squares on the board, because the C function indexes the array without a test and is only called after a successful `isValidMove`.
- Turn order, check, castling, en passant and promotion: the program has none of them.

Only the rook case repeats a target test, `target != piece` (chess.c:77); `Legality.RookTargetTestRedundant` shows it never rejects a move that the capture test at chess.c:53 let through.
