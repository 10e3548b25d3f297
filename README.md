# Imperial Chess rules engine, modelled in Dafny

This project models the chess rules engine of Imperial Chess. That is the part of the game that holds the board state and works out legal moves:
- the 8×8 bitboards and their ray-cutting refinement;
- board positions and candidate moves;
- the six piece kinds, with their pre-computed move tables, their board refinement and their hooks (castling and en passant flags);
- the chessboard: moving, capturing, changing turn, check, checkmate and the "is this move safe" lookahead on a board copy;
- the move chooser of the AI.

The modules follow the source files:

| module (file) | models |
|---|---|
| `Wrappers` (wrappers.dfy) | `Option`, `Result` and the exceptions the source can throw (`KeyNotFound`, `IndexOutOfRange`, `NullReference`, `InvalidCast`) |
| `Constants` (constants.dfy) | the `Side` enum |
| `Movement` (movement.dfy) | `Position` (a value) and `Move` (a class whose score is set in place) |
| `Bitboards` (bitboard.dfy) | the set of squares a row array denotes; the class `Bitboard` over an `array<bv8>` of eight rows, with every operation proved against that set |
| `Rays` (rays.dfy) | the geometry of rays from a square, and what `ComputeRayIntersections` leaves of a star-shaped or a scattered move set |
| `Pieces` (pieces.dfy) | piece kinds and their flags, the geometric shape of each move table, the copy, per-turn and initialisation hooks, and each kind's refinement |
| `Shapes` (shapes.dfy) | the loops of every `ComputeMoves`, proved to fill the table with exactly those shapes |
| `Rules` (rules.dfy) | the chessboard as a value (`BoardState`), with every board and piece operation written as a function |
| `RulesProperties` (rules_lemmas.dfy) | what those functions mean: the occupancy invariant, castling rights, check, safe moves, checkmate, and the moves of each kind |
| `Board` (chessboard.dfy) | the class `Chessboard`, with fields for the two bitboards, the moving side and the list of active pieces; each method is proved equal to its `Rules` function on the state it started from |
| `AI` (ai.dfy) | `computeBestMove`, proved against the search function `BestScan`, with lemmas on what the move found is |

## How the source is represented

- **Pieces** are values (`Pieces.Piece`): a kind with its flags, a side, a square and a move table (a map from square to row bytes). A piece is referred to by its index in the board's list of active pieces, so a `Move` holds an index where the source holds an object.
- **Exceptions** the source would throw become `Err` results, and propagate as they do in the source:
  - a pawn on row 1 or 8 has no table entry;
  - a side with no King on the board;
  - the missing null check of the left en passant;
  - the cast of the piece in the castling rook's corner.
- **The mutual recursion** is one of the source's calls: `IsKingInCheck` → enemy moves → castling of a King → `IsMoveSafe` → `IsKingInCheck` on a copy. It terminates because castling is computed only for the side to move, and inside `IsKingInCheck` for the side to move the pieces scanned are the opponent's, which are not of the side to move. The `decreases` clauses rank the calls in this way.
- **Corners of the source reproduced as written:**
  - The King's table entry includes the King's own square. The friendly pass of its refinement then removes it.
  - Queen-side castling requires only columns 5 and 6 to be empty, not column 7. The King starts on column 4 and the Rook on column 8.
  - The left en passant test does not check for a missing piece, which is a `NullReference`. The right test does check.
  - The check test ignores every enemy pawn standing in the King's column.
  - `KillPieceAtPosition` removes the first piece listed on a square, while `GetPieceAtPosition` finds the last.
  - `IntersectBitboard` computes "self and not other".
  - `ComplementBitboard` ignores its receiver.

## Model

| member | source | states |
|---|---|---|
| Constants.Side.Opponent | Assets/Scripts/Constants.cs:103-107 | the other side is the one side that is not this one |
| Movement.Position.SetRow | Assets/Scripts/Movement.cs:27-30 | the row becomes the new row and the column is kept |
| Movement.Position.SetColumn | Assets/Scripts/Movement.cs:37-40 | the column becomes the new column and the row is kept |
| Movement.Position.Equals | Assets/Scripts/Movement.cs:52-55 | true exactly when the other position is present (non-null) and equal in both coordinates |
| Movement.EqualsIsEquivalence | Assets/Scripts/Movement.cs:47-55 | Equals is reflexive and symmetric, and false against null |
| Movement.Position.HashCode | Assets/Scripts/Movement.cs:57-60 | for a column in 0..18 the hash code divided by 19 gives 19 + row and its remainder gives the column |
| Movement.HashCodeInjectiveOnBoard | Assets/Scripts/Movement.cs:57-60 | on the board, two positions have the same hash code exactly when they are equal |
| Movement.Position.ToString | Assets/Scripts/Movement.cs:42-45 | the text is the character 64+column followed by the decimal form of the row |
| Movement.NatToStringValue | Assets/Scripts/Movement.cs:42-45 | the decimal digits of a number read back as that number |
| Movement.IntToStringValue | Assets/Scripts/Movement.cs:42-45 | the text of an integer reads back as it: a '-' and the magnitude's digits when negative, the digits otherwise |
| Movement.ToStringOnBoard | Assets/Scripts/Movement.cs:42-45 | on the board the text is a letter A..H and a digit 1..8, and different squares have different texts |
| Movement.ToStringA1 | Assets/Scripts/Movement.cs:42-45 | square (1, 1) reads "A1" |
| Movement.Move.constructor | Assets/Scripts/Movement.cs:72-77 | a new move stores its piece and its target, and has score 0 |
| Movement.Move.SetScore | Assets/Scripts/Movement.cs:94-97 | the score read back is the one set, and the piece and the target are unchanged |
| Bitboards.Mask | Assets/Scripts/Bitboard.cs:25-29 | the bit of a column is never zero |
| Bitboards.MaskDistinct | Assets/Scripts/Bitboard.cs:25-29 | the bits of two columns overlap exactly when the columns are equal |
| Bitboards.InSquaresOf | Assets/Scripts/Bitboard.cs:25-29 | a square is in the set the rows denote exactly when it is on the board and its column bit is set in its row byte |
| Bitboards.Bitboard.constructor | Assets/Scripts/Bitboard.cs:15-18 | a new bitboard has eight zero rows and no squares |
| Bitboards.Bitboard.ValueAtPosition | Assets/Scripts/Bitboard.cs:25-29 | the value is non-zero exactly when the square is marked, and is then the column bit |
| Bitboards.Bitboard.FlipPosition | Assets/Scripts/Bitboard.cs:31-37 | the one square is toggled and nothing else changes; the value returned is non-zero exactly when the square was marked before |
| Bitboards.FlippedRowsToggle | Assets/Scripts/Bitboard.cs:31-37 | xor-ing the column bit into the row byte toggles that square in the set and no other |
| Bitboards.FlipTwiceRestores | Assets/Scripts/Bitboard.cs:31-37 | flipping the same square twice restores the rows |
| Bitboards.Bitboard.GetPositions | Assets/Scripts/Bitboard.cs:39-58 | the list is the enumeration of the marked squares in row-major order |
| Bitboards.Bitboard.AppendRow | Assets/Scripts/Bitboard.cs:48-54 | the column loop appends the marked squares of one row, left to right, extending the row-major enumeration by that row |
| Bitboards.EnumerateProperties | Assets/Scripts/Bitboard.cs:39-58 | the enumeration holds exactly the marked squares of the board, each once, strictly ordered by row and then by column |
| Bitboards.EnumerateNonEmpty | Assets/Scripts/Chessboard.cs:230 | the count of GetPositions is positive exactly when some square is marked |
| Bitboards.Bitboard.ComplementBitboard | Assets/Scripts/Bitboard.cs:60-72 | a fresh bitboard whose rows are the bitwise NOT of the argument's rows: every square the argument does not mark; the receiver is ignored |
| Bitboards.ComplementRowsSquares | Assets/Scripts/Bitboard.cs:60-72 | the NOT of the rows marks the board's squares outside the set |
| Bitboards.ComplementTwice | Assets/Scripts/Bitboard.cs:60-72 | complementing twice gives back the rows |
| Bitboards.Bitboard.IntersectBitboard | Assets/Scripts/Bitboard.cs:74-84 | a fresh bitboard with rows (self xor other) and self: the squares of self that other does not mark |
| Bitboards.DifferenceRowsSquares | Assets/Scripts/Bitboard.cs:74-84 | (a xor b) and a marks exactly the squares of a not in b |
| Bitboards.DifferenceWithEmpty | Assets/Scripts/Bitboard.cs:74-84 | against an empty bitboard the result is an exact copy of self |
| Bitboards.BlockerRows | Assets/Scripts/Bitboard.cs:91-97 | the complement of (self and not obstruction), masked with self, marks the squares that are both marked and obstructed |
| Bitboards.Bitboard.CopyAndMask | Assets/Scripts/Bitboard.cs:93-97 | the new board is a copy of self's rows, and the blocker rows are masked with self |
| Bitboards.Sign | Assets/Scripts/Bitboard.cs:103-112 | the direction component is -1, 0 or 1, zero exactly for zero, and of the same sign as the difference |
| Bitboards.Bitboard.ComputeRayIntersections | Assets/Scripts/Bitboard.cs:86-139 | a fresh bitboard marking exactly RayPass of self's squares and the obstruction's squares; self and the obstruction are not changed |
| Bitboards.RayPass | Assets/Scripts/Bitboard.cs:86-139 | the refined set is a subset of the marked set |
| Bitboards.WalkBlockers | Assets/Scripts/Bitboard.cs:101-136 | walking from every blocker in GetPositions order clears exactly what the walks, one after the other, clear |
| Bitboards.ClearRay | Assets/Scripts/Bitboard.cs:122-135 | the while loop clears consecutive marked squares along the direction until an unmarked square or the edge |
| Rays.RayPassOnStar | Assets/Scripts/Bitboard.cs:101-136 | on a move set made of whole rays, the pass removes exactly the squares cut off by a marked obstruction on the same ray: beyond it when the blocker is kept, from it on otherwise |
| Rays.ExcludedObstructionsRemoved | Assets/Scripts/Bitboard.cs:101-136 | when the blocker is excluded, no obstruction square survives the pass |
| Rays.UnobstructedUnchanged | Assets/Scripts/Bitboard.cs:86-101 | when no marked square is obstructed, the pass returns the marked set itself |
| Rays.SliderRefinement | Assets/Scripts/Pieces/Bishop.cs:95-108 | the enemy pass keeping the blocker, then the friendly pass dropping it, leaves exactly the squares that are not friendly and have nothing in between |
| Rays.BlockingRefinement | Assets/Scripts/Pieces/Pawn.cs:175-180 | two passes that both drop the blocker leave exactly the unoccupied squares with nothing in between |
| Rays.RayPassOnScattered | Assets/Scripts/Pieces/Knight.cs:77-90 | on a set where no square is followed on its ray by another, the pass removes just the obstructed squares, or with the blocker kept only the origin |
| Pieces.QueenIsRookAndBishop | Assets/Scripts/Pieces/Queen.cs:45-100 | the queen's shape is the rook's shape plus the bishop's, and those two do not overlap, so no square is marked twice |
| Pieces.RookStar | Assets/Scripts/Pieces/Rook.cs:52-77 | the rook's shape is made of whole rays from its square |
| Pieces.BishopStar | Assets/Scripts/Pieces/Bishop.cs:47-92 | the bishop's shape is made of whole rays from its square |
| Pieces.QueenStar | Assets/Scripts/Pieces/Queen.cs:45-100 | the queen's shape is made of whole rays from its square |
| Pieces.PawnStar | Assets/Scripts/Pieces/Pawn.cs:102-151 | a pawn's forward shape is made of one whole ray from its square |
| Pieces.KnightScattered | Assets/Scripts/Pieces/Knight.cs:45-73 | no knight jump is followed on its ray by another |
| Pieces.KingScattered | Assets/Scripts/Pieces/King.cs:67-93 | no square of the king's block is followed on its ray by another |
| Pieces.KnightSymmetric | Assets/Scripts/Pieces/Knight.cs:53-60 | q is a jump from p exactly when p is a jump from q |
| Pieces.SliderMoves | Assets/Scripts/Pieces/Queen.cs:106-119 | a rook, bishop or queen keeps exactly the squares of its shape that are not friendly and have no piece in between |
| Pieces.KnightMoves | Assets/Scripts/Pieces/Knight.cs:77-90 | a knight keeps exactly the jumps that are not friendly |
| Pieces.KingMoves | Assets/Scripts/Pieces/King.cs:99-107 | a king keeps its block minus the friendly squares (its own square among them on a consistent board), and minus its own square when that is marked as an enemy square; enemy neighbours stay |
| Pieces.PawnForwardMoves | Assets/Scripts/Pieces/Pawn.cs:178-180 | a pawn keeps exactly the forward squares that are empty and have nothing in between |
| Pieces.InitialKind | Assets/Scripts/Pieces/Pawn.cs:257-262 | a new pawn has no en passant flag and its initial square is its square; new rooks and kings may castle; the class is kept |
| Pieces.CopyPiece | Assets/Scripts/Pieces/Piece.cs:75-84 | the copy has the original's side, square, table and flags: it equals the original |
| Pieces.PerTurn | Assets/Scripts/Pieces/Pawn.cs:86-94 | only a pawn changes; it loses its en passant flag exactly when the side to move is its own; side, square, table and initial square are kept |
| Shapes.MarkRankAndFile | Assets/Scripts/Pieces/Rook.cs:52-77 | the loops add exactly the rook's shape to the bitboard |
| Shapes.MarkRank | Assets/Scripts/Pieces/Rook.cs:60-66 | the column loop marks every square of the row of the rook other than its own, and nothing else |
| Shapes.MarkFile | Assets/Scripts/Pieces/Rook.cs:67-73 | the row loop marks every square of the column of the rook other than its own, completing the rook's shape |
| Shapes.MarkDiagonals | Assets/Scripts/Pieces/Bishop.cs:47-92 | the loops add exactly the bishop's shape to the bitboard |
| Shapes.MarkDiagonalColumn | Assets/Scripts/Pieces/Bishop.cs:56-88 | one column of the diagonal loop adds exactly the bishop squares of that column, each flipped once |
| Shapes.MarkKing | Assets/Scripts/Pieces/King.cs:67-93 | the loops mark exactly the king's block, its own square included |
| Shapes.MarkKingColumn | Assets/Scripts/Pieces/King.cs:76-89 | one column of the king's loops adds exactly the block's squares of that column |
| Shapes.KnightCandidates | Assets/Scripts/Pieces/Knight.cs:52-60 | the eight offsets give eight different squares, which are exactly the knight jumps |
| Shapes.MarkKnight | Assets/Scripts/Pieces/Knight.cs:45-73 | marking the candidates that are on the board marks exactly the knight's shape |
| Shapes.SquareMoves | Assets/Scripts/Pieces/Queen.cs:45-100 | the table entry of a non-pawn kind on a square marks exactly its shape |
| Shapes.ComputeMoves | Assets/Scripts/Pieces/Rook.cs:45-78 | the table has an entry for every square of the board, each marking the kind's shape |
| Shapes.ComputePawnMoves | Assets/Scripts/Pieces/Pawn.cs:96-152 | the pawn table has entries exactly for rows 2 to 7: two squares forward from the starting row, one from the others |
| Shapes.MarkRow | Assets/Scripts/Pieces/Pawn.cs:118-125 | one row of the pawn loop adds one square forward for each column, and keeps the other entries |
| Shapes.CreatePiece | Assets/Scripts/Pieces/King.cs:168-172 | a new piece has the initial flags of its kind and a table matching its shapes |
| Rules.EmptyBoard | Assets/Scripts/Chessboard.cs:24-29 | a new board has no occupancy, Black to move and no pieces |
| Rules.FlipBit | Assets/Scripts/Chessboard.cs:98-108 | the square is toggled in that side's occupancy only |
| Rules.FirstAt | Assets/Scripts/Chessboard.cs:148-173 | the first index whose piece stands on the square, or none when no piece does |
| Rules.LastAt | Assets/Scripts/Chessboard.cs:134-146 | the last index whose piece stands on the square, or none when no piece does |
| Rules.PieceAt | Assets/Scripts/Chessboard.cs:134-146 | a piece is found exactly when some listed piece stands on the square, and it is a listed piece on that square |
| Rules.RemoveAt | Assets/Scripts/Chessboard.cs:168 | the list without the one element, the others in order |
| Rules.Kill | Assets/Scripts/Chessboard.cs:148-173 | the first piece on the square leaves the list and its side's bit there is flipped; with no piece there nothing changes |
| Rules.MoveTo | Assets/Scripts/Chessboard.cs:63-84 | a move keeps the side to move and keeps every piece on the board |
| Rules.PostMoveActions | Assets/Scripts/Pieces/King.cs:32-53 | the hooks keep the side to move and every piece on the board |
| Rules.CastleRook | Assets/Scripts/Pieces/King.cs:38-49 | the rook relocation keeps the side to move and every piece on the board |
| Rules.PiecesOfTypeAndSide | Assets/Scripts/Chessboard.cs:175-188 | the result holds exactly the listed pieces of the kind's class and the side |
| Rules.PiecesOfTypeAndSideAppend | Assets/Scripts/Chessboard.cs:175-188 | the pieces are found in list order: one more listed piece appends itself to the result if it matches, and changes nothing else |
| Rules.PiecesOfTypeAndSideFirst | Assets/Scripts/Chessboard.cs:175-188 | the first piece found is the first listed piece of the kind's class and the side |
| Rules.PiecesOfTypeAndSideNone | Assets/Scripts/Chessboard.cs:175-188 | nothing is found in a list without a piece of the kind's class and the side |
| Rules.ChangeMovingSide | Assets/Scripts/Chessboard.cs:36-55 | the side to move toggles, occupancy is kept, and exactly the pieces of the new side run PerTurnProcessing |
| Rules.AddPiece | Assets/Scripts/Chessboard.cs:111-132 | the new piece is appended after a piece on its square is removed; occupancy is not touched |
| RulesProperties.KillConsistent | Assets/Scripts/Chessboard.cs:148-173 | killing keeps "each bitboard marks exactly its side's pieces, on distinct squares" |
| RulesProperties.MoveStepPieces | Assets/Scripts/Chessboard.cs:63-84 | before the hooks, a move onto the mover's own square removes the mover; onto an empty square it replaces the mover in place; onto another piece's square it also removes that piece, keeping the order of the rest |
| RulesProperties.MoveStepMembers | Assets/Scripts/Chessboard.cs:63-84 | before the hooks, a move to another square leaves exactly the moved piece and the pieces on neither the old square nor the target |
| RulesProperties.PlainMoveTo | Assets/Scripts/Chessboard.cs:63-84 | a move of anything but a pawn or a castling King succeeds and writes the mover back on the target, a Rook or King without its castling right |
| RulesProperties.MoveToMeaning | Assets/Scripts/Chessboard.cs:63-84 | a move of a Knight, Bishop, Queen, Rook or non-castling King succeeds and keeps the board invariant; the mover then stands on the target (without a castling right), a piece that stood there is gone, the list shrinking by one, and every other piece is kept in order; a move onto its own square removes the mover |
| RulesProperties.CastleRookMeaning | Assets/Scripts/Pieces/King.cs:38-49 | no piece found on the corner is a NullReference, a non-Rook there an InvalidCast; a Rook there ends on the given column of its row without its castling right, nothing is left on the corner, and every piece on neither square is kept |
| RulesProperties.CastlingMovesRook | Assets/Scripts/Pieces/King.cs:32-53 | a King that may castle moving to column 2 (or 6): finding no piece on column 1 (or 8) but the King's old square is a NullReference, a non-Rook there an InvalidCast; with a Rook there the King ends on the target and the Rook on column 3 (or 5), both without castling rights, the corner is empty, and every piece on none of the four squares is kept |
| RulesProperties.CastlingWithoutRook | Assets/Scripts/Pieces/King.cs:38-49 | castling with no piece but the King itself on the corner is a NullReference |
| RulesProperties.CastlingWithOtherPiece | Assets/Scripts/Pieces/King.cs:38-49 | castling with a piece other than a Rook on the corner is an InvalidCast |
| RulesProperties.CastlingWithRook | Assets/Scripts/Pieces/King.cs:32-53 | castling with a Rook on the corner moves the King and that Rook, clears both rights, and keeps every other piece not captured |
| RulesProperties.KingCastleStep | Assets/Scripts/Pieces/King.cs:32-53 | a castling King's move is the rook relocation applied to the board after the King's own step, which keeps the invariant and holds the King without its right |
| RulesProperties.LastAtMember | Assets/Scripts/Chessboard.cs:134-146 | on a board of distinct squares GetPieceAtPosition on a listed piece's square finds that piece |
| RulesProperties.MoveToConsistent | Assets/Scripts/Chessboard.cs:63-84 | a move that succeeds keeps that occupancy invariant, captures and castling included |
| RulesProperties.MoveInPlaceConsistent | Assets/Scripts/Chessboard.cs:63-84 | a move onto the piece's own square keeps the occupancy invariant |
| RulesProperties.MoveToEmptyConsistent | Assets/Scripts/Chessboard.cs:63-84 | a move onto an empty square keeps the occupancy invariant |
| RulesProperties.MoveCaptureConsistent | Assets/Scripts/Chessboard.cs:63-84 | a move onto a square another piece holds keeps the occupancy invariant once that piece is removed |
| RulesProperties.PostMoveConsistent | Assets/Scripts/Pieces/Pawn.cs:28-56 | the hooks of a moved piece keep the occupancy invariant |
| RulesProperties.CastleRookConsistent | Assets/Scripts/Pieces/King.cs:38-49 | moving the castling rook keeps the occupancy invariant |
| RulesProperties.CastlingRightsOnlyLost | Assets/Scripts/Pieces/King.cs:32-53 | after a move every rook or king that may castle was already on the board, unchanged, and not on the target square: castling rights never return |
| RulesProperties.PostMoveRightsOnlyLost | Assets/Scripts/Pieces/Rook.cs:31-38 | after the hooks every piece that may castle was already listed and is not the moved piece's square |
| RulesProperties.PawnRightsOnlyLost | Assets/Scripts/Pieces/Pawn.cs:28-56 | after a pawn's hooks every piece that may castle was already listed, and the pawn's square holds none |
| RulesProperties.KingRightsOnlyLost | Assets/Scripts/Pieces/King.cs:32-53 | after a King's hooks every piece that may castle was already listed, and the King's square holds none |
| RulesProperties.CastleRookRightsOnlyLost | Assets/Scripts/Pieces/King.cs:38-49 | after the rook relocation every piece that may castle was already listed |
| RulesProperties.CheckScanOk | Assets/Scripts/Chessboard.cs:198-218 | the check loop succeeds exactly when the moves of every enemy piece it visits can be computed |
| RulesProperties.CheckScanOkAt | Assets/Scripts/Chessboard.cs:198-218 | when the check loop over n pieces succeeds, the moves of each enemy piece among them compute |
| RulesProperties.CheckScanOkIf | Assets/Scripts/Chessboard.cs:198-218 | when the moves of every enemy piece among the first n compute, the check loop over them succeeds |
| RulesProperties.CheckScanMeaning | Assets/Scripts/Chessboard.cs:198-218 | the check loop answers true exactly when some enemy piece has the King's square among its moves and is not a pawn in the King's column |
| RulesProperties.InCheckMeaning | Assets/Scripts/Chessboard.cs:190-221 | with one King of side s: no error exactly when every enemy piece's moves compute, and then in check exactly when some enemy piece attacks the King's square |
| RulesProperties.InCheckFirstKing | Assets/Scripts/Chessboard.cs:190-221 | whatever other Kings side s has, the check test looks at its first listed King: no error exactly when every enemy piece's moves compute, and then in check exactly when some enemy piece attacks that King's square |
| RulesProperties.NoKingNoCheck | Assets/Scripts/Chessboard.cs:196 | with no King of side s the check test is an IndexOutOfRange |
| RulesProperties.SafeFilterOkOnlyIf | Assets/Scripts/Pieces/Piece.cs:57-64 | the safe-move loop succeeds only if IsMoveSafe succeeds on every square it visits |
| RulesProperties.SafeFilterOkIf | Assets/Scripts/Pieces/Piece.cs:57-64 | the safe-move loop succeeds if IsMoveSafe succeeds on every square it visits |
| RulesProperties.SafeFilterMeaning | Assets/Scripts/Pieces/Piece.cs:57-64 | after the loop a square remains exactly when it was a move and, if visited, IsMoveSafe held for it |
| RulesProperties.SafeMovesMeaning | Assets/Scripts/Pieces/Piece.cs:55-66 | the safe moves compute exactly when the moves do and IsMoveSafe succeeds on each; they are the moves after which the own King is not in check |
| RulesProperties.SafeMovesOk | Assets/Scripts/Pieces/Piece.cs:55-66 | the safe moves compute exactly when the moves do and IsMoveSafe succeeds on each square of the board among them |
| RulesProperties.SafeMovesValue | Assets/Scripts/Pieces/Piece.cs:55-66 | the safe moves are the moves, minus the squares of the board to which the move is not safe |
| RulesProperties.MobileScanOk | Assets/Scripts/Chessboard.cs:228-234 | the mobility loop succeeds exactly when the safe moves of every piece of side s compute |
| RulesProperties.MobileScanMeaning | Assets/Scripts/Chessboard.cs:228-234 | the mobility loop answers true exactly when some piece of side s has a safe move |
| RulesProperties.MobileScanWitness | Assets/Scripts/Chessboard.cs:228-234 | a mobility loop that answers true has met a piece of side s with a safe move |
| RulesProperties.MobileScanNone | Assets/Scripts/Chessboard.cs:228-234 | a mobility loop that answers false has met no piece of side s with a safe move |
| RulesProperties.CheckmateMeaning | Assets/Scripts/Chessboard.cs:223-242 | checkmate exactly when the King is in check and no piece of side s has a safe move; in check with a move, or not in check with none, is not checkmate |
| RulesProperties.CastleSideMeaning | Assets/Scripts/Pieces/King.cs:117-133 | the target square is added exactly when a rook that may castle stands on the corner, the two squares between are empty and the move to the safe column is safe |
| RulesProperties.CastleMeaning | Assets/Scripts/Pieces/King.cs:111-151 | a King not in check adds column 2 (rook on 1, columns 2 and 3 empty, column 3 safe) and column 6 (rook on 8, columns 5 and 6 empty, column 5 safe); in check it adds nothing |
| RulesProperties.CastleNotInCheckOk | Assets/Scripts/Pieces/King.cs:116-151 | for a King not in check, castling succeeds exactly when, on each side whose rook may castle and whose two squares are empty, IsMoveSafe of the safe square succeeds |
| RulesProperties.CastleNotInCheckValue | Assets/Scripts/Pieces/King.cs:116-151 | for a King not in check, the castling squares added are exactly those of the sides whose test passes |
| RulesProperties.KingMovesMeaning | Assets/Scripts/Pieces/King.cs:96-155 | the King's moves are its refined block; castling is added only when its side is to move and it may castle; a King on column 4 has neither castling square already |
| RulesProperties.SliderMovesMeaning | Assets/Scripts/Pieces/Rook.cs:81-94 | the moves of a rook, bishop or queen are the squares of its shape that are not friendly and have no piece in between |
| RulesProperties.KnightMovesMeaning | Assets/Scripts/Pieces/Knight.cs:77-90 | the knight's moves are its jumps minus the friendly squares |
| RulesProperties.PawnMovesOk | Assets/Scripts/Pieces/Pawn.cs:200-220 | a pawn's moves fail exactly when the left neighbour is marked as an opponent square while no piece stands there |
| RulesProperties.PawnMovesMeaning | Assets/Scripts/Pieces/Pawn.cs:154-243 | a pawn's moves are the free forward squares, and each forward diagonal for which exactly one of these holds: it holds an opponent piece, or it lies beside a flagged opponent pawn (both together cancel, as the two passes flip the same square) |
| RulesProperties.DiagonalFlips | Assets/Scripts/Pieces/Pawn.cs:182-240 | the diagonal and en passant flips add exactly the forward diagonals for which exactly one of these holds: it holds an opponent, or it lies beside a flagged opponent pawn (both together cancel); every square of the pawn's column is kept |
| RulesProperties.PawnTableMoves | Assets/Scripts/Pieces/Piece.cs:49-52 | a pawn's moves are the pawn refinement of its table entry on rows 2 to 7, and a KeyNotFound on rows 1 and 8 |
| RulesProperties.PawnPostMoveMeaning | Assets/Scripts/Pieces/Pawn.cs:28-56 | a moved pawn gets its en passant flag after a double step, and a flagged pawn directly behind it is captured; nothing else changes |
| RulesProperties.PassedPawnCaptured | Assets/Scripts/Pieces/Pawn.cs:37-42 | capturing the piece behind the moved pawn keeps the occupancy invariant, removes exactly one piece, keeps the moved pawn and leaves no piece on that square |
| Board.Chessboard.constructor | Assets/Scripts/Chessboard.cs:24-29 | a new board is the empty board |
| Board.Chessboard.CurrentMovingSide | Assets/Scripts/Chessboard.cs:31-34 | the side to move of the state |
| Board.Chessboard.ChangeMovingSide | Assets/Scripts/Chessboard.cs:36-55 | the new state is Rules.ChangeMovingSide of the old one |
| Board.Chessboard.GetPieceLocations | Assets/Scripts/Chessboard.cs:86-96 | the bitboard of that side, which marks its occupancy |
| Board.Chessboard.FlipBitAtPositionOfBitboard | Assets/Scripts/Chessboard.cs:98-108 | the new state is Rules.FlipBit of the old one |
| Board.Chessboard.AddPiece | Assets/Scripts/Chessboard.cs:111-132 | the new state is Rules.AddPiece of the old one |
| Board.Chessboard.GetPieceAtPosition | Assets/Scripts/Chessboard.cs:134-146 | the index found is the last one on the square |
| Board.Chessboard.KillPieceAtPosition | Assets/Scripts/Chessboard.cs:148-173 | the index removed is the first one on the square, and the new state is Rules.Kill of the old one |
| Board.Chessboard.GetPiecesOfTypeAndSide | Assets/Scripts/Chessboard.cs:175-188 | the list is Rules.PiecesOfTypeAndSide of the pieces |
| Board.Chessboard.MoveTo | Assets/Scripts/Chessboard.cs:63-84 | the new state is Rules.MoveTo of the old one, or the method reports its error |
| Board.Chessboard.PostMoveActions | Assets/Scripts/Pieces/Rook.cs:31-38 | the new state is Rules.PostMoveActions of the old one, or the method reports its error |
| Board.Chessboard.PawnPostMove | Assets/Scripts/Pieces/Pawn.cs:28-56 | a pawn's hooks turn the state into Rules.PostMoveActions of the old one, which never fails for a pawn |
| Board.Chessboard.KingPostMove | Assets/Scripts/Pieces/King.cs:32-53 | a King's hooks turn the state into Rules.PostMoveActions of the old one, or report its error; what a castling King's move does is RulesProperties.CastlingMovesRook |
| Board.Chessboard.CastleRook | Assets/Scripts/Pieces/King.cs:38-49 | the new state is Rules.CastleRook of the old one, or the method reports its error; what that is, is RulesProperties.CastleRookMeaning |
| Board.Chessboard.IsKingInCheck | Assets/Scripts/Chessboard.cs:190-221 | the answer is Rules.InCheck of the state |
| Board.Chessboard.ScanForCheck | Assets/Scripts/Chessboard.cs:198-218 | the loop's answer is Rules.CheckScan over all pieces |
| Board.Chessboard.PieceChecks | Assets/Scripts/Chessboard.cs:200-216 | one step of the check loop answers Rules.CheckScan over one more piece |
| Board.Chessboard.GetMovesForCurrentPosition | Assets/Scripts/Pieces/Piece.cs:49-52 | a fresh bitboard of Rules.Moves, or its error; the board is not changed |
| Board.Chessboard.AdditionalMoveProcessing | Assets/Scripts/Pieces/Queen.cs:106-119 | a fresh bitboard of the kind's refinement, or its error |
| Board.Chessboard.RefinedMoves | Assets/Scripts/Pieces/King.cs:96-155 | for a kind other than the pawn, a fresh bitboard of Rules.AdditionalMoveProcessing, or its error |
| Board.Chessboard.RayFilter | Assets/Scripts/Pieces/Queen.cs:106-119 | a fresh bitboard of the two ray passes: cut at the enemy pieces keeping them, then at the friendly ones dropping them |
| Board.Chessboard.PawnAdditionalMoveProcessing | Assets/Scripts/Pieces/Pawn.cs:154-243 | a fresh bitboard of Rules.PawnMoves, or its error |
| Board.Chessboard.PawnCaptures | Assets/Scripts/Pieces/Pawn.cs:182-195 | the diagonal flips turn the bitboard into Rules.PawnCaptures of it |
| Board.Chessboard.FlipIfEnemy | Assets/Scripts/Pieces/Pawn.cs:184-187 | the square is toggled exactly when an opponent occupies it; the board is not changed |
| Board.Chessboard.EnPassant | Assets/Scripts/Pieces/Pawn.cs:198-240 | the en passant flips turn the bitboard into Rules.EnPassant of it, or report its error |
| Board.Chessboard.EnPassantLeft | Assets/Scripts/Pieces/Pawn.cs:200-220 | the left flip gives Rules.EnPassantLeft, a NullReference when no piece stands beside |
| Board.Chessboard.EnPassantRight | Assets/Scripts/Pieces/Pawn.cs:221-240 | the right flip gives Rules.EnPassantRight |
| Board.Chessboard.Castle | Assets/Scripts/Pieces/King.cs:111-151 | the castling flips turn the bitboard into Rules.Castle of it, or report its error |
| Board.Chessboard.CastleSide | Assets/Scripts/Pieces/King.cs:117-133 | one side's flip gives Rules.CastleSide, or its error |
| Board.Chessboard.SafeFlip | Assets/Scripts/Pieces/King.cs:128-131 | the target square is toggled exactly when IsMoveSafe answers true for the safe square; its error is reported |
| Board.Chessboard.IsMoveSafe | Assets/Scripts/Pieces/Piece.cs:87-100 | the answer is Rules.IsMoveSafe of the state; the board itself is not changed |
| Board.Chessboard.GetSafeMovesForCurrentPosition | Assets/Scripts/Pieces/Piece.cs:55-66 | a fresh bitboard of Rules.SafeMoves, or its error; the board is not changed |
| Board.Chessboard.FilterUnsafe | Assets/Scripts/Pieces/Piece.cs:58-64 | the loop turns the bitboard into Rules.SafeFilter over all listed squares, or stops at the first error |
| Board.Chessboard.FlipIfUnsafe | Assets/Scripts/Pieces/Piece.cs:60-63 | one square is flipped off exactly when IsMoveSafe answers false |
| Board.Chessboard.IsKingInCheckmate | Assets/Scripts/Chessboard.cs:223-242 | the answer is Rules.Checkmate of the state |
| Board.Chessboard.ScanForMobility | Assets/Scripts/Chessboard.cs:228-234 | the loop's answer is Rules.MobileScan over all pieces |
| Board.Chessboard.PieceMobility | Assets/Scripts/Chessboard.cs:230 | a piece of another side does not count; a piece of side s can move exactly when its safe moves compute and are not empty, and their error is reported |
| Board.MakeCopyOfChessboard | Assets/Scripts/Chessboard.cs:245-293 | a board with fresh bitboards and the same state; a change to it cannot reach the original |
| Board.CopyPieces | Assets/Scripts/Chessboard.cs:254-290 | the copied list has the same pieces, with the same fields, in the same order |
| AI.BestScanAgrees | Assets/Scripts/AI.cs:13-24 | the search fails exactly as the mobility loop of checkmate does, and finds a move exactly when some piece of the side has a safe move |
| AI.BestScanChoice | Assets/Scripts/AI.cs:13-24 | the move found belongs to a piece of the requested side and is the last safe move that piece lists |
| AI.BestScanFrom | Assets/Scripts/AI.cs:13-24 | the move found among n pieces was found among the first n - 1, or is the last safe move of piece n - 1, of the requested side |
| AI.BestScanLatest | Assets/Scripts/AI.cs:19-21 | no piece after the one whose move is found has a safe move |
| AI.BestMoveIsLast | Assets/Scripts/AI.cs:19-21 | the result is the last candidate in piece order and then in GetPositions order |
| AI.LastListedIsSafe | Assets/Scripts/AI.cs:17 | the square chosen is on the board, among the piece's moves, and safe |
| AI.CheckmatedHasNoMove | Assets/Scripts/AI.cs:11 | a checkmated side gets the empty move |
| AI.ComputeBestMove | Assets/Scripts/AI.cs:7-27 | a fresh move with the piece and the square BestScan finds, no piece and no square when there is none, and score 0; an exception in a safe-move computation propagates |
| AI.ScanPiece | Assets/Scripts/AI.cs:15-23 | one step of the outer loop gives BestScan over one more piece; the best move is kept, or is a fresh move of the new choice |
| AI.AppendMoves | Assets/Scripts/AI.cs:17-22 | one new move per listed square is appended, and the best move becomes the last of them |

## Left out

- Unity presentation, GameObjects, animation and input, including `MoveActions` in Movement.cs and `PrintBitboard`, are not part of this model.
- Pawn promotion is not part of this model. `TryPromoteGameObjectPawn` spawns GameObjects.
- Rules.PawnMoves: the source's pawn reads occupancy from the master board found through `GameObject.Find`. The model reads it from the board the pawn belongs to, which is the same board except inside the lookahead copies.
- Rules.AddPiece: the source compares positions by reference, so only the very position object matches. The model compares by value.
- Piece objects and the move table are shared in the source: copies share the table, and a Move refers to a piece object. Here pieces are values referred to by index, so aliasing between them is not modelled.
- Move tables are maps to row values, and `Board.FromRows` turns a row value into a Bitboard.
- Pawn tables are computed for the pawn's own side. In the source the constructor computes them before the side is set, and `initializePawn` is not part of this model.
- Rules.PostMoveActions: the King's `canCastle` is cleared before the rook is moved rather than after. The rook's move never reads the King, so the result is the same.
- Rules.Kill: the `movingPiece` argument of `KillPieceAtPosition` is unused in the source and is dropped.
- Rules.MoveTo, Rules.PostMoveActions, Rules.CastleRook: their own contracts promise only the side to move and pieces on the board. What a move does to the pieces is stated by lemmas beside them: RulesProperties.MoveToMeaning for every piece but a pawn and a castling King, RulesProperties.CastlingMovesRook for a castling King and its Rook, RulesProperties.CastleRookMeaning for the rook relocation, and RulesProperties.MoveStepPieces with RulesProperties.PawnPostMoveMeaning for a pawn's step and its hooks.
- Board.Chessboard.KingPostMove, Board.Chessboard.CastleRook: their contracts equal Rules.PostMoveActions and Rules.CastleRook of the old state. RulesProperties.CastlingMovesRook and RulesProperties.CastleRookMeaning state the outcome by which pieces are listed, not by their order in the list.
- RulesProperties.CastlingMovesRook requires the King to move to another square, as every King move does. A move onto its own square removes the mover, which MoveToMeaning states for the other pieces.
- RulesProperties.CastleMeaning, RulesProperties.KingMovesMeaning: castling is stated for a King whose castling targets are not already in its base moves, that is a King on its initial column 4, where every King that may still castle stands.
- RulesProperties.CastleRookMeaning requires the corner and the target column to differ, as they do for both castlings.
- After an exception the source leaves the board half-updated. The model returns the error and says nothing about that state.
- AI.ComputeBestMove: the `moves` list is kept, but it is specified only by its length and prefix, because nothing reads it. The unused `currentDepth` is left out.
- `getActivePieces` is not a separate member. The AI reads the `activePieces` field directly.
- Movement.Move: its getters carry no contract of their own. They are read by `SetScore`'s contract.
- Movement.Position.ToString requires the column to give a valid character (`64 + column` below 0xD800). The text of the row is its decimal form.
- Floating point: the source computes the column bit with `Mathf.Pow` and ray directions with `Vector2`. The model uses integer shifts and integer signs, which give the same small exact values.
