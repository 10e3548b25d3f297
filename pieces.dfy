/**
 * The six piece kinds: their per-piece state, their pre-computed move tables (one bitboard
 * for every square the piece can stand on) and the geometric shape each table holds, the
 * per-turn and copy hooks, and what the ray filtering of AdditionalMoveProcessing leaves of
 * each shape.
 */
module Pieces {
  import opened Constants
  import opened Movement
  import opened Bitboards
  import opened Rays

  /**
   * The kind of a piece with the fields only that kind has: a pawn's en passant flag and its
   * initial square, and the castling flags of rooks and kings.
   */
  datatype Kind =
    | Pawn(allowEnPassantCapture: bool, initialPosition: Position)
    | Rook(canCastle: bool)
    | Knight
    | Bishop
    | Queen
    | King(canCastle: bool)

  /** A piece: its kind, side, current square and its table from square to move bitboard. */
  datatype Piece = Piece(kind: Kind, side: Side, pos: Position, moves: map<Position, Rows>)

  /** Both kinds are of the same class (the fields may differ). */
  predicate SameType(a: Kind, b: Kind) {
    (a.Pawn? && b.Pawn?) || (a.Rook? && b.Rook?) || (a.Knight? && b.Knight?) ||
    (a.Bishop? && b.Bishop?) || (a.Queen? && b.Queen?) || (a.King? && b.King?)
  }

  // ---------------------------------------------------------------------------------------
  // Shapes: the squares each table entry holds.

  /** Every other square on the rank and the file of o. */
  function RookShape(o: Position): set<Position> {
    set q | q in AllSquares() && q != o && (q.column == o.column || q.row == o.row)
  }

  /** Every other square on the two diagonals through o. */
  function BishopShape(o: Position): set<Position> {
    set q | q in AllSquares() && q != o && Abs(q.column - o.column) == Abs(q.row - o.row)
  }

  /** Every square on a rank, file or diagonal through o. */
  function QueenShape(o: Position): set<Position> {
    set q | q in AllSquares() && Aligned(o, q)
  }

  predicate KnightJump(o: Position, q: Position) {
    var a, b := Abs(q.column - o.column), Abs(q.row - o.row);
    (a == 1 && b == 2) || (a == 2 && b == 1)
  }

  /** The knight's jumps from o that stay on the board. */
  function KnightShape(o: Position): set<Position> {
    set q | q in AllSquares() && KnightJump(o, q)
  }

  /** The 3x3 block around o clipped to the board; o itself is part of it. */
  function KingShape(o: Position): set<Position> {
    set q | q in AllSquares() && Abs(q.column - o.column) <= 1 && Abs(q.row - o.row) <= 1
  }

  /** The row a pawn of this side advances to from row r. */
  function Forward(side: Side, r: int): int {
    if side == Black then r - 1 else r + 1
  }

  /** The row a pawn of this side starts on. */
  function StartRow(side: Side): int {
    if side == Black then 7 else 2
  }

  /** One square forward, and two from the starting row. */
  function PawnShape(side: Side, o: Position): set<Position> {
    var one := Position(o.column, Forward(side, o.row));
    if o.row == StartRow(side) then {one, Position(o.column, Forward(side, one.row))} else {one}
  }

  /** The squares a table of this kind has an entry for: all squares, rows 2 to 7 for pawns. */
  predicate HasEntry(kind: Kind, p: Position) {
    p.OnBoard() && (kind.Pawn? ==> 2 <= p.row <= 7)
  }

  function Shape(kind: Kind, side: Side, o: Position): set<Position> {
    match kind
    case Pawn(_, _) => PawnShape(side, o)
    case Rook(_) => RookShape(o)
    case Knight => KnightShape(o)
    case Bishop => BishopShape(o)
    case Queen => QueenShape(o)
    case King(_) => KingShape(o)
  }

  /** The move table holds exactly the entries of this kind, each bitboard marking the shape. */
  ghost predicate TableMatches(moves: map<Position, Rows>, kind: Kind, side: Side) {
    (forall p :: p in moves <==> HasEntry(kind, p)) &&
    (forall p :: p in moves ==> SquaresOf(moves[p]) == Shape(kind, side, p))
  }

  // ---------------------------------------------------------------------------------------
  // Hooks.

  /** The fields InitializationActions sets on a new piece standing on pos. */
  function InitialKind(kind: Kind, pos: Position): (k: Kind)
    ensures SameType(k, kind)
    ensures k.Pawn? ==> !k.allowEnPassantCapture && k.initialPosition == pos
    ensures (k.Rook? || k.King?) ==> k.canCastle
  {
    match kind
    case Pawn(_, _) => Pawn(false, pos)
    case Rook(_) => Rook(true)
    case King(_) => King(true)
    case _ => kind
  }

  /**
   * CopyPiece: the target receives the side, the square and the table of the original, and the
   * kind-specific fields.
   */
  function CopyPiece(from: Piece, into: Piece): (r: Piece)
    requires SameType(from.kind, into.kind)
    ensures r == from
  {
    var kind := match from.kind
      case Pawn(flag, init) => Pawn(flag, init)
      case Rook(cc) => Rook(cc)
      case King(cc) => King(cc)
      case _ => into.kind;
    into.(side := from.side, pos := from.pos, moves := from.moves, kind := kind)
  }

  /** PerTurnProcessing: a pawn of the side about to move loses its en passant flag. */
  function PerTurn(pc: Piece, moving: Side): (r: Piece)
    ensures r.side == pc.side && r.pos == pc.pos && r.moves == pc.moves && SameType(r.kind, pc.kind)
    ensures r.kind.Pawn? ==> r.kind.initialPosition == pc.kind.initialPosition
    ensures r.kind.Pawn? ==> r.kind.allowEnPassantCapture == (pc.kind.allowEnPassantCapture && moving != pc.side)
    ensures !r.kind.Pawn? ==> r == pc
  {
    if pc.kind.Pawn? && moving == pc.side && pc.kind.allowEnPassantCapture then
      pc.(kind := pc.kind.(allowEnPassantCapture := false))
    else
      pc
  }

  // ---------------------------------------------------------------------------------------
  // What the filtering passes leave of each shape.

  /**
   * The filtering of rooks, knights, bishops, queens and kings: a pass over the enemy pieces
   * that keeps the blocker, then a pass over the friendly pieces that drops it.
   */
  function Refine(s: set<Position>, enemy: set<Position>, friendly: set<Position>, o: Position): set<Position> {
    RayPass(RayPass(s, enemy, o, true), friendly, o, false)
  }

  /** The pawn's forward filtering: both passes drop the blocker. */
  function RefineForward(s: set<Position>, friendly: set<Position>, enemy: set<Position>, o: Position): set<Position> {
    RayPass(RayPass(s, friendly, o, false), enemy, o, false)
  }

  /** The rank/file squares and the diagonal squares are disjoint and make up the queen's shape. */
  lemma QueenIsRookAndBishop(o: Position)
    ensures QueenShape(o) == RookShape(o) + BishopShape(o)
    ensures RookShape(o) * BishopShape(o) == {}
  {
    assert forall q :: q in RookShape(o) * BishopShape(o) ==> false;
  }

  lemma {:induction false} RookStar(o: Position)
    requires o.OnBoard()
    ensures Star(RookShape(o), o)
  {
    var s := RookShape(o);
    forall q, i | q in s && 1 <= i < Dist(o, q) ensures Ray(o, DirC(o, q), DirR(o, q), i) in s {
      var r := Ray(o, DirC(o, q), DirR(o, q), i);
      InAllSquares(q);
      AlignedIsRay(o, q);
      RayIsAligned(o, DirC(o, q), DirR(o, q), i);
      InAllSquares(r);
    }
  }

  lemma {:induction false} BishopStar(o: Position)
    requires o.OnBoard()
    ensures Star(BishopShape(o), o)
  {
    var s := BishopShape(o);
    forall q, i | q in s && 1 <= i < Dist(o, q) ensures Ray(o, DirC(o, q), DirR(o, q), i) in s {
      BishopRay(o, q, i);
    }
  }

  /** The squares between o and a square of its diagonals lie on the same diagonal. */
  lemma BishopRay(o: Position, q: Position, i: int)
    requires o.OnBoard() && q in BishopShape(o) && 1 <= i < Dist(o, q)
    ensures Ray(o, DirC(o, q), DirR(o, q), i) in BishopShape(o)
  {
    InAllSquares(q);
    var r := Ray(o, DirC(o, q), DirR(o, q), i);
    assert DirC(o, q) != 0 && DirR(o, q) != 0;
    assert Abs(r.column - o.column) == i == Abs(r.row - o.row);
    InAllSquares(r);
  }

  lemma {:induction false} QueenStar(o: Position)
    requires o.OnBoard()
    ensures Star(QueenShape(o), o)
  {
    var s := QueenShape(o);
    forall q, i | q in s && 1 <= i < Dist(o, q) ensures Ray(o, DirC(o, q), DirR(o, q), i) in s {
      var r := Ray(o, DirC(o, q), DirR(o, q), i);
      InAllSquares(q);
      AlignedIsRay(o, q);
      RayIsAligned(o, DirC(o, q), DirR(o, q), i);
      InAllSquares(r);
    }
  }

  lemma {:induction false} PawnStar(side: Side, o: Position)
    requires HasEntry(Pawn(false, o), o)
    ensures Star(PawnShape(side, o), o)
  {
  }

  lemma KnightScattered(o: Position)
    ensures Scattered(KnightShape(o), o)
  {
  }

  lemma KingScattered(o: Position)
    ensures Scattered(KingShape(o), o)
  {
  }

  /** A knight on q attacks p exactly when a knight on p attacks q. */
  lemma KnightSymmetric(p: Position, q: Position)
    requires p.OnBoard() && q.OnBoard()
    ensures q in KnightShape(p) <==> p in KnightShape(q)
  {
    InAllSquares(p);
    InAllSquares(q);
  }

  /**
   * Rooks, bishops and queens: a square survives the filtering exactly when it is in the shape,
   * holds no friendly piece and no piece of either side stands between it and the slider.
   */
  lemma {:induction false} SliderMoves(kind: Kind, side: Side, o: Position, enemy: set<Position>, friendly: set<Position>)
    requires kind.Rook? || kind.Bishop? || kind.Queen?
    requires o.OnBoard()
    ensures forall q :: q in Refine(Shape(kind, side, o), enemy, friendly, o) <==>
      q in Shape(kind, side, o) && q !in friendly && Clear(o, q, enemy + friendly)
  {
    if kind.Rook? {
      RookStar(o);
    } else if kind.Bishop? {
      BishopStar(o);
    } else {
      QueenStar(o);
    }
    SliderRefinement(Shape(kind, side, o), enemy, friendly, o);
  }

  /** Knights: the filtering removes exactly the friendly squares and keeps the enemy ones. */
  lemma {:induction false} KnightMoves(o: Position, enemy: set<Position>, friendly: set<Position>)
    ensures Refine(KnightShape(o), enemy, friendly, o) == KnightShape(o) - friendly
  {
    var s := KnightShape(o);
    KnightScattered(o);
    RayPassOnScattered(s, enemy, o, true);
    assert RayPass(s, enemy, o, true) == s;
    RayPassOnScattered(s, friendly, o, false);
  }

  /**
   * Kings: the filtering removes the friendly squares; of the king's own square (which its
   * shape holds) the enemy pass also removes it when an enemy piece stands there.
   */
  lemma {:induction false} KingMoves(o: Position, enemy: set<Position>, friendly: set<Position>)
    ensures Refine(KingShape(o), enemy, friendly, o) == KingShape(o) - (enemy * {o}) - friendly
  {
    var s := KingShape(o);
    KingScattered(o);
    RayPassOnScattered(s, enemy, o, true);
    ScatteredSubset(s, s - (enemy * {o}), o);
    RayPassOnScattered(s - (enemy * {o}), friendly, o, false);
  }

  /**
   * Pawns moving forward: a square survives exactly when it is in the shape, it and the square
   * before it hold no piece of either side.
   */
  lemma {:induction false} PawnForwardMoves(side: Side, o: Position, friendly: set<Position>, enemy: set<Position>)
    requires 2 <= o.row <= 7 && Min <= o.column <= Max
    ensures forall q :: q in RefineForward(PawnShape(side, o), friendly, enemy, o) <==>
      q in PawnShape(side, o) && q !in friendly && q !in enemy && Clear(o, q, friendly + enemy)
  {
    PawnStar(side, o);
    BlockingRefinement(PawnShape(side, o), friendly, enemy, o);
  }
}
