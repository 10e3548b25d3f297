/**
 * The chess board as a value: the two occupancy sets, the side to move and the ordered list
 * of live pieces, with the operations of Chessboard and AbstractPiece written as functions.
 * A piece is referred to by its index in the list.  Exceptions the source would throw are
 * Err results.  The class Chessboard (chessboard.dfy) is proved against these functions.
 */
module Rules {
  import opened Wrappers
  import opened Constants
  import opened Movement
  import opened Bitboards
  import opened Rays
  import opened Pieces

  /** blackPieceLocations, whitePieceLocations, movingSide and activePieces, as values. */
  datatype BoardState = BoardState(black: set<Position>, white: set<Position>, moving: Side, pieces: seq<Piece>)

  /** Every piece stands on the board. */
  predicate WellFormed(b: BoardState) {
    forall k :: 0 <= k < |b.pieces| ==> b.pieces[k].pos.OnBoard()
  }

  /** The squares of the listed pieces of one side. */
  function SideSquares(ps: seq<Piece>, side: Side): set<Position> {
    set k | 0 <= k < |ps| && ps[k].side == side :: ps[k].pos
  }

  /** No two listed pieces share a square. */
  predicate Unique(ps: seq<Piece>) {
    forall i, j :: 0 <= i < |ps| && 0 <= j < |ps| && i != j ==> ps[i].pos != ps[j].pos
  }

  /**
   * The board invariant the engine keeps: the pieces stand on distinct squares of the board and
   * each occupancy bitboard marks exactly the squares of that side's pieces.
   */
  predicate Consistent(b: BoardState) {
    WellFormed(b) && Unique(b.pieces) &&
    b.black == SideSquares(b.pieces, Black) && b.white == SideSquares(b.pieces, White)
  }

  /** A new board: no occupancy, Black to move, no pieces. */
  function EmptyBoard(): (b: BoardState)
    ensures b.black == {} && b.white == {} && b.moving == Black && b.pieces == []
  {
    BoardState({}, {}, Black, [])
  }

  /** GetPieceLocations: the occupancy set of one side. */
  function Locations(b: BoardState, side: Side): set<Position> {
    if side == Black then b.black else b.white
  }

  /** FlipBitAtPositionOfBitboard: toggle one square of one side's occupancy. */
  function FlipBit(b: BoardState, side: Side, p: Position): (r: BoardState)
    ensures r.pieces == b.pieces && r.moving == b.moving
    ensures Locations(r, side) == Toggle(Locations(b, side), p)
    ensures Locations(r, side.Opponent()) == Locations(b, side.Opponent())
  {
    if side == Black then b.(black := Toggle(b.black, p)) else b.(white := Toggle(b.white, p))
  }

  /** The index of the first piece standing on p, as KillPieceAtPosition finds it. */
  function FirstAt(ps: seq<Piece>, p: Position): (r: Option<nat>)
    ensures r.Some? ==> r.value < |ps| && ps[r.value].pos == p && forall k :: 0 <= k < r.value ==> ps[k].pos != p
    ensures r.None? ==> forall k :: 0 <= k < |ps| ==> ps[k].pos != p
  {
    if |ps| == 0 then None
    else if ps[0].pos == p then Some(0)
    else match FirstAt(ps[1..], p)
      case None => None
      case Some(k) => Some(k + 1)
  }

  /** The index of the last piece standing on p, as GetPieceAtPosition finds it. */
  function LastAt(ps: seq<Piece>, p: Position): (r: Option<nat>)
    ensures r.Some? ==> r.value < |ps| && ps[r.value].pos == p && forall k :: r.value < k < |ps| ==> ps[k].pos != p
    ensures r.None? ==> forall k :: 0 <= k < |ps| ==> ps[k].pos != p
  {
    if |ps| == 0 then None
    else if ps[|ps| - 1].pos == p then Some(|ps| - 1)
    else LastAt(ps[..|ps| - 1], p)
  }

  /** GetPieceAtPosition: the last listed piece on p, or nothing (null). */
  function PieceAt(b: BoardState, p: Position): (r: Option<Piece>)
    ensures r.Some? <==> exists k :: 0 <= k < |b.pieces| && b.pieces[k].pos == p
    ensures r.Some? ==> r.value.pos == p && r.value in b.pieces
  {
    match LastAt(b.pieces, p)
    case None => None
    case Some(k) => Some(b.pieces[k])
  }

  /** The list without its k-th element (List.Remove of that piece). */
  function RemoveAt(ps: seq<Piece>, k: nat): (r: seq<Piece>)
    requires k < |ps|
    ensures |r| == |ps| - 1
    ensures forall j :: 0 <= j < k ==> r[j] == ps[j]
    ensures forall j :: k <= j < |r| ==> r[j] == ps[j + 1]
  {
    ps[..k] + ps[k + 1..]
  }

  /**
   * KillPieceAtPosition: the first listed piece on p is removed and its side's bit at p is
   * flipped; with no piece on p nothing changes.
   */
  function Kill(b: BoardState, p: Position): (r: BoardState)
    ensures r.moving == b.moving
    ensures FirstAt(b.pieces, p).None? ==> r == b
    ensures FirstAt(b.pieces, p).Some? ==>
      var k := FirstAt(b.pieces, p).value;
      r == FlipBit(b, b.pieces[k].side, p).(pieces := RemoveAt(b.pieces, k))
    ensures WellFormed(b) ==> WellFormed(r)
  {
    match FirstAt(b.pieces, p)
    case None => b
    case Some(k) => FlipBit(b, b.pieces[k].side, p).(pieces := RemoveAt(b.pieces, k))
  }

  /** Where the moving piece ends up in the list after the piece at index killed was removed. */
  function Survivor(i: nat, killed: Option<nat>): Option<nat> {
    match killed
    case None => Some(i)
    case Some(k) => if k < i then Some(i - 1) else if k == i then None else Some(i)
  }

  /** Write a piece back at its index, unless it is no longer in the list. */
  function Put(b: BoardState, idx: Option<nat>, pc: Piece): (r: BoardState)
    requires idx.Some? ==> idx.value < |b.pieces|
    ensures r.moving == b.moving && r.black == b.black && r.white == b.white && |r.pieces| == |b.pieces|
    ensures WellFormed(b) && pc.pos.OnBoard() ==> WellFormed(r)
  {
    if idx.Some? then b.(pieces := b.pieces[idx.value := pc]) else b
  }

  /** The square two rows ahead of a pawn's initial square: where a double step lands. */
  function DoubleStep(side: Side, init: Position): Position {
    Position(init.column, Forward(side, Forward(side, init.row)))
  }

  /** The square directly behind a pawn standing on p. */
  function Behind(side: Side, p: Position): Position {
    Position(p.column, if side == Black then p.row + 1 else p.row - 1)
  }

  /** The rank of a moving piece: a King's move may move a Rook, nothing else moves a piece. */
  function MoveRank(k: Kind): nat {
    if k.King? then 1 else 0
  }

  /**
   * MoveTo: flip the mover's side bits at its square and at t, kill the first piece on t
   * (which may be the mover itself), move the mover and run its PostMoveActions.
   */
  function MoveTo(b: BoardState, i: nat, t: Position): (r: Result<BoardState>)
    requires WellFormed(b) && i < |b.pieces| && t.OnBoard()
    ensures r.Ok? ==> r.value.moving == b.moving && WellFormed(r.value)
    decreases MoveRank(b.pieces[i].kind), 1
  {
    var mover := b.pieces[i];
    var b1 := FlipBit(FlipBit(b, mover.side, mover.pos), mover.side, t);
    var killed := FirstAt(b1.pieces, t);
    var b2 := Kill(b1, t);
    var idx := Survivor(i, killed);
    var moved := mover.(pos := t);
    var b3 := Put(b2, idx, moved);
    PostMoveActions(b3, moved, idx)
  }

  /**
   * PostMoveActions of the piece pc just moved, which is at index idx unless it was removed.
   * A pawn sets its en passant flag after a double step and captures a flagged pawn it passed;
   * a rook loses its castling right; a king that could castle and lands on column 2 or 6
   * moves the rook of column 1 to column 3 or of column 8 to column 5, and loses the right.
   */
  function PostMoveActions(b: BoardState, pc: Piece, idx: Option<nat>): (r: Result<BoardState>)
    requires WellFormed(b) && pc.pos.OnBoard()
    requires idx.Some? ==> idx.value < |b.pieces| && b.pieces[idx.value] == pc
    ensures r.Ok? ==> r.value.moving == b.moving && WellFormed(r.value)
    decreases MoveRank(pc.kind), 0
  {
    match pc.kind
    case Pawn(flag, init) =>
      var moved := pc.(kind := Pawn(flag || pc.pos == DoubleStep(pc.side, init), init));
      var b1 := Put(b, idx, moved);
      var passed := PieceAt(b1, Behind(pc.side, pc.pos));
      if passed.Some? && passed.value.kind.Pawn? && passed.value.kind.allowEnPassantCapture then
        Ok(Kill(b1, passed.value.pos))
      else
        Ok(b1)
    case Rook(_) =>
      Ok(Put(b, idx, pc.(kind := Rook(false))))
    case King(canCastle) =>
      if !canCastle then Ok(b)
      else
        var b1 := Put(b, idx, pc.(kind := King(false)));
        if pc.pos.column == 2 then CastleRook(b1, Position(1, pc.pos.row), 3)
        else if pc.pos.column == 6 then CastleRook(b1, Position(8, pc.pos.row), 5)
        else Ok(b1)
    case _ => Ok(b)
  }

  /** The rook relocation of a castling king: the piece on corner (cast to Rook) moves to column. */
  function CastleRook(b: BoardState, corner: Position, column: int): (r: Result<BoardState>)
    requires WellFormed(b) && corner.OnBoard() && Min <= column <= Max
    ensures r.Ok? ==> r.value.moving == b.moving && WellFormed(r.value)
    decreases 0, 2
  {
    match LastAt(b.pieces, corner)
    case None => Err(NullReference)
    case Some(k) =>
      if !b.pieces[k].kind.Rook? then Err(InvalidCast)
      else MoveTo(b, k, Position(column, b.pieces[k].pos.row))
  }

  // ---------------------------------------------------------------------------------------
  // Move generation.  The functions below call each other through castling:
  //   InCheck -> Moves of an enemy piece -> (King) Castle -> IsMoveSafe -> InCheck.
  // Castling is only computed for the side to move, and each call takes a lower rank.

  /** 0 when the side asked about is the side to move, 1 otherwise. */
  function CheckRank(b: BoardState, s: Side): nat {
    if s == b.moving then 0 else 1
  }

  /** 1 for a piece of the side to move, 0 otherwise. */
  function PieceRank(b: BoardState, pc: Piece): nat {
    if pc.side == b.moving then 1 else 0
  }

  /** The piece is of the kind's class and of the side. */
  predicate OfTypeAndSide(x: Piece, kind: Kind, side: Side) {
    SameType(x.kind, kind) && x.side == side
  }

  /** ps[j] is the first listed piece of the kind's class and the side. */
  predicate FirstOfTypeAndSide(ps: seq<Piece>, j: nat, kind: Kind, side: Side) {
    j < |ps| && OfTypeAndSide(ps[j], kind, side) &&
    forall m :: 0 <= m < j ==> !OfTypeAndSide(ps[m], kind, side)
  }

  /** GetPiecesOfTypeAndSide: the listed pieces of the kind's class and the side, in order. */
  function PiecesOfTypeAndSide(ps: seq<Piece>, kind: Kind, side: Side): (r: seq<Piece>)
    ensures forall x :: x in r ==> OfTypeAndSide(x, kind, side) && x in ps
    ensures forall x :: x in ps && OfTypeAndSide(x, kind, side) ==> x in r
    ensures |r| <= |ps|
  {
    if |ps| == 0 then []
    else
      var init := ps[..|ps| - 1];
      var rest := PiecesOfTypeAndSide(init, kind, side);
      var last := ps[|ps| - 1];
      assert ps == init + [last];
      if OfTypeAndSide(last, kind, side) then rest + [last] else rest
  }

  /**
   * The pieces are found in list order: for a list one piece longer, the pieces found in the
   * shorter list come first and the new piece, if it matches, last.
   */
  lemma PiecesOfTypeAndSideAppend(ps: seq<Piece>, x: Piece, kind: Kind, side: Side)
    ensures PiecesOfTypeAndSide(ps + [x], kind, side) ==
      PiecesOfTypeAndSide(ps, kind, side) + (if OfTypeAndSide(x, kind, side) then [x] else [])
  {
    assert (ps + [x])[..|ps + [x]| - 1] == ps;
  }

  /** The first piece found is the first listed piece of the kind's class and the side. */
  lemma {:induction false} PiecesOfTypeAndSideFirst(ps: seq<Piece>, j: nat, kind: Kind, side: Side)
    requires FirstOfTypeAndSide(ps, j, kind, side)
    ensures |PiecesOfTypeAndSide(ps, kind, side)| > 0 && PiecesOfTypeAndSide(ps, kind, side)[0] == ps[j]
    decreases |ps|
  {
    var init := ps[..|ps| - 1];
    var rest := PiecesOfTypeAndSide(init, kind, side);
    assert ps == init + [ps[|ps| - 1]];
    if j < |init| {
      assert FirstOfTypeAndSide(init, j, kind, side);
      PiecesOfTypeAndSideFirst(init, j, kind, side);
    } else {
      PiecesOfTypeAndSideNone(init, kind, side);
    }
  }

  /** No piece is found in a list without a piece of the kind's class and the side. */
  lemma {:induction false} PiecesOfTypeAndSideNone(ps: seq<Piece>, kind: Kind, side: Side)
    requires forall m :: 0 <= m < |ps| ==> !OfTypeAndSide(ps[m], kind, side)
    ensures PiecesOfTypeAndSide(ps, kind, side) == []
    decreases |ps|
  {
    if |ps| > 0 {
      PiecesOfTypeAndSideNone(ps[..|ps| - 1], kind, side);
    }
  }

  /**
   * IsKingInCheck: taking the first King of side s, some piece of the other side has the King's
   * square in its moves, pawns in the King's column excepted.  No King of side s is an
   * IndexOutOfRange; an exception while computing the moves of a piece propagates.
   */
  function InCheck(b: BoardState, s: Side): Result<bool>
    requires WellFormed(b)
    decreases CheckRank(b, s), 5, 0
  {
    var kings := PiecesOfTypeAndSide(b.pieces, King(false), s);
    if |kings| == 0 then Err(IndexOutOfRange)
    else
      assert kings[0] in b.pieces;
      CheckScan(b, s, kings[0].pos, |b.pieces|)
  }

  /** Whether the piece pc gives check to a King on square k according to its moves m. */
  predicate Attacks(pc: Piece, k: Position, m: set<Position>) {
    k in m && !(pc.kind.Pawn? && pc.pos.column == k.column)
  }

  /** The loop of IsKingInCheck over the first n pieces. */
  function CheckScan(b: BoardState, s: Side, k: Position, n: nat): Result<bool>
    requires WellFormed(b) && n <= |b.pieces| && k.OnBoard()
    decreases CheckRank(b, s), 4, n
  {
    if n == 0 then Ok(false)
    else
      var acc :- CheckScan(b, s, k, n - 1);
      var pc := b.pieces[n - 1];
      if pc.side != s then
        var m :- Moves(b, n - 1);
        Ok(acc || Attacks(pc, k, m))
      else
        Ok(acc)
  }

  /**
   * GetMovesForCurrentPosition: the kind's refinement of the table entry for the piece's square;
   * a square without an entry (a pawn on row 1 or 8) is a KeyNotFound.
   */
  function Moves(b: BoardState, j: nat): Result<set<Position>>
    requires WellFormed(b) && j < |b.pieces|
    decreases PieceRank(b, b.pieces[j]), 3, 0
  {
    var pc := b.pieces[j];
    if pc.pos !in pc.moves then Err(KeyNotFound)
    else AdditionalMoveProcessing(b, pc, SquaresOf(pc.moves[pc.pos]))
  }

  /** AdditionalMoveProcessing of each kind on the shape s. */
  function AdditionalMoveProcessing(b: BoardState, pc: Piece, s: set<Position>): Result<set<Position>>
    requires WellFormed(b) && pc.pos.OnBoard()
    decreases PieceRank(b, pc), 2, 0
  {
    var enemy, friendly := Locations(b, pc.side.Opponent()), Locations(b, pc.side);
    match pc.kind
    case Pawn(_, _) => PawnMoves(b, pc, s)
    case King(canCastle) =>
      var base := Refine(s, enemy, friendly, pc.pos);
      if b.moving == pc.side && canCastle then Castle(b, pc, base) else Ok(base)
    case _ => Ok(Refine(s, enemy, friendly, pc.pos))
  }

  /**
   * The pawn's AdditionalMoveProcessing: the forward squares cut at any piece, the two forward
   * diagonals flipped when an opponent piece stands there, and the en passant squares flipped
   * when the piece beside the pawn is a flagged pawn.  On the left the piece found beside is
   * not checked for null: no piece there is a NullReference.  A pawn on its last row reads the
   * row beyond the board: an IndexOutOfRange.
   */
  function PawnMoves(b: BoardState, pc: Piece, s: set<Position>): (r: Result<set<Position>>)
    requires pc.pos.OnBoard()
  {
    var ahead := Forward(pc.side, pc.pos.row);
    if ahead < Min || ahead > Max then Err(IndexOutOfRange)
    else
      var s1 := RefineForward(s, Locations(b, pc.side), Locations(b, pc.side.Opponent()), pc.pos);
      EnPassant(b, pc, PawnCaptures(b, pc, s1))
  }

  /** The diagonal flips of the pawn's AdditionalMoveProcessing on the forward squares s1. */
  function PawnCaptures(b: BoardState, pc: Piece, s1: set<Position>): (r: set<Position>)
    requires pc.pos.OnBoard()
  {
    var c, ahead := pc.pos.column, Forward(pc.side, pc.pos.row);
    var enemy := Locations(b, pc.side.Opponent());
    var s2 := if c > Min && Position(c - 1, ahead) in enemy then Toggle(s1, Position(c - 1, ahead)) else s1;
    if c < Max && Position(c + 1, ahead) in enemy then Toggle(s2, Position(c + 1, ahead)) else s2
  }

  /** The en passant flips of the pawn's AdditionalMoveProcessing, left then right. */
  function EnPassant(b: BoardState, pc: Piece, s3: set<Position>): (r: Result<set<Position>>)
    requires pc.pos.OnBoard()
  {
    var s4 :- EnPassantLeft(b, pc, s3);
    Ok(EnPassantRight(b, pc, s4))
  }

  /**
   * The left en passant flip: an opponent piece beside the pawn on the left that is a flagged
   * pawn; the piece found there is not checked for null.
   */
  function EnPassantLeft(b: BoardState, pc: Piece, s3: set<Position>): (r: Result<set<Position>>)
    requires pc.pos.OnBoard()
  {
    var c, row := pc.pos.column, pc.pos.row;
    if c > Min && Position(c - 1, row) in Locations(b, pc.side.Opponent()) then
      match PieceAt(b, Position(c - 1, row))
      case None => Err(NullReference)
      case Some(passed) => Ok(if EnPassantTarget(passed) then Toggle(s3, Position(c - 1, Forward(pc.side, row))) else s3)
    else Ok(s3)
  }

  /** The right en passant flip, with the null check of the piece found beside the pawn. */
  function EnPassantRight(b: BoardState, pc: Piece, s4: set<Position>): set<Position>
    requires pc.pos.OnBoard()
  {
    var c, row := pc.pos.column, pc.pos.row;
    var passed := PieceAt(b, Position(c + 1, row));
    if c < Max && Position(c + 1, row) in Locations(b, pc.side.Opponent()) && passed.Some? && EnPassantTarget(passed.value) then
      Toggle(s4, Position(c + 1, Forward(pc.side, row)))
    else
      s4
  }

  /** A pawn that may be captured en passant. */
  predicate EnPassantTarget(pc: Piece) {
    pc.kind.Pawn? && pc.kind.allowEnPassantCapture
  }

  /**
   * Castling squares of a King of the side to move that may castle: nothing when the King is in
   * check, then the king side and the queen side in turn.
   */
  function Castle(b: BoardState, pc: Piece, base: set<Position>): Result<set<Position>>
    requires WellFormed(b) && pc.pos.OnBoard() && pc.side == b.moving
    decreases 1, 1, 1
  {
    var inCheck :- InCheck(b, pc.side);
    if inCheck then Ok(base)
    else
      var s1 :- CastleSide(b, pc, base, 1, 2, 3);
      CastleSide(b, pc, s1, 8, 6, 5)
  }

  /**
   * One side of castling: with a Rook that may castle on the corner column, no piece on the
   * columns toward it and a safe move to the safe column, the target column is flipped.
   */
  function CastleSide(b: BoardState, pc: Piece, moves: set<Position>, corner: int, target: int, safe: int): Result<set<Position>>
    requires WellFormed(b) && pc.pos.OnBoard() && pc.side == b.moving
    requires Min <= safe <= Max
    decreases 1, 1, 0
  {
    var row := pc.pos.row;
    var rook := PieceAt(b, Position(corner, row));
    if rook.Some? && rook.value.kind.Rook? && rook.value.kind.canCastle &&
      PieceAt(b, Position(target, row)).None? && PieceAt(b, Position(safe, row)).None?
    then
      var ok :- IsMoveSafe(b, pc, Position(safe, row));
      Ok(if ok then Toggle(moves, Position(target, row)) else moves)
    else
      Ok(moves)
  }

  /**
   * IsMoveSafe: on a copy of the board, move the piece found on pc's square to p; the move is
   * safe when pc's side is then not in check.
   */
  function IsMoveSafe(b: BoardState, pc: Piece, p: Position): Result<bool>
    requires WellFormed(b) && p.OnBoard()
    decreases if pc.side == b.moving then 1 else 2, 0, 0
  {
    match LastAt(b.pieces, pc.pos)
    case None => Err(NullReference)
    case Some(i) =>
      var copy :- MoveTo(b, i, p);
      var inCheck :- InCheck(copy, pc.side);
      Ok(!inCheck)
  }

  /**
   * GetSafeMovesForCurrentPosition: the moves of piece j, with every square flipped off for
   * which IsMoveSafe fails, in GetPositions order.
   */
  function SafeMoves(b: BoardState, j: nat): Result<set<Position>>
    requires WellFormed(b) && j < |b.pieces|
  {
    var m :- Moves(b, j);
    EnumerateProperties(m);
    SafeFilter(b, b.pieces[j], m, Enumerate(m), |Enumerate(m)|)
  }

  /** The loop of GetSafeMovesForCurrentPosition over the first n squares of ps. */
  function SafeFilter(b: BoardState, pc: Piece, m: set<Position>, ps: seq<Position>, n: nat): Result<set<Position>>
    requires WellFormed(b) && n <= |ps| && forall q :: q in ps ==> q.OnBoard()
  {
    if n == 0 then Ok(m)
    else
      var acc :- SafeFilter(b, pc, m, ps, n - 1);
      var safe :- IsMoveSafe(b, pc, ps[n - 1]);
      Ok(if safe then acc else Toggle(acc, ps[n - 1]))
  }

  /**
   * IsKingInCheckmate: the King of side s is in check and no piece of side s has a safe move.
   * Check is computed first, then the safe moves of every piece of side s.
   */
  function Checkmate(b: BoardState, s: Side): Result<bool>
    requires WellFormed(b)
  {
    var inCheck :- InCheck(b, s);
    var canMove :- MobileScan(b, s, |b.pieces|);
    Ok(inCheck && !canMove)
  }

  /**
   * The loop of IsKingInCheckmate over the first n pieces: some piece of side s can move (its
   * safe-move bitboard lists a position; EnumerateNonEmpty ties HasSquare to that count).
   */
  function MobileScan(b: BoardState, s: Side, n: nat): Result<bool>
    requires WellFormed(b) && n <= |b.pieces|
  {
    if n == 0 then Ok(false)
    else
      var acc :- MobileScan(b, s, n - 1);
      if b.pieces[n - 1].side == s then
        var safe :- SafeMoves(b, n - 1);
        Ok(acc || HasSquare(safe))
      else
        Ok(acc)
  }

  // ---------------------------------------------------------------------------------------
  // Turn change and piece list.

  /** ChangeMovingSide: the other side moves, and its pieces run PerTurnProcessing. */
  function ChangeMovingSide(b: BoardState): (r: BoardState)
    ensures r.moving == b.moving.Opponent() && r.black == b.black && r.white == b.white
    ensures |r.pieces| == |b.pieces|
    ensures forall k :: 0 <= k < |b.pieces| ==>
      r.pieces[k] == if b.pieces[k].side == r.moving then PerTurn(b.pieces[k], r.moving) else b.pieces[k]
  {
    var m := b.moving.Opponent();
    BoardState(b.black, b.white, m, seq(|b.pieces|, k requires 0 <= k < |b.pieces| =>
      if b.pieces[k].side == m then PerTurn(b.pieces[k], m) else b.pieces[k]))
  }

  /**
   * AddPiece: a listed piece on the new piece's square (the last one) is removed, and the new
   * piece is appended; the occupancy sets are not touched.
   */
  function AddPiece(b: BoardState, pc: Piece): (r: BoardState)
    ensures r.black == b.black && r.white == b.white && r.moving == b.moving
    ensures |r.pieces| > 0 && r.pieces[|r.pieces| - 1] == pc
    ensures LastAt(b.pieces, pc.pos).None? ==> r.pieces == b.pieces + [pc]
    ensures LastAt(b.pieces, pc.pos).Some? ==> r.pieces == RemoveAt(b.pieces, LastAt(b.pieces, pc.pos).value) + [pc]
  {
    match LastAt(b.pieces, pc.pos)
    case None => b.(pieces := b.pieces + [pc])
    case Some(k) => b.(pieces := RemoveAt(b.pieces, k) + [pc])
  }
}
