/**
 * The Chessboard class (Assets/Scripts/Chessboard.cs together with the board-facing methods of
 * AbstractPiece and its subclasses): two occupancy bitboards, the side to move and the list of
 * live pieces, updated in place.  Every method is proved against the function of Rules with the
 * same name, applied to State(), the value the fields hold.  A piece is referred to by its index
 * in activePieces; an exception of the source is an Err result (or Some error), after which the
 * state of the board is left unspecified.
 */
module Board {
  import opened Wrappers
  import opened Constants
  import opened Movement
  import opened Bitboards
  import opened Pieces
  import opened Shapes
  import Rules
  import RulesProperties

  /** A fresh bitboard holding the rows of a move table entry. */
  method FromRows(rows: Rows) returns (bb: Bitboard)
    ensures fresh(bb) && fresh(bb.bits) && bb.Valid() && bb.bits[..] == rows
    ensures bb.Squares() == SquaresOf(rows)
  {
    bb := new Bitboard();
    var row := 0;
    while row < 8
      invariant 0 <= row <= 8 && bb.Valid() && fresh(bb.bits)
      invariant forall i :: 0 <= i < row ==> bb.bits[i] == rows[i]
    {
      bb.bits[row] := rows[row];
      row := row + 1;
    }
    assert bb.bits[..] == rows;
  }

  class Chessboard {
    var black: Bitboard
    var white: Bitboard
    var movingSide: Side
    var activePieces: seq<Piece>

    /** Two distinct, well-formed bitboards, and every piece on the board. */
    ghost predicate Valid()
      reads this, black, white
    {
      black.Valid() && white.Valid() && black != white && black.bits != white.bits &&
      forall k :: 0 <= k < |activePieces| ==> activePieces[k].pos.OnBoard()
    }

    /** The board as a value. */
    ghost function State(): (b: Rules.BoardState)
      reads this, black, white, black.bits, white.bits
      requires Valid()
      ensures Rules.WellFormed(b)
    {
      Rules.BoardState(black.Squares(), white.Squares(), movingSide, activePieces)
    }

    constructor ()
      ensures Valid() && State() == Rules.EmptyBoard()
      ensures fresh(black) && fresh(white) && fresh(black.bits) && fresh(white.bits)
    {
      black := new Bitboard();
      white := new Bitboard();
      movingSide := Black;
      activePieces := [];
    }

    /** The side whose turn it is. */
    function CurrentMovingSide(): (s: Side)
      reads this, black, white, black.bits, white.bits
      requires Valid()
      ensures s == State().moving
    {
      movingSide
    }

    /** The other side moves next, and its pieces run PerTurnProcessing. */
    method ChangeMovingSide()
      requires Valid()
      modifies this
      ensures Valid() && black == old(black) && white == old(white)
      ensures State() == Rules.ChangeMovingSide(old(State()))
    {
      if movingSide == White {
        movingSide := Black;
      } else {
        movingSide := White;
      }
      ghost var ps := activePieces;
      var k := 0;
      while k < |activePieces|
        invariant 0 <= k <= |activePieces| == |ps|
        invariant black == old(black) && white == old(white) && movingSide == old(movingSide).Opponent()
        invariant forall x :: 0 <= x < k ==>
          activePieces[x] == if ps[x].side == movingSide then PerTurn(ps[x], movingSide) else ps[x]
        invariant forall x :: k <= x < |activePieces| ==> activePieces[x] == ps[x]
      {
        if activePieces[k].side == movingSide {
          activePieces := activePieces[k := PerTurn(activePieces[k], movingSide)];
        }
        k := k + 1;
      }
    }

    /** The occupancy bitboard of one side. */
    method GetPieceLocations(side: Side) returns (bb: Bitboard)
      requires Valid()
      ensures bb == (if side == Black then black else white)
      ensures bb.Valid() && bb.Squares() == Rules.Locations(State(), side)
    {
      if side == Black {
        bb := black;
      } else {
        bb := white;
      }
    }

    /** Flip the bit of square p in the occupancy bitboard of one side. */
    method FlipBitAtPositionOfBitboard(side: Side, p: Position)
      requires Valid() && p.OnBoard()
      modifies black.bits, white.bits
      ensures Valid() && State() == Rules.FlipBit(old(State()), side, p)
    {
      if side == Black {
        var _ := black.FlipPosition(p);
      } else {
        var _ := white.FlipPosition(p);
      }
    }

    /** GetPieceAtPosition: the index of the last listed piece standing on p. */
    method GetPieceAtPosition(p: Position) returns (found: Option<nat>)
      requires Valid()
      ensures found == Rules.LastAt(activePieces, p)
    {
      found := None;
      var k := 0;
      while k < |activePieces|
        invariant 0 <= k <= |activePieces|
        invariant found == Rules.LastAt(activePieces[..k], p)
      {
        assert activePieces[..k + 1][..k] == activePieces[..k];
        if p == activePieces[k].pos {
          found := Some(k);
        }
        k := k + 1;
      }
      assert activePieces[..k] == activePieces;
    }

    /**
     * AddPiece: a listed piece on the new piece's square (the last one found) is removed, and
     * the new piece is appended.
     */
    method AddPiece(pc: Piece)
      requires Valid() && pc.pos.OnBoard()
      modifies this
      ensures Valid() && black == old(black) && white == old(white)
      ensures State() == Rules.AddPiece(old(State()), pc)
    {
      var existing := GetPieceAtPosition(pc.pos);
      if existing.Some? {
        activePieces := activePieces[..existing.value] + activePieces[existing.value + 1..];
      }
      activePieces := activePieces + [pc];
    }

    /**
     * KillPieceAtPosition: the first listed piece on p is removed and its side's bit at p is
     * flipped.  The index of the removed piece is returned.
     */
    method KillPieceAtPosition(p: Position) returns (killed: Option<nat>)
      requires Valid()
      modifies this, black.bits, white.bits
      ensures Valid() && black == old(black) && white == old(white)
      ensures killed == Rules.FirstAt(old(activePieces), p)
      ensures State() == Rules.Kill(old(State()), p)
    {
      killed := None;
      var k := 0;
      while k < |activePieces|
        invariant 0 <= k <= |activePieces|
        invariant forall x :: 0 <= x < k ==> activePieces[x].pos != p
      {
        if p == activePieces[k].pos {
          killed := Some(k);
          break;
        }
        k := k + 1;
      }
      FirstAtIs(activePieces, p, killed);
      if killed.Some? {
        FlipBitAtPositionOfBitboard(activePieces[k].side, p);
        activePieces := activePieces[..k] + activePieces[k + 1..];
      }
    }

    /** GetPiecesOfTypeAndSide: the listed pieces of the kind's class and the side, in order. */
    method GetPiecesOfTypeAndSide(kind: Kind, side: Side) returns (found: seq<Piece>)
      requires Valid()
      ensures found == Rules.PiecesOfTypeAndSide(activePieces, kind, side)
    {
      found := [];
      var k := 0;
      while k < |activePieces|
        invariant 0 <= k <= |activePieces|
        invariant found == Rules.PiecesOfTypeAndSide(activePieces[..k], kind, side)
      {
        assert activePieces[..k + 1][..k] == activePieces[..k];
        var piece := activePieces[k];
        if piece.side == side && SameType(piece.kind, kind) {
          found := found + [piece];
        }
        k := k + 1;
      }
      assert activePieces[..k] == activePieces;
    }

    // -------------------------------------------------------------------------------------
    // Moving a piece.

    /**
     * MoveTo: flip the mover's bits at its square and at t, kill the first piece on t, move the
     * mover and run its PostMoveActions.  None when no exception was raised.
     */
    method MoveTo(i: nat, t: Position) returns (err: Option<Error>)
      requires Valid() && i < |activePieces| && t.OnBoard()
      modifies this, black.bits, white.bits
      ensures Valid() && black == old(black) && white == old(white)
      ensures var r := Rules.MoveTo(old(State()), i, t);
        (err.None? <==> r.Ok?) && (r.Ok? ==> State() == r.value) && (r.Err? ==> err == Some(r.error))
      decreases Rules.MoveRank(activePieces[i].kind), 1
    {
      var mover := activePieces[i];
      FlipBitAtPositionOfBitboard(mover.side, mover.pos);
      FlipBitAtPositionOfBitboard(mover.side, t);
      var killed := KillPieceAtPosition(t);
      var idx := Rules.Survivor(i, killed);
      var moved := mover.(pos := t);
      if idx.Some? {
        activePieces := activePieces[idx.value := moved];
      }
      err := PostMoveActions(moved, idx);
    }

    /** PostMoveActions of the piece pc just moved, at index idx unless it was removed. */
    method PostMoveActions(pc: Piece, idx: Option<nat>) returns (err: Option<Error>)
      requires Valid() && pc.pos.OnBoard()
      requires idx.Some? ==> idx.value < |activePieces| && activePieces[idx.value] == pc
      modifies this, black.bits, white.bits
      ensures Valid() && black == old(black) && white == old(white)
      ensures var r := Rules.PostMoveActions(old(State()), pc, idx);
        (err.None? <==> r.Ok?) && (r.Ok? ==> State() == r.value) && (r.Err? ==> err == Some(r.error))
      decreases Rules.MoveRank(pc.kind), 0
    {
      err := None;
      match pc.kind
      case Pawn(_, _) =>
        PawnPostMove(pc, idx);
      case Rook(_) =>
        if idx.Some? {
          activePieces := activePieces[idx.value := pc.(kind := Rook(false))];
        }
      case King(_) =>
        err := KingPostMove(pc, idx);
      case _ =>
    }

    /** PostMoveActions of a pawn: note a double step, then capture a passed pawn behind it. */
    method PawnPostMove(pc: Piece, idx: Option<nat>)
      requires Valid() && pc.pos.OnBoard()
      requires idx.Some? ==> idx.value < |activePieces| && activePieces[idx.value] == pc
      requires pc.kind.Pawn?
      modifies this, black.bits, white.bits
      ensures Valid() && black == old(black) && white == old(white)
      ensures Rules.PostMoveActions(old(State()), pc, idx) == Ok(State())
    {
      ghost var b := State();
      var flag, init := pc.kind.allowEnPassantCapture, pc.kind.initialPosition;
      var moved := pc.(kind := Pawn(flag || pc.pos == Rules.DoubleStep(pc.side, init), init));
      if idx.Some? {
        activePieces := activePieces[idx.value := moved];
      }
      ghost var b1 := State();
      assert b1 == Rules.Put(b, idx, moved);
      var passed := GetPieceAtPosition(Rules.Behind(pc.side, pc.pos));
      ghost var spec := Rules.PieceAt(b1, Rules.Behind(pc.side, pc.pos));
      assert spec == if passed.Some? then Some(activePieces[passed.value]) else None;
      if passed.Some? && activePieces[passed.value].kind.Pawn? && activePieces[passed.value].kind.allowEnPassantCapture {
        var _ := KillPieceAtPosition(activePieces[passed.value].pos);
        assert State() == Rules.Kill(b1, spec.value.pos);
      }
    }

    /** PostMoveActions of a King: a King that may castle loses the right and, on a castling square, moves its rook. */
    method KingPostMove(pc: Piece, idx: Option<nat>) returns (err: Option<Error>)
      requires Valid() && pc.pos.OnBoard()
      requires idx.Some? ==> idx.value < |activePieces| && activePieces[idx.value] == pc
      requires pc.kind.King?
      modifies this, black.bits, white.bits
      ensures Valid() && black == old(black) && white == old(white)
      ensures var r := Rules.PostMoveActions(old(State()), pc, idx);
        (err.None? <==> r.Ok?) && (r.Ok? ==> State() == r.value) && (r.Err? ==> err == Some(r.error))
      decreases 0, 3
    {
      err := None;
      if pc.kind.canCastle {
        if idx.Some? {
          activePieces := activePieces[idx.value := pc.(kind := King(false))];
        }
        if pc.pos.column == 2 {
          err := CastleRook(Position(1, pc.pos.row), 3);
        } else if pc.pos.column == 6 {
          err := CastleRook(Position(8, pc.pos.row), 5);
        }
      }
    }

    /** The rook relocation of a castling king: the piece on corner (cast to Rook) moves to column. */
    method CastleRook(corner: Position, column: int) returns (err: Option<Error>)
      requires Valid() && corner.OnBoard() && Min <= column <= Max
      modifies this, black.bits, white.bits
      ensures Valid() && black == old(black) && white == old(white)
      ensures var r := Rules.CastleRook(old(State()), corner, column);
        (err.None? <==> r.Ok?) && (r.Ok? ==> State() == r.value) && (r.Err? ==> err == Some(r.error))
      decreases 0, 2
    {
      var rook := GetPieceAtPosition(corner);
      if rook.None? {
        return Some(NullReference);
      }
      if !activePieces[rook.value].kind.Rook? {
        return Some(InvalidCast);
      }
      err := MoveTo(rook.value, Position(column, activePieces[rook.value].pos.row));
    }

    // -------------------------------------------------------------------------------------
    // Move generation.  These methods call each other through castling as the functions of
    // Rules do, with the same ranks.  None of them changes the board: IsMoveSafe works on a
    // fresh copy, and the bitboards they return and flip are fresh.

    /** IsKingInCheck: some piece of the other side attacks the first King of side s. */
    method IsKingInCheck(s: Side) returns (r: Result<bool>)
      requires Valid()
      ensures r == Rules.InCheck(State(), s)
      decreases if s == movingSide then 0 else 1, 5, 0
    {
      var kings := GetPiecesOfTypeAndSide(King(false), s);
      if |kings| == 0 {
        return Err(IndexOutOfRange);
      }
      assert kings[0] in activePieces;
      r := ScanForCheck(s, kings[0].pos);
    }

    /** The loop of IsKingInCheck over the pieces of the other side, for a King on square king. */
    method ScanForCheck(s: Side, king: Position) returns (r: Result<bool>)
      requires Valid() && king.OnBoard()
      ensures r == Rules.CheckScan(State(), s, king, |activePieces|)
      decreases if s == movingSide then 0 else 1, 4, 0
    {
      ghost var b := State();
      var inCheck := false;
      var j := 0;
      while j < |activePieces|
        invariant 0 <= j <= |activePieces| && State() == b
        invariant Rules.CheckScan(b, s, king, j) == Ok(inCheck)
      {
        var step := PieceChecks(s, king, j, inCheck);
        if step.Err? {
          RulesProperties.CheckScanErrPersists(b, s, king, j + 1, |activePieces|);
          return Err(step.error);
        }
        inCheck := step.value;
        j := j + 1;
      }
      r := Ok(inCheck);
    }

    /**
     * The body of that loop for piece j: a piece of the other side whose moves include the
     * King's square gives check, unless it is a pawn in the King's column.
     */
    method PieceChecks(s: Side, king: Position, j: nat, inCheck: bool) returns (r: Result<bool>)
      requires Valid() && king.OnBoard() && j < |activePieces|
      requires Rules.CheckScan(State(), s, king, j) == Ok(inCheck)
      ensures r == Rules.CheckScan(State(), s, king, j + 1)
      decreases if s == movingSide then 0 else 1, 3, 1
    {
      var piece := activePieces[j];
      RulesProperties.CheckScanStep(State(), s, king, j);
      if piece.side != s {
        var available := GetMovesForCurrentPosition(j);
        if available.Err? {
          return Err(available.error);
        }
        var attacks := false;
        if available.value.ValueAtPosition(king) > 0 {
          if !(piece.kind.Pawn? && piece.pos.column == king.column) {
            attacks := true;
          }
        }
        return Ok(inCheck || attacks);
      }
      r := Ok(inCheck);
    }

    /** GetMovesForCurrentPosition: the table entry for the piece's square, refined by its kind. */
    method GetMovesForCurrentPosition(j: nat) returns (r: Result<Bitboard>)
      requires Valid() && j < |activePieces|
      ensures r.Ok? <==> Rules.Moves(State(), j).Ok?
      ensures r.Ok? ==> (fresh(r.value) && fresh(r.value.bits) && r.value.Valid() &&
        r.value.Squares() == Rules.Moves(State(), j).value)
      ensures r.Err? ==> Rules.Moves(State(), j) == Err(r.error)
      decreases if activePieces[j].side == movingSide then 1 else 0, 3, 0
    {
      var pc := activePieces[j];
      if pc.pos !in pc.moves {
        return Err(KeyNotFound);
      }
      var entry := FromRows(pc.moves[pc.pos]);
      r := AdditionalMoveProcessing(pc, entry);
    }

    /** AdditionalMoveProcessing of the piece's kind on the bitboard s (s itself is not changed). */
    method AdditionalMoveProcessing(pc: Piece, s: Bitboard) returns (r: Result<Bitboard>)
      requires Valid() && pc.pos.OnBoard() && s.Valid()
      ensures r.Ok? <==> Rules.AdditionalMoveProcessing(State(), pc, s.Squares()).Ok?
      ensures r.Ok? ==> (fresh(r.value) && fresh(r.value.bits) && r.value.Valid() &&
        r.value.Squares() == Rules.AdditionalMoveProcessing(State(), pc, s.Squares()).value)
      ensures r.Err? ==> Rules.AdditionalMoveProcessing(State(), pc, s.Squares()) == Err(r.error)
      decreases if pc.side == movingSide then 1 else 0, 2, 0
    {
      if pc.kind.Pawn? {
        r := PawnAdditionalMoveProcessing(pc, s);
      } else {
        r := RefinedMoves(pc, s);
      }
    }

    /**
     * AdditionalMoveProcessing of the other kinds: cut s at the enemy pieces, keeping them, then
     * at the friendly ones, dropping them; a King that may castle on its side's turn adds castling.
     */
    method RefinedMoves(pc: Piece, s: Bitboard) returns (r: Result<Bitboard>)
      requires Valid() && pc.pos.OnBoard() && s.Valid() && !pc.kind.Pawn?
      ensures r.Ok? <==> Rules.AdditionalMoveProcessing(State(), pc, s.Squares()).Ok?
      ensures r.Ok? ==> (fresh(r.value) && fresh(r.value.bits) && r.value.Valid() &&
        r.value.Squares() == Rules.AdditionalMoveProcessing(State(), pc, s.Squares()).value)
      ensures r.Err? ==> Rules.AdditionalMoveProcessing(State(), pc, s.Squares()) == Err(r.error)
      decreases if pc.side == movingSide then 1 else 0, 1, 2
    {
      ghost var b := State();
      var base := RayFilter(pc, s);
      ghost var refined := base.Squares();
      if pc.kind.King? && movingSide == pc.side && pc.kind.canCastle {
        assert Rules.AdditionalMoveProcessing(b, pc, s.Squares()) == Rules.Castle(b, pc, refined);
        r := Castle(pc, base);
      } else {
        assert Rules.AdditionalMoveProcessing(b, pc, s.Squares()) == Ok(refined);
        r := Ok(base);
      }
    }

    /** The two ray passes of RefinedMoves, on a fresh bitboard. */
    method RayFilter(pc: Piece, s: Bitboard) returns (base: Bitboard)
      requires Valid() && pc.pos.OnBoard() && s.Valid()
      ensures fresh(base) && fresh(base.bits) && base.Valid()
      ensures base.Squares() == Refine(s.Squares(), Rules.Locations(State(), pc.side.Opponent()), Rules.Locations(State(), pc.side), pc.pos)
    {
      var enemy := GetPieceLocations(pc.side.Opponent());
      var friendly := GetPieceLocations(pc.side);
      var cut := s.ComputeRayIntersections(enemy, pc.pos, true);
      base := cut.ComputeRayIntersections(friendly, pc.pos, false);
    }

    /**
     * The pawn's AdditionalMoveProcessing: cut the forward squares at any piece, then flip the
     * capturing diagonals and the en passant squares.
     */
    method PawnAdditionalMoveProcessing(pc: Piece, s: Bitboard) returns (r: Result<Bitboard>)
      requires Valid() && pc.pos.OnBoard() && s.Valid()
      ensures r.Ok? <==> Rules.PawnMoves(State(), pc, s.Squares()).Ok?
      ensures r.Ok? ==> (fresh(r.value) && fresh(r.value.bits) && r.value.Valid() &&
        r.value.Squares() == Rules.PawnMoves(State(), pc, s.Squares()).value)
      ensures r.Err? ==> Rules.PawnMoves(State(), pc, s.Squares()) == Err(r.error)
    {
      var ahead := Forward(pc.side, pc.pos.row);
      var friendly := GetPieceLocations(pc.side);
      var opponent := GetPieceLocations(pc.side.Opponent());
      var cut := s.ComputeRayIntersections(friendly, pc.pos, false);
      var m := cut.ComputeRayIntersections(opponent, pc.pos, false);
      if ahead < Min || ahead > Max {
        return Err(IndexOutOfRange);
      }
      PawnCaptures(pc, m);
      r := EnPassant(pc, m);
    }

    /** The diagonal flips of the pawn's AdditionalMoveProcessing, on m. */
    method PawnCaptures(pc: Piece, m: Bitboard)
      requires Valid() && pc.pos.OnBoard() && m.Valid()
      requires Min <= Forward(pc.side, pc.pos.row) <= Max
      requires m.bits != black.bits && m.bits != white.bits
      modifies m.bits
      ensures m.Valid() && m.Squares() == Rules.PawnCaptures(old(State()), pc, old(m.Squares()))
    {
      var c, ahead := pc.pos.column, Forward(pc.side, pc.pos.row);
      if c > Min {
        FlipIfEnemy(pc, m, Position(c - 1, ahead));
      }
      if c < Max {
        FlipIfEnemy(pc, m, Position(c + 1, ahead));
      }
    }

    /** One diagonal flip: q is flipped in m when an opponent of pc occupies it. */
    method FlipIfEnemy(pc: Piece, m: Bitboard, q: Position)
      requires Valid() && q.OnBoard() && m.Valid()
      requires m.bits != black.bits && m.bits != white.bits
      modifies m.bits
      ensures m.Valid() && State() == old(State())
      ensures m.Squares() ==
        if q in Rules.Locations(old(State()), pc.side.Opponent()) then Toggle(old(m.Squares()), q) else old(m.Squares())
    {
      var opponent := GetPieceLocations(pc.side.Opponent());
      if opponent.ValueAtPosition(q) > 0 {
        var _ := m.FlipPosition(q);
      }
    }

    /** The en passant flips of the pawn's AdditionalMoveProcessing, on m. */
    method EnPassant(pc: Piece, m: Bitboard) returns (r: Result<Bitboard>)
      requires Valid() && pc.pos.OnBoard() && m.Valid()
      requires Min <= Forward(pc.side, pc.pos.row) <= Max
      requires m.bits != black.bits && m.bits != white.bits
      modifies m.bits
      ensures r.Ok? <==> Rules.EnPassant(old(State()), pc, old(m.Squares())).Ok?
      ensures r.Ok? ==> (r.value == m && m.Valid() &&
        m.Squares() == Rules.EnPassant(old(State()), pc, old(m.Squares())).value)
      ensures r.Err? ==> Rules.EnPassant(old(State()), pc, old(m.Squares())) == Err(r.error)
    {
      var err := EnPassantLeft(pc, m);
      if err.Some? {
        return Err(err.value);
      }
      EnPassantRight(pc, m);
      r := Ok(m);
    }

    /** The left en passant flip, on m. */
    method EnPassantLeft(pc: Piece, m: Bitboard) returns (err: Option<Error>)
      requires Valid() && pc.pos.OnBoard() && m.Valid()
      requires Min <= Forward(pc.side, pc.pos.row) <= Max
      requires m.bits != black.bits && m.bits != white.bits
      modifies m.bits
      ensures m.Valid()
      ensures var spec := Rules.EnPassantLeft(old(State()), pc, old(m.Squares()));
        (err.None? <==> spec.Ok?) && (spec.Ok? ==> m.Squares() == spec.value) &&
        (spec.Err? ==> err == Some(spec.error))
    {
      var c, row := pc.pos.column, pc.pos.row;
      var opponent := GetPieceLocations(pc.side.Opponent());
      err := None;
      if c > Min && opponent.ValueAtPosition(Position(c - 1, row)) > 0 {
        var passed := GetPieceAtPosition(Position(c - 1, row));
        if passed.None? {
          return Some(NullReference);
        }
        if Rules.EnPassantTarget(activePieces[passed.value]) {
          var _ := m.FlipPosition(Position(c - 1, Forward(pc.side, row)));
        }
      }
    }

    /** The right en passant flip, on m. */
    method EnPassantRight(pc: Piece, m: Bitboard)
      requires Valid() && pc.pos.OnBoard() && m.Valid()
      requires Min <= Forward(pc.side, pc.pos.row) <= Max
      requires m.bits != black.bits && m.bits != white.bits
      modifies m.bits
      ensures m.Valid() && m.Squares() == Rules.EnPassantRight(old(State()), pc, old(m.Squares()))
    {
      ghost var b := State();
      var c, row := pc.pos.column, pc.pos.row;
      var opponent := GetPieceLocations(pc.side.Opponent());
      if c < Max && opponent.ValueAtPosition(Position(c + 1, row)) > 0 {
        var passed := GetPieceAtPosition(Position(c + 1, row));
        assert passed.Some? ==> Rules.PieceAt(b, Position(c + 1, row)) == Some(activePieces[passed.value]);
        if passed.Some? && Rules.EnPassantTarget(activePieces[passed.value]) {
          var _ := m.FlipPosition(Position(c + 1, Forward(pc.side, row)));
        }
      }
    }

    /** The castling part of the King's AdditionalMoveProcessing, flipping squares of base. */
    method Castle(pc: Piece, base: Bitboard) returns (r: Result<Bitboard>)
      requires Valid() && pc.pos.OnBoard() && pc.side == movingSide && base.Valid()
      requires base.bits != black.bits && base.bits != white.bits
      modifies base.bits
      ensures r.Ok? <==> Rules.Castle(old(State()), pc, old(base.Squares())).Ok?
      ensures r.Ok? ==> (r.value == base && base.Valid() &&
        base.Squares() == Rules.Castle(old(State()), pc, old(base.Squares())).value)
      ensures r.Err? ==> Rules.Castle(old(State()), pc, old(base.Squares())) == Err(r.error)
      decreases 1, 1, 1
    {
      var inCheck := IsKingInCheck(pc.side);
      if inCheck.Err? {
        return Err(inCheck.error);
      }
      if inCheck.value {
        return Ok(base);
      }
      var err := CastleSide(pc, base, 1, 2, 3);
      if err.Some? {
        return Err(err.value);
      }
      err := CastleSide(pc, base, 8, 6, 5);
      if err.Some? {
        return Err(err.value);
      }
      r := Ok(base);
    }

    /** One side of castling: flip the target square of moves when the castle is possible. */
    method CastleSide(pc: Piece, moves: Bitboard, corner: int, target: int, safe: int) returns (err: Option<Error>)
      requires Valid() && pc.pos.OnBoard() && pc.side == movingSide && moves.Valid()
      requires moves.bits != black.bits && moves.bits != white.bits
      requires Min <= safe <= Max && Min <= target <= Max
      modifies moves.bits
      ensures moves.Valid()
      ensures var spec := Rules.CastleSide(old(State()), pc, old(moves.Squares()), corner, target, safe);
        (err.None? <==> spec.Ok?) && (spec.Ok? ==> moves.Squares() == spec.value) &&
        (spec.Err? ==> err == Some(spec.error))
      decreases 1, 1, 0
    {
      var row := pc.pos.row;
      var rook := GetPieceAtPosition(Position(corner, row));
      if rook.Some? && activePieces[rook.value].kind.Rook? && activePieces[rook.value].kind.canCastle {
        var atTarget := GetPieceAtPosition(Position(target, row));
        var atSafe := GetPieceAtPosition(Position(safe, row));
        if atTarget.None? && atSafe.None? {
          err := SafeFlip(pc, moves, Position(safe, row), Position(target, row));
          return;
        }
      }
      err := None;
    }

    /** The last step of one side of castling: flip target in moves when the move to safe is safe. */
    method SafeFlip(pc: Piece, moves: Bitboard, safe: Position, target: Position) returns (err: Option<Error>)
      requires Valid() && pc.side == movingSide && moves.Valid() && safe.OnBoard() && target.OnBoard()
      requires moves.bits != black.bits && moves.bits != white.bits
      modifies moves.bits
      ensures moves.Valid()
      ensures var ok := Rules.IsMoveSafe(old(State()), pc, safe);
        (err.None? <==> ok.Ok?) && (ok.Err? ==> err == Some(ok.error)) &&
        (ok.Ok? ==> moves.Squares() == if ok.value then Toggle(old(moves.Squares()), target) else old(moves.Squares()))
      decreases 1, 0, 1
    {
      var ok := IsMoveSafe(pc, safe);
      if ok.Err? {
        return Some(ok.error);
      }
      if ok.value {
        var _ := moves.FlipPosition(target);
      }
      err := None;
    }

    /** IsMoveSafe: on a copy of the board, move the piece on pc's square to p; is pc's side then not in check? */
    method IsMoveSafe(pc: Piece, p: Position) returns (r: Result<bool>)
      requires Valid() && p.OnBoard()
      ensures r == Rules.IsMoveSafe(State(), pc, p)
      decreases if pc.side == movingSide then 1 else 2, 0, 0
    {
      var copy := MakeCopyOfChessboard(this);
      var i := copy.GetPieceAtPosition(pc.pos);
      if i.None? {
        return Err(NullReference);
      }
      var err := copy.MoveTo(i.value, p);
      if err.Some? {
        return Err(err.value);
      }
      assert copy.movingSide == movingSide;
      var inCheck := copy.IsKingInCheck(pc.side);
      if inCheck.Err? {
        return Err(inCheck.error);
      }
      r := Ok(!inCheck.value);
    }

    // -------------------------------------------------------------------------------------
    // Safe moves and checkmate.

    /** GetSafeMovesForCurrentPosition: the moves of piece j, with every unsafe square flipped off. */
    method GetSafeMovesForCurrentPosition(j: nat) returns (r: Result<Bitboard>)
      requires Valid() && j < |activePieces|
      ensures r.Ok? <==> Rules.SafeMoves(State(), j).Ok?
      ensures r.Ok? ==> (fresh(r.value) && fresh(r.value.bits) && r.value.Valid() &&
        r.value.Squares() == Rules.SafeMoves(State(), j).value)
      ensures r.Err? ==> Rules.SafeMoves(State(), j) == Err(r.error)
    {
      var moves := GetMovesForCurrentPosition(j);
      if moves.Err? {
        return Err(moves.error);
      }
      var available := moves.value;
      var ps := available.GetPositions();
      EnumerateProperties(available.Squares());
      var err := FilterUnsafe(activePieces[j], available, ps);
      if err.Some? {
        return Err(err.value);
      }
      r := Ok(available);
    }

    /** The loop of GetSafeMovesForCurrentPosition: flip off every square of ps that is not safe for pc. */
    method FilterUnsafe(pc: Piece, available: Bitboard, ps: seq<Position>) returns (err: Option<Error>)
      requires Valid() && available.Valid() && forall q :: q in ps ==> q.OnBoard()
      requires available.bits != black.bits && available.bits != white.bits
      modifies available.bits
      ensures available.Valid()
      ensures var spec := Rules.SafeFilter(old(State()), pc, old(available.Squares()), ps, |ps|);
        (err.None? <==> spec.Ok?) && (spec.Ok? ==> available.Squares() == spec.value) &&
        (spec.Err? ==> err == Some(spec.error))
    {
      ghost var b, m := State(), available.Squares();
      ghost var checks: seq<Result<bool>> := [];
      var k := 0;
      while k < |ps|
        invariant 0 <= k <= |ps| && |checks| == k && State() == b && available.Valid()
        invariant forall i :: 0 <= i < k ==> RulesProperties.Answers(b, pc, ps, checks, i)
        invariant RulesProperties.FilterWith(m, ps, checks) == Ok(available.Squares())
      {
        assert ps[k] in ps;
        var safe := FlipIfUnsafe(pc, available, ps[k]);
        ghost var before := checks;
        checks := checks + [safe];
        assert checks[..k] == before;
        forall i | 0 <= i < k + 1 ensures RulesProperties.Answers(b, pc, ps, checks, i) {
          assert ps[i] in ps;
          if i < k {
            assert RulesProperties.Answers(b, pc, ps, before, i);
          }
        }
        if safe.Err? {
          RulesProperties.SafeFilterWith(b, pc, m, ps, checks);
          RulesProperties.SafeFilterErrPersists(b, pc, m, ps, k + 1, |ps|);
          return Some(safe.error);
        }
        k := k + 1;
      }
      RulesProperties.SafeFilterWith(b, pc, m, ps, checks);
      err := None;
    }

    /** One step of that loop: flip q off available unless moving pc to q is safe. */
    method FlipIfUnsafe(pc: Piece, available: Bitboard, q: Position) returns (safe: Result<bool>)
      requires Valid() && available.Valid() && q.OnBoard()
      requires available.bits != black.bits && available.bits != white.bits
      modifies available.bits
      ensures available.Valid() && safe == Rules.IsMoveSafe(old(State()), pc, q)
      ensures safe.Ok? ==> (available.Squares() ==
        if safe.value then old(available.Squares()) else Toggle(old(available.Squares()), q))
    {
      safe := IsMoveSafe(pc, q);
      if safe.Ok? && !safe.value {
        var _ := available.FlipPosition(q);
      }
    }

    /** IsKingInCheckmate: the King of side s is in check and no piece of side s has a safe move. */
    method IsKingInCheckmate(s: Side) returns (r: Result<bool>)
      requires Valid()
      ensures r == Rules.Checkmate(State(), s)
    {
      var inCheck := IsKingInCheck(s);
      if inCheck.Err? {
        return Err(inCheck.error);
      }
      var canMove := ScanForMobility(s);
      if canMove.Err? {
        return Err(canMove.error);
      }
      r := Ok(inCheck.value && !canMove.value);
    }

    /** The loop of IsKingInCheckmate: whether some piece of side s lists a safe move. */
    method ScanForMobility(s: Side) returns (r: Result<bool>)
      requires Valid()
      ensures r == Rules.MobileScan(State(), s, |activePieces|)
    {
      ghost var b := State();
      var cannotMove := true;
      var j := 0;
      while j < |activePieces|
        invariant 0 <= j <= |activePieces| && State() == b
        invariant Rules.MobileScan(b, s, j) == Ok(!cannotMove)
      {
        var mobile := PieceMobility(s, j);
        RulesProperties.MobileScanStep(b, s, j);
        if mobile.Err? {
          RulesProperties.MobileScanErrPersists(b, s, j + 1, |activePieces|);
          return Err(mobile.error);
        }
        if mobile.value {
          cannotMove := false;
        }
        j := j + 1;
      }
      r := Ok(!cannotMove);
    }

    /**
     * One step of that loop: a piece of another side does not count; a piece of side s can move
     * when GetPositions of its safe moves is not empty.
     */
    method PieceMobility(s: Side, j: nat) returns (r: Result<bool>)
      requires Valid() && j < |activePieces|
      ensures activePieces[j].side != s ==> r == Ok(false)
      ensures activePieces[j].side == s ==> (r.Ok? <==> Rules.SafeMoves(State(), j).Ok?)
      ensures activePieces[j].side == s && r.Ok? ==> r.value == HasSquare(Rules.SafeMoves(State(), j).value)
      ensures r.Err? ==> Rules.SafeMoves(State(), j) == Err(r.error)
    {
      if activePieces[j].side != s {
        return Ok(false);
      }
      var safe := GetSafeMovesForCurrentPosition(j);
      if safe.Err? {
        return Err(safe.error);
      }
      var positions := safe.value.GetPositions();
      EnumerateNonEmpty(safe.value.Squares());
      r := Ok(|positions| > 0);
    }
  }

  /**
   * MakeCopyOfChessboard: a new board with copies of both occupancy bitboards, the same side to
   * move and a copy of every piece.
   */
  method MakeCopyOfChessboard(board: Chessboard) returns (copy: Chessboard)
    requires board.Valid()
    ensures fresh(copy) && fresh(copy.black) && fresh(copy.white) && fresh(copy.black.bits) && fresh(copy.white.bits)
    ensures copy.Valid() && copy.State() == board.State()
  {
    copy := new Chessboard();
    var nb := board.black.IntersectBitboard(copy.black);
    var nw := board.white.IntersectBitboard(copy.white);
    var pieces := CopyPieces(board.activePieces);
    copy.black := nb;
    copy.white := nw;
    copy.movingSide := board.movingSide;
    copy.activePieces := pieces;
  }

  /** The piece loop of MakeCopyOfChessboard: each piece built by its class's constructor, then CopyPiece. */
  method CopyPieces(ps: seq<Piece>) returns (copies: seq<Piece>)
    ensures copies == ps
  {
    copies := [];
    var k := 0;
    while k < |ps|
      invariant 0 <= k <= |ps| && copies == ps[..k]
    {
      var created := CreatePiece(ps[k].kind, Black, ps[k].pos);
      copies := copies + [CopyPiece(ps[k], created)];
      k := k + 1;
    }
  }

  /** The first index found by a front-to-back search is the one FirstAt names. */
  lemma {:induction false} FirstAtIs(ps: seq<Piece>, p: Position, found: Option<nat>)
    requires found.Some? ==> found.value < |ps| && ps[found.value].pos == p && forall k :: 0 <= k < found.value ==> ps[k].pos != p
    requires found.None? ==> forall k :: 0 <= k < |ps| ==> ps[k].pos != p
    ensures found == Rules.FirstAt(ps, p)
  {
  }
}
